/**
 * The variable-length wire form of a collective descriptor: five fixed segments and eight core ids to each further
 * one.
 */
module DescriptorWire {
  import opened Wire
  import opened CollTypes

  const MAGIC := 0xC011

  /** Magic, version, op, algorithm, type, reduction, root, self, group size, segment count, unused. */
  const HEAD: seq<nat> := [16, 8, 8, 8, 8, 8, 16, 16, 16, 16, 8]
  const KEYS: seq<nat> := [32, 32, 32, 32]
  const WORDS: seq<nat> := [64, 64]

  /** The last word is unused in the stride's segment. */
  const IDS: seq<nat> := [16, 16, 16, 16, 16, 16, 16, 16]

  datatype Encoded = Segments(wire: seq<Bits>) | Invalid(why: Check) | GroupTooLarge

  datatype Decoded = Accepted(d: Descriptor) | Truncated | BadMagic | BadVersion | CountMismatch | EnumRange
                   | Rejected(why: Check)

  function OpCode(op: CollOp): nat {
    match op
    case P2P => 0
    case SCATTER => 1
    case GATHER => 2
    case BROADCAST => 3
    case ALLTOALL => 4
    case ALLGATHER => 5
    case REDUCE => 6
    case REDUCESCATTER => 7
    case ALLREDUCE => 8
  }

  function OpOf(c: nat): CollOp {
    if c == 0 then P2P else if c == 1 then SCATTER else if c == 2 then GATHER else if c == 3 then BROADCAST
    else if c == 4 then ALLTOALL else if c == 5 then ALLGATHER else if c == 6 then REDUCE
    else if c == 7 then REDUCESCATTER else ALLREDUCE
  }

  function AlgorithmCode(a: Algorithm): nat {
    match a
    case DIRECT => 0
    case ROOT_SCATTER => 1
    case ROOT_BROADCAST => 2
  }

  function AlgorithmOf(c: nat): Algorithm {
    if c == 0 then DIRECT else if c == 1 then ROOT_SCATTER else ROOT_BROADCAST
  }

  // ---- The group segments ---------------------------------------------------------------------

  function GroupSegments(n: nat): nat {
    (n + 7) / 8
  }

  /** The ids of segment `j`, zero past the end of the group. */
  function Ids(group: seq<int>, j: nat): (ids: seq<nat>)
    requires forall i :: 0 <= i < |group| ==> 0 <= group[i]
    ensures |ids| == 8
  {
    seq(8, k requires 0 <= k < 8 => if 8 * j + k < |group| then group[8 * j + k] as nat else 0)
  }

  predicate Ids16(group: seq<int>) {
    forall i :: 0 <= i < |group| ==> 0 <= group[i] < U16
  }

  /** Segments for `total` ids, of which only those of `group` are filled in. */
  function PackGroup(group: seq<int>, total: nat): (s: seq<Bits>)
    requires Ids16(group)
    ensures |s| == GroupSegments(total) && forall j :: 0 <= j < |s| ==> |s[j]| == Width(IDS)
  {
    seq(GroupSegments(total), j requires 0 <= j < GroupSegments(total) => Pack(IDS, Ids(group, j)))
  }

  lemma IdWidths(k: nat)
    requires k <= 8
    ensures Width(IDS[..k]) == 16 * k && Width(IDS) == 128
  {
    WidthNext(IDS, 0);
    WidthNext(IDS, 1);
    WidthNext(IDS, 2);
    WidthNext(IDS, 3);
    WidthNext(IDS, 4);
    WidthNext(IDS, 5);
    WidthNext(IDS, 6);
    WidthNext(IDS, 7);
    assert IDS[..8] == IDS;
  }

  function Overwritten(b: Bits, lo: nat, x: Bits): Bits
    requires lo + |x| <= |b|
  {
    b[..lo] + x + b[lo + |x|..]
  }

  /** Overwriting one field's bits is packing with that field changed. */
  lemma {:induction false} PackUpdate(layout: seq<nat>, vs: seq<nat>, i: nat, v: nat)
    requires |vs| == |layout| && i < |layout|
    ensures Width(layout[..i]) + layout[i] <= Width(layout)
    ensures Pack(layout, vs[i := v]) == Overwritten(Pack(layout, vs), Width(layout[..i]), Wire.Encode(v, layout[i]))
  {
    var n := |layout| - 1;
    var tail := Wire.Encode(vs[n], layout[n]);
    var x := Wire.Encode(v, layout[i]);
    if i < n {
      PackUpdate(layout[..n], vs[..n], i, v);
      assert layout[..n][..i] == layout[..i] && vs[i := v][..n] == vs[..n][i := v];
      Splice(Pack(layout[..n], vs[..n]), tail, Width(layout[..i]), x);
    } else {
      assert vs[i := v][..n] == vs[..n];
      SpliceEnd(Pack(layout[..n], vs[..n]), tail, x);
    }
  }

  lemma Splice(a: Bits, b: Bits, lo: nat, x: Bits)
    requires lo + |x| <= |a|
    ensures Overwritten(a + b, lo, x) == Overwritten(a, lo, x) + b
  {
  }

  lemma SpliceEnd(a: Bits, b: Bits, x: Bits)
    requires |x| == |b|
    ensures Overwritten(a + b, |a|, x) == a + x
  {
  }

  method WriteGroup(group: seq<int>) returns (segments: seq<Bits>)
    requires Ids16(group)
    ensures segments == PackGroup(group, |group|)
  {
    var n := |group|;
    segments := seq(GroupSegments(n), _ => seq(128, _ => false));
    BlankGroup(n);
    for i := 0 to n
      invariant segments == PackGroup(group[..i], n)
    {
      var segment, low := i / 8, i % 8 * 16;
      WriteId(group, i, segment, i % 8);
      var b := segments[segment];
      segments := segments[segment := Overwritten(b, low, Wire.Encode(group[i], 16))];
    }
    assert group[..n] == group;
  }

  lemma BlankGroup(n: nat)
    ensures PackGroup([], n) == seq(GroupSegments(n), _ => seq(128, _ => false))
  {
    forall j | 0 <= j < GroupSegments(n)
      ensures PackGroup([], n)[j] == seq(128, _ => false)
    {
      IdWidths(8);
      assert Ids([], j) == seq(8, _ => 0);
      Blank(IDS, Ids([], j));
    }
  }

  lemma {:induction false} Blank(layout: seq<nat>, vs: seq<nat>)
    requires |vs| == |layout| && forall i :: 0 <= i < |vs| ==> vs[i] == 0
    ensures Pack(layout, vs) == seq(Width(layout), _ => false)
  {
    if layout != [] {
      var n := |layout| - 1;
      Blank(layout[..n], vs[..n]);
      BlankField(layout[n]);
    }
  }

  lemma {:induction false} BlankField(n: nat)
    ensures Wire.Encode(0, n) == seq(n, _ => false)
  {
    if n > 0 {
      BlankField(n - 1);
    }
  }

  /** One more id lands in its own sixteen bits and disturbs nothing else. */
  lemma WriteId(group: seq<int>, i: nat, j: nat, k: nat)
    requires Ids16(group) && i < |group| && i == 8 * j + k && k < 8
    ensures j < GroupSegments(|group|) && |PackGroup(group[..i], |group|)[j]| == 128
    ensures var before := PackGroup(group[..i], |group|);
            PackGroup(group[..i + 1], |group|)
            == before[j := Overwritten(before[j], k * 16, Wire.Encode(group[i], 16))]
  {
    IdWidths(k);
    WriteSegment(group, i, j, k);
    var before, after := PackGroup(group[..i], |group|), PackGroup(group[..i + 1], |group|);
    forall s | 0 <= s < GroupSegments(|group|) && s != j
      ensures after[s] == before[s]
    {
      OtherSegments(group, i, j, k, s);
    }
  }

  lemma OtherSegments(group: seq<int>, i: nat, j: nat, k: nat, s: nat)
    requires Ids16(group) && i < |group| && i == 8 * j + k && k < 8 && s != j
    ensures Ids(group[..i + 1], s) == Ids(group[..i], s)
  {
  }

  lemma WriteSegment(group: seq<int>, i: nat, j: nat, k: nat)
    requires Ids16(group) && i < |group| && i == 8 * j + k && k < 8
    ensures Width(IDS) == 128
    ensures Pack(IDS, Ids(group[..i + 1], j))
              == Overwritten(Pack(IDS, Ids(group[..i], j)), k * 16, Wire.Encode(group[i], 16))
  {
    IdWidths(k);
    IdsNext(group, i, j, k);
    SegmentUpdate(Ids(group[..i], j), k, group[i]);
  }

  lemma SegmentUpdate(ids: seq<nat>, k: nat, id: nat)
    requires |ids| == 8 && k < 8
    ensures Width(IDS) == 128 && Pack(IDS, ids[k := id]) == Overwritten(Pack(IDS, ids), k * 16, Wire.Encode(id, 16))
  {
    IdWidths(k);
    assert IDS[k] == 16;
    PackUpdate(IDS, ids, k, id);
  }

  lemma IdsNext(group: seq<int>, i: nat, j: nat, k: nat)
    requires Ids16(group) && i < |group| && i == 8 * j + k && k < 8
    ensures Ids(group[..i + 1], j) == Ids(group[..i], j)[k := group[i]]
  {
  }

  method ReadGroup(segments: seq<Bits>, n: nat) returns (group: seq<int>)
    requires |segments| == GroupSegments(n) && forall j :: 0 <= j < |segments| ==> |segments[j]| == 128
    ensures |group| == n
    ensures forall i :: 0 <= i < n ==> group[i] == IdAt(segments, i)
  {
    group := [];
    for i := 0 to n
      invariant |group| == i && forall x :: 0 <= x < i ==> group[x] == IdAt(segments, x)
    {
      var segment, low := i / 8, i % 8 * 16;
      group := group + [Value(segments[segment][low..low + 16])];
    }
  }

  function IdAt(segments: seq<Bits>, i: nat): int
    requires i / 8 < |segments| && |segments[i / 8]| == 128
  {
    Value(segments[i / 8][i % 8 * 16..i % 8 * 16 + 16])
  }

  // ---- Whole descriptors ----------------------------------------------------------------------

  function HeadFields(d: Descriptor, segments: nat): (f: seq<nat>)
    requires d.Typed()
    ensures |f| == 11
  {
    [MAGIC, 0, OpCode(d.op), AlgorithmCode(d.algorithm), DTypeCode(d.dtype), ReduceCode(d.reduceOp),
     d.rootRank, d.selfRank, |d.group|, segments, 0]
  }

  function Fixed(d: Descriptor): (w: seq<Bits>)
    requires d.Typed()
    ensures |w| == 5
  {
    [Pack(HEAD, HeadFields(d, 5 + GroupSegments(|d.group|))),
     Pack(KEYS, [d.key.groupId, d.key.collectiveId, d.key.epoch, d.reorderDepth]),
     Pack(WORDS, [d.count, d.chunkBits]), Pack(WORDS, [d.srcAddr, d.dstAddr]), Pack(WORDS, [d.strideBits, 0])]
  }

  function Serialized(d: Descriptor): Encoded
    requires d.Typed()
  {
    if ValidateDescriptor(d) != Passed then Invalid(ValidateDescriptor(d))
    else if |d.group| > 0xffff then GroupTooLarge
    else Segments(Fixed(d) + PackGroup(d.group, |d.group|))
  }

  method SerializeCollDescriptor(d: Descriptor) returns (r: Encoded)
    requires d.Typed()
    ensures r == Serialized(d)
  {
    if ValidateDescriptor(d) != Passed {
      return Invalid(ValidateDescriptor(d));
    }
    if |d.group| > 0xffff {
      return GroupTooLarge;
    }
    var ids := WriteGroup(d.group);
    r := Segments(Fixed(d) + ids);
  }

  predicate Wire128(w: seq<Bits>) {
    forall i :: 0 <= i < |w| ==> |w[i]| == 128
  }

  lemma HeadWidth()
    ensures Width(HEAD) == 128
  {
    WidthNext(HEAD, 0);
    WidthNext(HEAD, 1);
    WidthNext(HEAD, 2);
    WidthNext(HEAD, 3);
    WidthNext(HEAD, 4);
    WidthNext(HEAD, 5);
    WidthNext(HEAD, 6);
    WidthNext(HEAD, 7);
    WidthNext(HEAD, 8);
    WidthNext(HEAD, 9);
    WidthNext(HEAD, 10);
    assert HEAD[..11] == HEAD;
  }

  lemma LayoutWidths()
    ensures Width(HEAD) == 128 && Width(KEYS) == 128 && Width(WORDS) == 128 && Width(IDS) == 128
  {
    HeadWidth();
    WidthNext(KEYS, 0);
    WidthNext(KEYS, 1);
    WidthNext(KEYS, 2);
    WidthNext(KEYS, 3);
    assert KEYS[..4] == KEYS;
    WidthNext(WORDS, 0);
    WidthNext(WORDS, 1);
    assert WORDS[..2] == WORDS;
    IdWidths(8);
  }

  function Group(w: seq<Bits>, n: nat): (g: seq<int>)
    requires |w| == 5 + GroupSegments(n) && Wire128(w)
    ensures |g| == n
  {
    seq(n, i requires 0 <= i < n => IdAt(w[5..], i))
  }

  /** The fields of an accepted wire. */
  function Assembled(head: seq<nat>, keys: seq<nat>, sizes: seq<nat>, addrs: seq<nat>, stride: nat,
          group: seq<int>): Descriptor
    requires |head| == 11 && |keys| == 4 && |sizes| == 2 && |addrs| == 2
  {
    Descriptor(OpOf(head[2]), AlgorithmOf(head[3]), DTypeOf(head[4]), ReduceOf(head[5]),
                         CollectiveKey(keys[0], keys[1], keys[2]), group, head[6], head[7],
                         sizes[0], addrs[0], addrs[1], sizes[1], stride, keys[3])
  }

  function Deserialized(w: seq<Bits>): Decoded
    requires Wire128(w)
  {
    LayoutWidths();
    if |w| < 5 then Truncated
    else
      var head := Unpack(HEAD, w[0]);
      if head[0] != MAGIC then BadMagic
      else if head[1] != 0 then BadVersion
      else if head[9] != 5 + GroupSegments(head[8]) || |w| != 5 + GroupSegments(head[8]) then CountMismatch
      else if head[2] > 8 || head[3] > 2 || head[4] > 3 || head[5] > 2 then EnumRange
      else
        var d := Assembled(head, Unpack(KEYS, w[1]), Unpack(WORDS, w[2]), Unpack(WORDS, w[3]), Unpack(WORDS, w[4])[0],
            Group(w, head[8]));
        if ValidateDescriptor(d) != Passed then Rejected(ValidateDescriptor(d)) else Accepted(d)
  }

  method DeserializeCollDescriptor(w: seq<Bits>) returns (r: Decoded)
    requires Wire128(w)
    ensures r == Deserialized(w)
  {
    LayoutWidths();
    if |w| < 5 {
      return Truncated;
    }
    var head := Unpack(HEAD, w[0]);
    if head[0] != MAGIC {
      return BadMagic;
    }
    if head[1] != 0 {
      return BadVersion;
    }
    var n := head[8];
    var expected := 5 + GroupSegments(n);
    if head[9] != expected || |w| != expected {
      return CountMismatch;
    }
    if head[2] > 8 || head[3] > 2 || head[4] > 3 || head[5] > 2 {
      return EnumRange;
    }
    var group := ReadGroup(w[5..], n);
    assert group == Group(w, n);
    var d := Assembled(head, Unpack(KEYS, w[1]), Unpack(WORDS, w[2]), Unpack(WORDS, w[3]), Unpack(WORDS, w[4])[0],
        group);
    if ValidateDescriptor(d) != Passed {
      return Rejected(ValidateDescriptor(d));
    }
    r := Accepted(d);
  }

  // ---- Round trips ----------------------------------------------------------------------------

  lemma HeadFits(d: Descriptor)
    requires d.Typed() && |d.group| <= 0xffff
    ensures Fits(HEAD, HeadFields(d, 5 + GroupSegments(|d.group|)))
  {
    WordSizes();
  }

  lemma IdsFit(group: seq<int>, j: nat)
    requires Ids16(group)
    ensures Fits(IDS, Ids(group, j))
  {
    WordSizes();
  }

  /** Reading id `i` out of the packed segments gives id `i`. */
  lemma IdReadBack(group: seq<int>, i: nat)
    requires Ids16(group) && i < |group|
    ensures Width(IDS) == 128 && i / 8 < GroupSegments(|group|)
    ensures IdAt(PackGroup(group, |group|), i) == group[i]
  {
    IdWidths(8);
    IdsFit(group, i / 8);
    UnpackPack(IDS, Ids(group, i / 8));
    IdRange(Pack(IDS, Ids(group, i / 8)), i % 8);
    assert Ids(group, i / 8)[i % 8] == group[i];
  }

  /** Id `k` of a segment is its own sixteen bits. */
  lemma IdRange(b: Bits, k: nat)
    requires |b| == 128 && k < 8
    ensures Width(IDS) == 128 && Unpack(IDS, b)[k] == Value(b[k * 16..k * 16 + 16])
  {
    IdWidths(k);
    FieldIsRange(IDS, b, k, 16 * k);
    assert IDS[k] == 16;
  }

  function KeyFields(d: Descriptor): seq<nat>
    requires d.Typed()
  {
    [d.key.groupId, d.key.collectiveId, d.key.epoch, d.reorderDepth]
  }

  lemma HeadBack(d: Descriptor)
    requires d.Typed() && |d.group| <= 0xffff
    ensures Width(HEAD) == 128 && Unpack(HEAD, Fixed(d)[0]) == HeadFields(d, 5 + GroupSegments(|d.group|))
  {
    HeadWidth();
    HeadFits(d);
    UnpackPack(HEAD, HeadFields(d, 5 + GroupSegments(|d.group|)));
  }

  lemma KeysBack(d: Descriptor)
    requires d.Typed()
    ensures Width(KEYS) == 128 && Unpack(KEYS, Fixed(d)[1]) == KeyFields(d)
  {
    LayoutWidths();
    WordSizes();
    UnpackPack(KEYS, KeyFields(d));
  }

  lemma WordsBack(a: nat, b: nat)
    requires a < U64 && b < U64
    ensures |Pack(WORDS, [a, b])| == Width(WORDS) == 128 && Unpack(WORDS, Pack(WORDS, [a, b])) == [a, b]
  {
    LayoutWidths();
    WordSizes();
    UnpackPack(WORDS, [a, b]);
  }

  lemma FixedReadBack(d: Descriptor)
    requires d.Typed() && |d.group| <= 0xffff
    ensures Wire128(Fixed(d)) && Width(HEAD) == Width(KEYS) == Width(WORDS) == 128
    ensures Unpack(HEAD, Fixed(d)[0]) == HeadFields(d, 5 + GroupSegments(|d.group|))
    ensures Unpack(KEYS, Fixed(d)[1]) == KeyFields(d)
    ensures Unpack(WORDS, Fixed(d)[2]) == [d.count, d.chunkBits] && Unpack(WORDS, Fixed(d)[3]) == [d.srcAddr, d.dstAddr]
    ensures Unpack(WORDS, Fixed(d)[4]) == [d.strideBits, 0]
  {
    HeadBack(d);
    KeysBack(d);
    WordsBack(d.count, d.chunkBits);
    WordsBack(d.srcAddr, d.dstAddr);
    WordsBack(d.strideBits, 0);
  }

  lemma AssembledBack(d: Descriptor, segments: nat)
    requires d.Typed()
    ensures var f := HeadFields(d, segments);
            && f[2] <= 8 && f[3] <= 2 && f[4] <= 3 && f[5] <= 2
            && Assembled(f, KeyFields(d), [d.count, d.chunkBits], [d.srcAddr, d.dstAddr], d.strideBits, d.group) == d
  {
  }

  lemma GroupReadBack(d: Descriptor, w: seq<Bits>)
    requires d.Typed() && Wire128(w) && w == Fixed(d) + PackGroup(d.group, |d.group|)
    ensures Group(w, |d.group|) == d.group
  {
    assert w[5..] == PackGroup(d.group, |d.group|);
    GroupOfPacked(d.group, w);
  }

  /** Every valid descriptor, with a group of any length up to the wire's 65535, decodes to itself. */
  lemma DescriptorRoundTrip(d: Descriptor)
    requires d.Typed() && Serialized(d).Segments?
    ensures Wire128(Serialized(d).wire) && Deserialized(Serialized(d).wire) == Accepted(d)
  {
    var w, n := Serialized(d).wire, |d.group|;
    FixedReadBack(d);
    assert w[0] == Fixed(d)[0] && w[1] == Fixed(d)[1] && w[2] == Fixed(d)[2] && w[3] == Fixed(d)[3]
        && w[4] == Fixed(d)[4];
    WidthsAdd(Fixed(d), PackGroup(d.group, n));
    GroupReadBack(d, w);
    AssembledBack(d, 5 + GroupSegments(n));
    AcceptsFields(w, d);
  }

  predicate RoundTrips(d: Descriptor)
    requires d.Typed()
  {
    var r := Serialized(d);
    r.Segments? && Wire128(r.wire) && Deserialized(r.wire) == Accepted(d)
  }

  /** Sixteen bits cannot count a group of 65536 cores, the one valid group that cannot be sent. */
  lemma RoundTripsIff(d: Descriptor)
    requires d.Typed() && ValidateDescriptor(d) == Passed
    ensures RoundTrips(d) <==> |d.group| < U16
  {
    if |d.group| < U16 {
      DescriptorRoundTrip(d);
    }
  }

  lemma EveryCoreUnsendable()
    ensures EveryCore().Typed() && ValidateDescriptor(EveryCore()) == Passed && !RoundTrips(EveryCore())
  {
    EveryCoreValid();
  }

  lemma WidthsAdd(fixed: seq<Bits>, ids: seq<Bits>)
    requires Wire128(fixed) && forall j :: 0 <= j < |ids| ==> |ids[j]| == Width(IDS)
    ensures Wire128(fixed + ids)
  {
    IdWidths(8);
  }

  lemma AcceptsFields(w: seq<Bits>, d: Descriptor)
    requires d.Typed() && ValidateDescriptor(d) == Passed && Wire128(w) && |w| == 5 + GroupSegments(|d.group|)
    requires Width(HEAD) == Width(KEYS) == Width(WORDS) == 128
    requires Unpack(HEAD, w[0]) == HeadFields(d, 5 + GroupSegments(|d.group|)) && Unpack(KEYS, w[1]) == KeyFields(d)
    requires Unpack(WORDS, w[2]) == [d.count, d.chunkBits] && Unpack(WORDS, w[3]) == [d.srcAddr, d.dstAddr]
    requires Unpack(WORDS, w[4]) == [d.strideBits, 0] && Group(w, |d.group|) == d.group
    ensures Deserialized(w) == Accepted(d)
  {
    AssembledBack(d, 5 + GroupSegments(|d.group|));
  }

  // ---- Which wires are canonical --------------------------------------------------------------

  predicate TailZero(ids: seq<nat>, used: int) {
    forall k :: 0 <= k < |ids| && k >= used ==> ids[k] == 0
  }

  predicate SegmentClean(w: seq<Bits>, n: nat, j: nat)
    requires Wire128(w) && |w| == 5 + GroupSegments(n) && j < GroupSegments(n)
  {
    LayoutWidths();
    TailZero(Unpack(IDS, w[5 + j]), n - 8 * j)
  }

  /** The bits no field uses are zero. */
  predicate Clean(w: seq<Bits>, n: nat)
    requires Wire128(w) && |w| == 5 + GroupSegments(n)
  {
    LayoutWidths();
    && Unpack(HEAD, w[0])[10] == 0 && Unpack(WORDS, w[4])[1] == 0
    && forall j :: 0 <= j < GroupSegments(n) ==> SegmentClean(w, n, j)
  }

  lemma IdIsField(w: seq<Bits>, n: nat, j: nat, k: nat)
    requires Wire128(w) && |w| == 5 + GroupSegments(n) && j < GroupSegments(n) && k < 8 && 8 * j + k < n
    ensures Width(IDS) == 128
    ensures Group(w, n)[8 * j + k] == Unpack(IDS, w[5 + j])[k]
  {
    IdRange(w[5 + j], k);
    assert (8 * j + k) / 8 == j && (8 * j + k) % 8 == k;
  }

  /** A segment repacks to itself exactly if its ids past the end are zero. */
  lemma SegmentRepacks(w: seq<Bits>, n: nat, j: nat)
    requires Wire128(w) && |w| == 5 + GroupSegments(n) && j < GroupSegments(n) && Ids16(Group(w, n))
    ensures PackGroup(Group(w, n), n)[j] == w[5 + j] <==> SegmentClean(w, n, j)
  {
    IdWidths(8);
    var u, ids := Unpack(IDS, w[5 + j]), Ids(Group(w, n), j);
    IdsFit(Group(w, n), j);
    Repacks(IDS, w[5 + j], ids);
    forall k | 0 <= k < 8
      ensures ids[k] == if k < n - 8 * j then u[k] else 0
    {
      if 8 * j + k < n {
        IdIsField(w, n, j, k);
      }
    }
    SameIds(ids, u, n - 8 * j);
  }

  lemma SameIds(ids: seq<nat>, u: seq<nat>, used: int)
    requires |ids| == |u| == 8 && forall k :: 0 <= k < 8 ==> ids[k] == if k < used then u[k] else 0
    ensures ids == u <==> TailZero(u, used)
  {
    if ids == u {
      forall k | 0 <= k < |u| && k >= used
        ensures u[k] == 0
      {
        assert ids[k] == 0;
      }
    }
  }

  lemma GroupRepacks(w: seq<Bits>, n: nat)
    requires Wire128(w) && |w| == 5 + GroupSegments(n) && Ids16(Group(w, n))
    ensures PackGroup(Group(w, n), n) == w[5..] <==> forall j :: 0 <= j < GroupSegments(n) ==> SegmentClean(w, n, j)
  {
    var packed := PackGroup(Group(w, n), n);
    forall j | 0 <= j < GroupSegments(n)
      ensures packed[j] == w[5..][j] <==> SegmentClean(w, n, j)
    {
      SegmentRepacks(w, n, j);
    }
    if packed != w[5..] {
      var j :| 0 <= j < GroupSegments(n) && packed[j] != w[5..][j];
      assert !SegmentClean(w, n, j);
    }
  }

  lemma IdsTyped(w: seq<Bits>, n: nat)
    requires Wire128(w) && |w| == 5 + GroupSegments(n)
    ensures Ids16(Group(w, n))
  {
    WordSizes();
    forall i | 0 <= i < n
      ensures 0 <= Group(w, n)[i] < U16
    {
      EncodeOfValue(w[5..][i / 8][i % 8 * 16..i % 8 * 16 + 16]);
    }
  }

  /** A layout repacks a segment to itself exactly if the fields put back are the ones read. */
  lemma Repacks(layout: seq<nat>, b: Bits, vs: seq<nat>)
    requires |b| == Width(layout) && Fits(layout, vs)
    ensures Pack(layout, vs) == b <==> vs == Unpack(layout, b)
  {
    PackUnpack(layout, b);
    UnpackPack(layout, vs);
  }

  /** An accepted wire's descriptor is well typed, and its fixed segments are re-encoded from the fields read. */
  lemma AcceptedTyped(w: seq<Bits>)
    requires Wire128(w) && Deserialized(w).Accepted?
    ensures Deserialized(w).d.Typed() && |Deserialized(w).d.group| <= 0xffff
              && |w| == 5 + GroupSegments(|Deserialized(w).d.group|)
    ensures Group(w, |Deserialized(w).d.group|) == Deserialized(w).d.group
  {
    LayoutWidths();
    WordSizes();
    var head := Unpack(HEAD, w[0]);
    PackUnpack(HEAD, w[0]);
    PackUnpack(KEYS, w[1]);
    PackUnpack(WORDS, w[2]);
    PackUnpack(WORDS, w[3]);
    PackUnpack(WORDS, w[4]);
    IdsTyped(w, head[8]);
    assert HEAD[6] == 16 && HEAD[7] == 16 && HEAD[8] == 16;
  }

  lemma HeadSame(f: seq<nat>, d: Descriptor)
    requires d.Typed() && |f| == 11 && f[0] == MAGIC && f[1] == 0 && f[2] <= 8 && f[3] <= 2 && f[4] <= 3 && f[5] <= 2
    requires d.op == OpOf(f[2]) && d.algorithm == AlgorithmOf(f[3]) && d.dtype == DTypeOf(f[4])
               && d.reduceOp == ReduceOf(f[5])
    requires d.rootRank == f[6] && d.selfRank == f[7] && |d.group| == f[8] && f[9] == 5 + GroupSegments(f[8])
    ensures HeadFields(d, f[9]) == f <==> f[10] == 0
  {
    var g := HeadFields(d, f[9]);
    assert g[0] == f[0] && g[1] == f[1] && g[2] == f[2] && g[3] == f[3] && g[4] == f[4] && g[5] == f[5];
    assert g[6] == f[6] && g[7] == f[7] && g[8] == f[8] && g[9] == f[9] && g[10] == 0;
  }

  lemma RepackHead(b: Bits, d: Descriptor)
    requires |b| == 128 && d.Typed() && |d.group| <= 0xffff
    ensures Width(HEAD) == 128
    ensures Fixed(d)[0] == b <==> HeadFields(d, 5 + GroupSegments(|d.group|)) == Unpack(HEAD, b)
  {
    var fields := HeadFields(d, 5 + GroupSegments(|d.group|));
    FixedHead(d);
    HeadWidth();
    HeadFits(d);
    Repacks(HEAD, b, fields);
  }

  lemma FixedHead(d: Descriptor)
    requires d.Typed()
    ensures Fixed(d)[0] == Pack(HEAD, HeadFields(d, 5 + GroupSegments(|d.group|)))
  {
  }

  lemma HeadRepacks(w: seq<Bits>)
    requires Wire128(w) && Deserialized(w).Accepted? && Deserialized(w).d.Typed() && |Deserialized(w).d.group| <= 0xffff
    ensures Width(HEAD) == 128
    ensures Fixed(Deserialized(w).d)[0] == w[0] <==> Unpack(HEAD, w[0])[10] == 0
  {
    LayoutWidths();
    var d := Deserialized(w).d;
    HeadFits(d);
    HeadSame(Unpack(HEAD, w[0]), d);
    RepackHead(w[0], d);
  }

  lemma WordsRepack(b: Bits, x: nat, y: nat)
    requires |b| == 128 && x < U64 && y < U64
    ensures Width(WORDS) == 128
    ensures Pack(WORDS, [x, y]) == b <==> Unpack(WORDS, b)[0] == x && Unpack(WORDS, b)[1] == y
  {
    LayoutWidths();
    WordsFit(x, y);
    Repacks(WORDS, b, [x, y]);
    PairEqual([x, y], Unpack(WORDS, b));
  }

  lemma PairEqual(a: seq<nat>, u: seq<nat>)
    requires |a| == |u| == 2
    ensures a == u <==> u[0] == a[0] && u[1] == a[1]
  {
  }

  lemma WordsFit(x: nat, y: nat)
    requires x < U64 && y < U64
    ensures Fits(WORDS, [x, y])
  {
    WordSizes();
  }

  lemma KeysRepack(b: Bits, d: Descriptor)
    requires |b| == 128 && d.Typed()
    ensures Width(KEYS) == 128
    ensures Unpack(KEYS, b) == KeyFields(d) ==> Pack(KEYS, KeyFields(d)) == b
  {
    LayoutWidths();
    WordSizes();
    Repacks(KEYS, b, KeyFields(d));
  }

  lemma FixedRepacks(w: seq<Bits>)
    requires Wire128(w) && Deserialized(w).Accepted? && Deserialized(w).d.Typed() && |Deserialized(w).d.group| <= 0xffff
    ensures Width(HEAD) == Width(WORDS) == 128
    ensures Fixed(Deserialized(w).d) == w[..5] <==> Unpack(HEAD, w[0])[10] == 0 && Unpack(WORDS, w[4])[1] == 0
  {
    LayoutWidths();
    var d := Deserialized(w).d;
    HeadRepacks(w);
    var keys := Unpack(KEYS, w[1]);
    assert keys == [keys[0], keys[1], keys[2], keys[3]];
    KeysRepack(w[1], d);
    WordsRepack(w[2], d.count, d.chunkBits);
    WordsRepack(w[3], d.srcAddr, d.dstAddr);
    WordsRepack(w[4], d.strideBits, 0);
    FiveEqual(Fixed(d), w);
  }

  lemma FiveEqual(a: seq<Bits>, w: seq<Bits>)
    requires |a| == 5 && |w| >= 5
    ensures a == w[..5] <==> a[0] == w[0] && a[1] == w[1] && a[2] == w[2] && a[3] == w[3] && a[4] == w[4]
  {
    if a == w[..5] {
      assert a[0] == w[..5][0] && a[1] == w[..5][1] && a[2] == w[..5][2] && a[3] == w[..5][3] && a[4] == w[..5][4];
    }
  }

  /**
   * The decoder does not look at the unused bits, so it accepts more than one wire for a descriptor: a wire
   * is the one the encoder writes exactly if those bits are zero.
   */
  lemma CanonicalIffClean(w: seq<Bits>)
    requires Wire128(w) && Deserialized(w).Accepted?
    ensures Deserialized(w).d.Typed() && |w| == 5 + GroupSegments(|Deserialized(w).d.group|)
    ensures Serialized(Deserialized(w).d) == Segments(w) <==> Clean(w, |Deserialized(w).d.group|)
  {
    AcceptedTyped(w);
    var d := Deserialized(w).d;
    FixedRepacks(w);
    GroupRepacks(w, |d.group|);
    assert w == w[..5] + w[5..];
    assert Fixed(d) + PackGroup(d.group, |d.group|) == w <==>
        Fixed(d) == w[..5] && PackGroup(d.group, |d.group|) == w[5..] by {
      var made := Fixed(d) + PackGroup(d.group, |d.group|);
      assert made[..5] == Fixed(d) && made[5..] == PackGroup(d.group, |d.group|);
    }
  }

  /** The head segment with its unused bits set to one. */
  function Smudged(d: Descriptor): (w: seq<Bits>)
    requires d.Typed()
    ensures |w| == 5
  {
    Fixed(d)[0 := Pack(HEAD, HeadFields(d, 5 + GroupSegments(|d.group|))[10 := 1])]
  }

  lemma SmudgedHead(d: Descriptor)
    requires d.Typed() && |d.group| <= 0xffff
    ensures Width(HEAD) == 128
    ensures Unpack(HEAD, Smudged(d)[0]) == HeadFields(d, 5 + GroupSegments(|d.group|))[10 := 1]
  {
    HeadWidth();
    HeadFits(d);
    assert Pow2(8) == 256 by { WordSizes(); }
    UnpackPack(HEAD, HeadFields(d, 5 + GroupSegments(|d.group|))[10 := 1]);
  }

  /** So canonicity does fail: every descriptor that can be sent is also read from a wire that is never written. */
  lemma UncleanAccepted(d: Descriptor) returns (w: seq<Bits>)
    requires d.Typed() && Serialized(d).Segments?
    ensures Wire128(w) && Deserialized(w) == Accepted(d) && Serialized(d) != Segments(w)
  {
    var n := |d.group|;
    w := Smudged(d) + PackGroup(d.group, n);
    SmudgedHead(d);
    FixedReadBack(d);
    WidthsAdd(Smudged(d), PackGroup(d.group, n));
    UncleanDecodes(d, w);
    assert w[0] == Smudged(d)[0] && Serialized(d).wire[0] == Fixed(d)[0];
  }

  lemma UncleanDecodes(d: Descriptor, w: seq<Bits>)
    requires d.Typed() && ValidateDescriptor(d) == Passed && |d.group| <= 0xffff
    requires Wire128(w) && w == Smudged(d) + PackGroup(d.group, |d.group|)
    ensures Deserialized(w) == Accepted(d)
  {
    var n := |d.group|;
    SmudgedHead(d);
    FixedReadBack(d);
    GroupOfPacked(d.group, w);
    AssembledBack(d, 5 + GroupSegments(n));
    assert w[1] == Fixed(d)[1] && w[2] == Fixed(d)[2] && w[3] == Fixed(d)[3] && w[4] == Fixed(d)[4];
  }

  lemma GroupOfPacked(group: seq<int>, w: seq<Bits>)
    requires Ids16(group) && Wire128(w) && |w| == 5 + GroupSegments(|group|) && w[5..] == PackGroup(group, |group|)
    ensures Group(w, |group|) == group
  {
    forall i | 0 <= i < |group|
      ensures Group(w, |group|)[i] == group[i]
    {
      IdReadBack(group, i);
    }
  }
}
