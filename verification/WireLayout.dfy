/** Where each field of each wire form lies, by its bits. */
module WireLayout {
  import opened CollTypes
  import opened Wire
  import F = FabricWire
  import D = DescriptorWire

  /** Where a layout's fields begin. */
  ghost predicate Begins(layout: seq<nat>, starts: seq<nat>) {
    && |starts| == |layout| + 1 && starts[0] == 0
    && forall i {:trigger layout[i]} :: 0 <= i < |layout| ==> starts[i + 1] == starts[i] + layout[i]
  }

  lemma {:induction false} BeginsAt(layout: seq<nat>, starts: seq<nat>, i: nat)
    requires Begins(layout, starts) && i <= |layout|
    ensures Width(layout[..i]) == starts[i]
  {
    if i > 0 {
      BeginsAt(layout, starts, i - 1);
      WidthNext(layout, i - 1);
    }
  }

  lemma BeginsWidth(layout: seq<nat>, starts: seq<nat>)
    requires Begins(layout, starts)
    ensures Width(layout) == starts[|layout|]
  {
    BeginsAt(layout, starts, |layout|);
    assert layout[..|layout|] == layout;
  }

  /** The field between two consecutive starts is that bit range. */
  lemma FieldAt(layout: seq<nat>, starts: seq<nat>, w: Bits, i: nat)
    requires Begins(layout, starts) && |w| == Width(layout) && i < |layout| && layout[i] > 0
    ensures starts[i + 1] <= |w|
    ensures Unpack(layout, w)[i] == Range(w, starts[i + 1] - 1, starts[i])
  {
    BeginsAt(layout, starts, i);
    FieldIsRange(layout, w, i, starts[i]);
  }

  /** Field `i` is the bits between its start and the next. */
  predicate FieldRead(starts: seq<nat>, w: Bits, f: seq<nat>, i: nat)
    requires i < |f| && |starts| == |f| + 1
  {
    starts[i] < starts[i + 1] <= |w| && f[i] == Range(w, starts[i + 1] - 1, starts[i])
  }

  ghost predicate ReadAt(starts: seq<nat>, w: Bits, f: seq<nat>) {
    |starts| == |f| + 1 && forall i :: 0 <= i < |f| ==> FieldRead(starts, w, f, i)
  }

  lemma FieldsAt(layout: seq<nat>, starts: seq<nat>, w: Bits)
    requires Begins(layout, starts) && |w| == starts[|layout|] && 0 !in layout
    ensures |w| == Width(layout) && ReadAt(starts, w, Unpack(layout, w))
  {
    BeginsWidth(layout, starts);
    forall i | 0 <= i < |layout|
      ensures FieldRead(starts, w, Unpack(layout, w), i)
    {
      assert layout[i] in layout;
      FieldAt(layout, starts, w, i);
    }
  }

  // ---- COLL_DATA ------------------------------------------------------------------------------

  const DATA_STARTS: seq<nat> := [0, 16, 24, 40, 72, 104, 136, 152, 184, 200, 216, 240, 248, 249, 256]

  /** A header's fields are these bits of its wire. */
  predicate DataAt(h: F.DataHeader, w: Bits)
    requires |w| == 256
  {
    && h.tree == Range(w, 39, 24)
    && h.packet.collective == CollectiveKey(Range(w, 71, 40), Range(w, 103, 72), Range(w, 135, 104))
    && h.packet.phase == Range(w, 151, 136) && h.packet.chunk == Range(w, 183, 152)
    && h.packet.src == Range(w, 199, 184) && h.packet.dst == Range(w, 215, 200)
    && h.seqId == Range(w, 239, 216) && h.lengthBits == Range(w, 247, 240) && (h.isEnd <==> Range(w, 248, 248) == 1)
  }

  lemma DataFieldsAt(w: Bits, f: seq<nat>)
    requires |w| == 256 && |f| == 14 && ReadAt(DATA_STARTS, w, f)
    ensures DataAt(F.HeaderOf(f), w)
    ensures f[0] == Range(w, 15, 0) && f[1] == Range(w, 23, 16) && f[13] == Range(w, 255, 249)
  {
    assert FieldRead(DATA_STARTS, w, f, 0);
    assert FieldRead(DATA_STARTS, w, f, 1);
    assert FieldRead(DATA_STARTS, w, f, 2);
    assert FieldRead(DATA_STARTS, w, f, 3);
    assert FieldRead(DATA_STARTS, w, f, 4);
    assert FieldRead(DATA_STARTS, w, f, 5);
    assert FieldRead(DATA_STARTS, w, f, 6);
    assert FieldRead(DATA_STARTS, w, f, 7);
    assert FieldRead(DATA_STARTS, w, f, 8);
    assert FieldRead(DATA_STARTS, w, f, 9);
    assert FieldRead(DATA_STARTS, w, f, 10);
    assert FieldRead(DATA_STARTS, w, f, 11);
    assert FieldRead(DATA_STARTS, w, f, 12);
    assert FieldRead(DATA_STARTS, w, f, 13);
  }

  /** What the decoder reads, and which wires it turns away as foreign. */
  lemma DataRead(w: Bits)
    requires |w| == 256
    ensures Width(F.DATA_LAYOUT) == 256
    ensures var r, tree, length := F.DeserializeData(w), Range(w, 39, 24), Range(w, 247, 240);
            var ours, known, clear := Range(w, 15, 0) == 0xc4d1, Range(w, 23, 16) == 0, Range(w, 255, 249) == 0;
            && (r == F.BadMagic <==> !ours)
            && (r == F.BadVersion <==> ours && !known)
            && (r == F.ReservedBitsSet <==> ours && known && !clear)
            && (r == F.FieldRange <==> ours && known && clear && (tree == 0 || length == 0 || length > 128))
            && (r.Header? ==> DataAt(r.h, w))
  {
    FieldsAt(F.DATA_LAYOUT, DATA_STARTS, w);
    DataFieldsAt(w, Unpack(F.DATA_LAYOUT, w));
  }

  /** The encoder writes the fields where the decoder reads them. */
  lemma DataWritten(h: F.DataHeader)
    requires h.Typed() && F.SerializeData(h).DataWire?
    ensures |F.SerializeData(h).w| == 256 && DataAt(h, F.SerializeData(h).w)
    ensures var w := F.SerializeData(h).w; Range(w, 15, 0) == 0xc4d1 && Range(w, 23, 16) == 0 && Range(w, 255, 249) == 0
  {
    BeginsWidth(F.DATA_LAYOUT, DATA_STARTS);
    F.DataRoundTrip(h);
    DataRead(F.SerializeData(h).w);
  }

  // ---- Reduction operands ---------------------------------------------------------------------

  const OPERAND_STARTS: seq<nat> := [0, 16, 24, 40, 72, 104, 136, 152, 184, 200, 208, 216, 232, 240, 256]
  const PAYLOAD_STARTS: seq<nat> := [0, 128, 144, 152, 160, 256]

  predicate TypeAt(t: DType, c: nat) {
    match t
    case UINT8 => c == 0
    case INT32 => c == 1
    case INT64 => c == 2
    case FP32 => c == 3
  }

  predicate ReduceOpAt(op: ReduceOp, c: nat) {
    match op
    case NONE => c == 0
    case SUM => c == 1
    case MAX => c == 2
  }

  predicate OperandAt(o: F.Operand, header: Bits, payload: Bits)
    requires |header| == |payload| == 256
  {
    && o.tree == Range(header, 39, 24)
    && o.collective == CollectiveKey(Range(header, 71, 40), Range(header, 103, 72), Range(header, 135, 104))
    && o.phase == Range(header, 151, 136) && o.chunk == Range(header, 183, 152) && o.child == Range(header, 199, 184)
    && TypeAt(o.dtype, Range(header, 207, 200)) && ReduceOpAt(o.op, Range(header, 215, 208))
    && o.valid == Range(header, 231, 216) && o.payload == Range(payload, 127, 0)
  }

  lemma OperandFieldsAt(header: Bits, payload: Bits, f: seq<nat>, g: seq<nat>)
    requires |header| == |payload| == 256 && |f| == 14 && |g| == 5 && f[9] <= 3 && f[10] <= 2
    requires ReadAt(OPERAND_STARTS, header, f) && ReadAt(PAYLOAD_STARTS, payload, g)
    ensures OperandAt(F.OperandOf(f, g[0]), header, payload)
  {
    assert FieldRead(OPERAND_STARTS, header, f, 2);
    assert FieldRead(OPERAND_STARTS, header, f, 3);
    assert FieldRead(OPERAND_STARTS, header, f, 4);
    assert FieldRead(OPERAND_STARTS, header, f, 5);
    assert FieldRead(OPERAND_STARTS, header, f, 6);
    assert FieldRead(OPERAND_STARTS, header, f, 7);
    assert FieldRead(OPERAND_STARTS, header, f, 8);
    assert FieldRead(OPERAND_STARTS, header, f, 9);
    assert FieldRead(OPERAND_STARTS, header, f, 10);
    assert FieldRead(OPERAND_STARTS, header, f, 11);
    assert FieldRead(PAYLOAD_STARTS, payload, g, 0);
  }

  /** The marks both operand flits must carry. */
  predicate Framed(header: Bits, payload: Bits)
    requires |header| == |payload| == 256
  {
    && Range(header, 15, 0) == 0xc5d2 && Range(header, 23, 16) == 0 && Range(header, 239, 232) == 2
    && Range(header, 255, 240) == 0
    && Range(payload, 143, 128) == 0xc5d2 && Range(payload, 151, 144) == 0 && Range(payload, 159, 152) == 1
    && Range(payload, 255, 160) == 0
  }

  lemma OperandFramedAt(header: Bits, payload: Bits, f: seq<nat>, g: seq<nat>)
    requires |header| == |payload| == 256 && |f| == 14 && |g| == 5
    requires ReadAt(OPERAND_STARTS, header, f) && ReadAt(PAYLOAD_STARTS, payload, g)
    ensures F.FramingOk(f, g) <==> Framed(header, payload)
    ensures f[9] == Range(header, 207, 200) && f[10] == Range(header, 215, 208)
  {
    assert FieldRead(OPERAND_STARTS, header, f, 0);
    assert FieldRead(OPERAND_STARTS, header, f, 1);
    assert FieldRead(OPERAND_STARTS, header, f, 9);
    assert FieldRead(OPERAND_STARTS, header, f, 10);
    assert FieldRead(OPERAND_STARTS, header, f, 12);
    assert FieldRead(OPERAND_STARTS, header, f, 13);
    assert FieldRead(PAYLOAD_STARTS, payload, g, 1);
    assert FieldRead(PAYLOAD_STARTS, payload, g, 2);
    assert FieldRead(PAYLOAD_STARTS, payload, g, 3);
    assert FieldRead(PAYLOAD_STARTS, payload, g, 4);
  }

  /** What the operand decoder reads. */
  lemma OperandRead(header: Bits, payload: Bits)
    requires |header| == |payload| == 256
    ensures Width(F.OPERAND_LAYOUT) == Width(F.PAYLOAD_LAYOUT) == 256
    ensures var r := F.DeserializeOperand(header, payload);
            var known := Range(header, 207, 200) <= 3 && Range(header, 215, 208) <= 2;
            && (r == F.BadFraming <==> !Framed(header, payload))
            && (r == F.EnumRange <==> Framed(header, payload) && !known)
            && (r.Decoded? ==> OperandAt(r.o, header, payload))
  {
    FieldsAt(F.OPERAND_LAYOUT, OPERAND_STARTS, header);
    FieldsAt(F.PAYLOAD_LAYOUT, PAYLOAD_STARTS, payload);
    OperandFramedAt(header, payload, Unpack(F.OPERAND_LAYOUT, header), Unpack(F.PAYLOAD_LAYOUT, payload));
    if F.DeserializeOperand(header, payload).Decoded? {
      OperandFieldsAt(header, payload, Unpack(F.OPERAND_LAYOUT, header), Unpack(F.PAYLOAD_LAYOUT, payload));
    }
  }

  /** And what the encoder writes. */
  lemma OperandWritten(o: F.Operand)
    requires o.Typed() && F.SerializeOperand(o).OperandWires?
    ensures var w := F.SerializeOperand(o);
            && |w.header| == |w.payload| == 256 && OperandAt(o, w.header, w.payload)
            && F.IsReduceHeaderWire(w.header) && F.IsReducePayloadWire(w.payload)
  {
    BeginsWidth(F.OPERAND_LAYOUT, OPERAND_STARTS);
    BeginsWidth(F.PAYLOAD_LAYOUT, PAYLOAD_STARTS);
    F.OperandRoundTrip(o);
    var w := F.SerializeOperand(o);
    OperandRead(w.header, w.payload);
    F.OperandIsRecognised(w.header, w.payload);
  }

  // ---- Descriptors ----------------------------------------------------------------------------

  const HEAD_STARTS: seq<nat> := [0, 16, 24, 32, 40, 48, 56, 72, 88, 104, 120, 128]
  const KEY_STARTS: seq<nat> := [0, 32, 64, 96, 128]
  const WORD_STARTS: seq<nat> := [0, 64, 128]

  predicate OpAt(op: CollOp, c: nat) {
    match op
    case P2P => c == 0
    case SCATTER => c == 1
    case GATHER => c == 2
    case BROADCAST => c == 3
    case ALLTOALL => c == 4
    case ALLGATHER => c == 5
    case REDUCE => c == 6
    case REDUCESCATTER => c == 7
    case ALLREDUCE => c == 8
  }

  predicate AlgorithmAt(a: Algorithm, c: nat) {
    match a
    case DIRECT => c == 0
    case ROOT_SCATTER => c == 1
    case ROOT_BROADCAST => c == 2
  }

  predicate HeadAt(d: Descriptor, w: Bits)
    requires |w| == 128
  {
    && OpAt(d.op, Range(w, 31, 24)) && AlgorithmAt(d.algorithm, Range(w, 39, 32))
    && TypeAt(d.dtype, Range(w, 47, 40)) && ReduceOpAt(d.reduceOp, Range(w, 55, 48))
    && d.rootRank == Range(w, 71, 56) && d.selfRank == Range(w, 87, 72) && |d.group| == Range(w, 103, 88)
  }

  /** The id of rank `i`: sixteen bits of segment `5 + i / 8`. */
  predicate IdAt(d: Descriptor, w: seq<Bits>, i: nat)
    requires i < |d.group| && |w| > 5 + i / 8 && D.Wire128(w)
  {
    d.group[i] == Range(w[5 + i / 8], i % 8 * 16 + 15, i % 8 * 16)
  }

  ghost predicate DescriptorAt(d: Descriptor, w: seq<Bits>) {
    && |w| == 5 + (|d.group| + 7) / 8 && D.Wire128(w)
    && HeadAt(d, w[0])
    && d.key == CollectiveKey(Range(w[1], 31, 0), Range(w[1], 63, 32), Range(w[1], 95, 64))
    && d.reorderDepth == Range(w[1], 127, 96)
    && d.count == Range(w[2], 63, 0) && d.chunkBits == Range(w[2], 127, 64)
    && d.srcAddr == Range(w[3], 63, 0) && d.dstAddr == Range(w[3], 127, 64) && d.strideBits == Range(w[4], 63, 0)
    && forall i :: 0 <= i < |d.group| ==> IdAt(d, w, i)
  }

  lemma HeadFieldsAt(w: Bits, f: seq<nat>, d: Descriptor)
    requires |w| == 128 && |f| == 11 && ReadAt(HEAD_STARTS, w, f)
    requires f[2] <= 8 && f[3] <= 2 && f[4] <= 3 && f[5] <= 2 && |d.group| == f[8]
    requires d.op == D.OpOf(f[2]) && d.algorithm == D.AlgorithmOf(f[3])
    requires d.dtype == DTypeOf(f[4]) && d.reduceOp == ReduceOf(f[5]) && d.rootRank == f[6] && d.selfRank == f[7]
    ensures HeadAt(d, w)
  {
    assert FieldRead(HEAD_STARTS, w, f, 2);
    assert FieldRead(HEAD_STARTS, w, f, 3);
    assert FieldRead(HEAD_STARTS, w, f, 4);
    assert FieldRead(HEAD_STARTS, w, f, 5);
    assert FieldRead(HEAD_STARTS, w, f, 6);
    assert FieldRead(HEAD_STARTS, w, f, 7);
    assert FieldRead(HEAD_STARTS, w, f, 8);
  }

  lemma RestFieldsAt(w: seq<Bits>, keys: seq<nat>, sizes: seq<nat>, addrs: seq<nat>, stride: seq<nat>)
    requires |w| >= 5 && D.Wire128(w) && |keys| == 4 && |sizes| == |addrs| == |stride| == 2
    requires ReadAt(KEY_STARTS, w[1], keys) && ReadAt(WORD_STARTS, w[2], sizes)
    requires ReadAt(WORD_STARTS, w[3], addrs) && ReadAt(WORD_STARTS, w[4], stride)
    ensures keys[0] == Range(w[1], 31, 0) && keys[1] == Range(w[1], 63, 32) && keys[2] == Range(w[1], 95, 64)
    ensures keys[3] == Range(w[1], 127, 96) && sizes[0] == Range(w[2], 63, 0) && sizes[1] == Range(w[2], 127, 64)
    ensures addrs[0] == Range(w[3], 63, 0) && addrs[1] == Range(w[3], 127, 64) && stride[0] == Range(w[4], 63, 0)
  {
    assert FieldRead(KEY_STARTS, w[1], keys, 0);
    assert FieldRead(KEY_STARTS, w[1], keys, 1);
    assert FieldRead(KEY_STARTS, w[1], keys, 2);
    assert FieldRead(KEY_STARTS, w[1], keys, 3);
    assert FieldRead(WORD_STARTS, w[2], sizes, 0);
    assert FieldRead(WORD_STARTS, w[2], sizes, 1);
    assert FieldRead(WORD_STARTS, w[3], addrs, 0);
    assert FieldRead(WORD_STARTS, w[3], addrs, 1);
    assert FieldRead(WORD_STARTS, w[4], stride, 0);
  }

  /** What the descriptor decoder reads. */
  lemma DescriptorRead(w: seq<Bits>)
    requires D.Wire128(w) && D.Deserialized(w).Accepted?
    ensures DescriptorAt(D.Deserialized(w).d, w)
  {
    FieldsAt(D.HEAD, HEAD_STARTS, w[0]);
    FieldsAt(D.KEYS, KEY_STARTS, w[1]);
    FieldsAt(D.WORDS, WORD_STARTS, w[2]);
    FieldsAt(D.WORDS, WORD_STARTS, w[3]);
    FieldsAt(D.WORDS, WORD_STARTS, w[4]);
    var d := D.Deserialized(w).d;
    HeadFieldsAt(w[0], Unpack(D.HEAD, w[0]), d);
    RestFieldsAt(w, Unpack(D.KEYS, w[1]), Unpack(D.WORDS, w[2]), Unpack(D.WORDS, w[3]), Unpack(D.WORDS, w[4]));
    IdsRead(d, w);
  }

  lemma IdsRead(d: Descriptor, w: seq<Bits>)
    requires D.Wire128(w) && |w| == 5 + D.GroupSegments(|d.group|) && d.group == D.Group(w, |d.group|)
    ensures forall i :: 0 <= i < |d.group| ==> IdAt(d, w, i)
  {
    forall i | 0 <= i < |d.group|
      ensures IdAt(d, w, i)
    {
      assert D.Group(w, |d.group|)[i] == D.IdAt(w[5..], i);
      assert w[5..][i / 8] == w[5 + i / 8];
    }
  }

  /** Which wires the descriptor decoder turns away before it looks at the descriptor itself. */
  lemma DescriptorErrors(w: seq<Bits>)
    requires D.Wire128(w)
    ensures D.Deserialized(w) == D.Truncated <==> |w| < 5
    ensures |w| >= 5 ==>
              var r, segments := D.Deserialized(w), 5 + (Range(w[0], 103, 88) + 7) / 8;
              var ours, known := Range(w[0], 15, 0) == 0xC011, Range(w[0], 23, 16) == 0;
              var counted := Range(w[0], 119, 104) == segments == |w|;
              var named := Range(w[0], 31, 24) <= 8 && Range(w[0], 39, 32) <= 2 && Range(w[0], 47, 40) <= 3
                           && Range(w[0], 55, 48) <= 2;
              && (r == D.BadMagic <==> !ours)
              && (r == D.BadVersion <==> ours && !known)
              && (r == D.CountMismatch <==> ours && known && !counted)
              && (r == D.EnumRange <==> ours && known && counted && !named)
  {
    if |w| >= 5 {
      FieldsAt(D.HEAD, HEAD_STARTS, w[0]);
      HeadRead(w[0], Unpack(D.HEAD, w[0]));
    }
  }

  lemma HeadRead(w: Bits, f: seq<nat>)
    requires |w| == 128 && |f| == 11 && ReadAt(HEAD_STARTS, w, f)
    ensures f[0] == Range(w, 15, 0) && f[1] == Range(w, 23, 16) && f[2] == Range(w, 31, 24)
    ensures f[3] == Range(w, 39, 32) && f[4] == Range(w, 47, 40) && f[5] == Range(w, 55, 48)
    ensures f[8] == Range(w, 103, 88) && f[9] == Range(w, 119, 104)
  {
    assert FieldRead(HEAD_STARTS, w, f, 0);
    assert FieldRead(HEAD_STARTS, w, f, 1);
    assert FieldRead(HEAD_STARTS, w, f, 2);
    assert FieldRead(HEAD_STARTS, w, f, 3);
    assert FieldRead(HEAD_STARTS, w, f, 4);
    assert FieldRead(HEAD_STARTS, w, f, 5);
    assert FieldRead(HEAD_STARTS, w, f, 8);
    assert FieldRead(HEAD_STARTS, w, f, 9);
  }

  /** And what the encoder writes. */
  lemma DescriptorWritten(d: Descriptor)
    requires d.Typed() && D.Serialized(d).Segments?
    ensures DescriptorAt(d, D.Serialized(d).wire)
  {
    D.DescriptorRoundTrip(d);
    DescriptorRead(D.Serialized(d).wire);
  }
}
