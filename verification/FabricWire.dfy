/** Wire forms of multicast data headers and in-network reduction operands, and how a router tells them apart. */
module FabricWire {
  import opened Wire
  import opened CollTypes
  import opened ReorderBuffer

  // ---- Multicast data -------------------------------------------------------------------------

  datatype DataHeader = DataHeader(tree: int, packet: PacketKey, seqId: int, lengthBits: int, isEnd: bool) {
    /** Every field lies in the range of its unsigned type. */
    predicate Typed() {
      && 0 <= tree < Pow2(16) && KeyTyped(packet.collective)
      && 0 <= packet.phase < Pow2(16) && 0 <= packet.chunk < Pow2(32) && 0 <= packet.src < Pow2(16)
          && 0 <= packet.dst < Pow2(16)
      && 0 <= seqId < Pow2(32) && 0 <= lengthBits < Pow2(8)
    }
  }

  predicate KeyTyped(k: CollectiveKey) {
    0 <= k.groupId < Pow2(32) && 0 <= k.collectiveId < Pow2(32) && 0 <= k.epoch < Pow2(32)
  }

  const DATA_MAGIC := 0xc4d1

  /**
   * Magic, version, tree, group, collective, epoch, phase, chunk, source, destination, sequence, length, end,
   * reserved.
   */
  const DATA_LAYOUT: seq<nat> := [16, 8, 16, 32, 32, 32, 16, 32, 16, 16, 24, 8, 1, 7]

  datatype DataEncoded = DataWire(w: Bits) | ReservedTree | BadLength | SequenceOverflow

  datatype DataDecoded = Header(h: DataHeader) | BadMagic | BadVersion | ReservedBitsSet | FieldRange

  function DataFields(h: DataHeader): seq<nat>
    requires h.Typed()
  {
    [DATA_MAGIC, 0, h.tree, h.packet.collective.groupId, h.packet.collective.collectiveId, h.packet.collective.epoch,
     h.packet.phase, h.packet.chunk, h.packet.src, h.packet.dst, h.seqId, h.lengthBits, if h.isEnd then 1 else 0, 0]
  }

  function SerializeData(h: DataHeader): DataEncoded
    requires h.Typed()
  {
    if h.tree == 0 then ReservedTree
    else if h.lengthBits == 0 || h.lengthBits > 128 then BadLength
    else if h.seqId > 0xffffff then SequenceOverflow
    else DataWire(Pack(DATA_LAYOUT, DataFields(h)))
  }

  function HeaderOf(f: seq<nat>): DataHeader
    requires |f| == |DATA_LAYOUT|
  {
    DataHeader(f[2], PacketKey(CollectiveKey(f[3], f[4], f[5]), f[6], f[7], f[8], f[9]), f[10], f[11], f[12] == 1)
  }

  function DeserializeData(w: Bits): DataDecoded
    requires |w| == Width(DATA_LAYOUT)
  {
    var f := Unpack(DATA_LAYOUT, w);
    if f[0] != DATA_MAGIC then BadMagic
    else if f[1] != 0 then BadVersion
    else if f[13] != 0 then ReservedBitsSet
    else if f[2] == 0 || f[11] == 0 || f[11] > 128 then FieldRange
    else Header(HeaderOf(f))
  }

  lemma DataFieldsFit(h: DataHeader)
    requires h.Typed() && h.seqId <= 0xffffff
    ensures Fits(DATA_LAYOUT, DataFields(h))
  {
    WordSizes();
    assert Pow2(1) == 2 && Pow2(7) > 0;
  }

  /** Decoding what was encoded gives the header back. */
  lemma DataRoundTrip(h: DataHeader)
    requires h.Typed() && SerializeData(h).DataWire?
    ensures |SerializeData(h).w| == Width(DATA_LAYOUT)
    ensures DeserializeData(SerializeData(h).w) == Header(h)
  {
    DataFieldsFit(h);
    UnpackPack(DATA_LAYOUT, DataFields(h));
  }

  /** Every accepted wire is the encoding of its header: no two wires mean the same. */
  lemma DataCanonical(w: Bits)
    requires |w| == Width(DATA_LAYOUT) && DeserializeData(w).Header?
    ensures DeserializeData(w).h.Typed() && SerializeData(DeserializeData(w).h) == DataWire(w)
  {
    var f := Unpack(DATA_LAYOUT, w);
    PackUnpack(DATA_LAYOUT, w);
    HeaderFields(f);
  }

  /** Accepted field values are those of a header that encodes without error, and are exactly its fields. */
  lemma HeaderFields(f: seq<nat>)
    requires Fits(DATA_LAYOUT, f) && f[0] == DATA_MAGIC && f[1] == 0 && f[13] == 0
    ensures HeaderOf(f).Typed() && HeaderOf(f).seqId <= 0xffffff && DataFields(HeaderOf(f)) == f
  {
    WordSizes();
    DataBounds(f);
    var g := DataFields(HeaderOf(f));
    assert |g| == |f| == 14;
    assert g[0] == f[0] && g[1] == f[1] && g[2] == f[2] && g[3] == f[3] && g[4] == f[4] && g[5] == f[5] && g[6] == f[6];
    assert g[7] == f[7] && g[8] == f[8] && g[9] == f[9] && g[10] == f[10] && g[11] == f[11] && g[12] == f[12]
        && g[13] == f[13];
  }

  lemma DataBounds(f: seq<nat>)
    requires Fits(DATA_LAYOUT, f)
    ensures |f| == 14 && f[2] < Pow2(16) && f[3] < Pow2(32) && f[4] < Pow2(32) && f[5] < Pow2(32)
    ensures f[6] < Pow2(16) && f[7] < Pow2(32) && f[8] < Pow2(16) && f[9] < Pow2(16)
    ensures f[10] < Pow2(24) && f[11] < Pow2(8) && f[12] < 2
  {
    assert Pow2(1) == 2;
    assert DATA_LAYOUT[2] == 16 && DATA_LAYOUT[10] == 24 && DATA_LAYOUT[12] == 1;
  }

  // ---- Reduction operands ---------------------------------------------------------------------

  datatype Operand = Operand(tree: int, collective: CollectiveKey, phase: int, chunk: int, child: int,
                             dtype: DType, op: ReduceOp, valid: int, payload: int) {
    predicate Typed() {
      && 0 <= tree < Pow2(16) && KeyTyped(collective) && 0 <= phase < Pow2(16) && 0 <= chunk < Pow2(32)
      && 0 <= child < Pow2(16) && 0 <= valid < Pow2(16) && 0 <= payload < Pow2(128)
    }
  }

  const REDUCE_MAGIC := 0xc5d2
  const PAYLOAD_SEGMENT := 1

  /**
   * Magic, version, tree, group, collective, epoch, phase, chunk, child, type, operation, elements, segments,
   * reserved.
   */
  const OPERAND_LAYOUT: seq<nat> := [16, 8, 16, 32, 32, 32, 16, 32, 16, 8, 8, 16, 8, 16]

  /** Payload, magic, version, segment number, reserved. */
  const PAYLOAD_LAYOUT: seq<nat> := [128, 16, 8, 8, 96]

  datatype OperandEncoded = OperandWires(header: Bits, payload: Bits) | InvalidMode | TooManyElements

  datatype OperandDecoded = Decoded(o: Operand) | BadFraming | EnumRange | Refused(why: OperandEncoded)

  function OperandFields(o: Operand): seq<nat>
    requires o.Typed()
  {
    [REDUCE_MAGIC, 0, o.tree, o.collective.groupId, o.collective.collectiveId, o.collective.epoch,
     o.phase, o.chunk, o.child, DTypeCode(o.dtype), ReduceCode(o.op), o.valid, 2, 0]
  }

  function PayloadFields(o: Operand): seq<nat>
    requires o.Typed()
  {
    [o.payload, REDUCE_MAGIC, 0, PAYLOAD_SEGMENT, 0]
  }

  function SerializeOperand(o: Operand): OperandEncoded
    requires o.Typed()
  {
    if o.tree == 0 || o.op == NONE || o.dtype == FP32 then InvalidMode
    else if o.valid == 0 || o.valid * DTypeBits(o.dtype) > 128 then TooManyElements
    else OperandWires(Pack(OPERAND_LAYOUT, OperandFields(o)), Pack(PAYLOAD_LAYOUT, PayloadFields(o)))
  }

  function OperandOf(f: seq<nat>, payload: nat): Operand
    requires |f| == |OPERAND_LAYOUT|
  {
    Operand(f[2], CollectiveKey(f[3], f[4], f[5]), f[6], f[7], f[8], DTypeOf(f[9]), ReduceOf(f[10]), f[11], payload)
  }

  predicate FramingOk(f: seq<nat>, g: seq<nat>)
    requires |f| == |OPERAND_LAYOUT| && |g| == |PAYLOAD_LAYOUT|
  {
    && f[0] == REDUCE_MAGIC && f[1] == 0 && f[12] == 2 && f[13] == 0
    && g[1] == REDUCE_MAGIC && g[2] == 0 && g[3] == PAYLOAD_SEGMENT && g[4] == 0
  }

  /** The last check re-encodes the operand and passes on its complaint. */
  function DeserializeOperand(header: Bits, payload: Bits): OperandDecoded
    requires |header| == Width(OPERAND_LAYOUT) && |payload| == Width(PAYLOAD_LAYOUT)
  {
    var f, g := Unpack(OPERAND_LAYOUT, header), Unpack(PAYLOAD_LAYOUT, payload);
    if !FramingOk(f, g) then BadFraming
    else if f[9] > 3 || f[10] > 2 then EnumRange
    else
      PackUnpack(OPERAND_LAYOUT, header);
      PackUnpack(PAYLOAD_LAYOUT, payload);
      OperandTyped(f, g[0]);
      var o := OperandOf(f, g[0]);
      if SerializeOperand(o).OperandWires? then Decoded(o) else Refused(SerializeOperand(o))
  }

  lemma OperandTyped(f: seq<nat>, payload: nat)
    requires Fits(OPERAND_LAYOUT, f) && payload < Pow2(128)
    ensures OperandOf(f, payload).Typed()
  {
    assert OPERAND_LAYOUT[2] == 16 && OPERAND_LAYOUT[6] == 16 && OPERAND_LAYOUT[7] == 32 && OPERAND_LAYOUT[8] == 16;
    assert OPERAND_LAYOUT[3] == 32 && OPERAND_LAYOUT[4] == 32 && OPERAND_LAYOUT[5] == 32 && OPERAND_LAYOUT[11] == 16;
  }

  lemma OperandFieldsFit(o: Operand)
    requires o.Typed()
    ensures Fits(OPERAND_LAYOUT, OperandFields(o)) && Fits(PAYLOAD_LAYOUT, PayloadFields(o))
  {
    WordSizes();
    assert Pow2(96) > 0 by { Pow2Positive(96); }
  }

  lemma {:induction false} Pow2Positive(n: nat)
    ensures Pow2(n) > 0
  {
    if n > 0 {
      Pow2Positive(n - 1);
    }
  }

  lemma OperandRoundTrip(o: Operand)
    requires o.Typed() && SerializeOperand(o).OperandWires?
    ensures var w := SerializeOperand(o);
            && |w.header| == Width(OPERAND_LAYOUT) && |w.payload| == Width(PAYLOAD_LAYOUT)
            && DeserializeOperand(w.header, w.payload) == Decoded(o)
  {
    OperandFieldsFit(o);
    UnpackPack(OPERAND_LAYOUT, OperandFields(o));
    UnpackPack(PAYLOAD_LAYOUT, PayloadFields(o));
    assert OperandOf(OperandFields(o), o.payload) == o;
  }

  /** Every accepted pair of wires is the encoding of its operand. */
  lemma OperandCanonical(header: Bits, payload: Bits)
    requires |header| == Width(OPERAND_LAYOUT) && |payload| == Width(PAYLOAD_LAYOUT)
    requires DeserializeOperand(header, payload).Decoded?
    ensures DeserializeOperand(header, payload).o.Typed()
    ensures SerializeOperand(DeserializeOperand(header, payload).o) == OperandWires(header, payload)
  {
    var f, g := Unpack(OPERAND_LAYOUT, header), Unpack(PAYLOAD_LAYOUT, payload);
    PackUnpack(OPERAND_LAYOUT, header);
    PackUnpack(PAYLOAD_LAYOUT, payload);
    OperandTyped(f, g[0]);
    OperandFieldsBack(f, g);
  }

  lemma OperandFieldsBack(f: seq<nat>, g: seq<nat>)
    requires |f| == |OPERAND_LAYOUT| && |g| == |PAYLOAD_LAYOUT| && FramingOk(f, g) && f[9] <= 3 && f[10] <= 2
    requires OperandOf(f, g[0]).Typed()
    ensures OperandFields(OperandOf(f, g[0])) == f && PayloadFields(OperandOf(f, g[0])) == g
  {
    var a, b := OperandFields(OperandOf(f, g[0])), PayloadFields(OperandOf(f, g[0]));
    assert a[0] == f[0] && a[1] == f[1] && a[2] == f[2] && a[3] == f[3] && a[4] == f[4] && a[5] == f[5] && a[6] == f[6];
    assert a[7] == f[7] && a[8] == f[8] && a[9] == f[9] && a[10] == f[10] && a[11] == f[11] && a[12] == f[12]
        && a[13] == f[13];
    assert b[0] == g[0] && b[1] == g[1] && b[2] == g[2] && b[3] == g[3] && b[4] == g[4];
  }

  // ---- Recognition ----------------------------------------------------------------------------

  predicate IsDataWire(w: Bits)
    requires |w| == 256
  {
    && Range(w, 15, 0) == DATA_MAGIC && Range(w, 23, 16) == 0 && Range(w, 39, 24) != 0
    && Range(w, 247, 240) != 0 && Range(w, 255, 249) == 0
  }

  predicate IsReduceHeaderWire(w: Bits)
    requires |w| == 256
  {
    && Range(w, 15, 0) == REDUCE_MAGIC && Range(w, 23, 16) == 0 && Range(w, 39, 24) != 0
    && Range(w, 239, 232) == 2 && Range(w, 255, 240) == 0
  }

  predicate IsReducePayloadWire(w: Bits)
    requires |w| == 256
  {
    && Range(w, 143, 128) == REDUCE_MAGIC && Range(w, 151, 144) == 0 && Range(w, 159, 152) == PAYLOAD_SEGMENT
    && Range(w, 255, 160) == 0
  }

  lemma ZeroInside(w: Bits, hi: nat, lo: nat, h: nat, l: nat)
    requires lo <= l <= h <= hi < |w| && Range(w, hi, lo) == 0
    ensures Range(w, h, l) == 0
  {
    ZeroValue(w[lo..hi + 1]);
    ZeroValue(w[l..h + 1]);
    var inner, outer := w[l..h + 1], w[lo..hi + 1];
    forall i | 0 <= i < |inner|
      ensures !inner[i]
    {
      assert inner[i] == outer[i + (l - lo)];
    }
  }

  /** A router never takes one kind of flit for another, whatever its 256 bits are. */
  lemma KindsDisjoint(w: Bits)
    requires |w| == 256
    ensures !(IsDataWire(w) && IsReduceHeaderWire(w))
    ensures !(IsDataWire(w) && IsReducePayloadWire(w))
    ensures !(IsReduceHeaderWire(w) && IsReducePayloadWire(w))
  {
    if IsReducePayloadWire(w) {
      ZeroInside(w, 255, 160, 247, 240);
      ZeroInside(w, 255, 160, 239, 232);
    }
  }

  lemma DataOffsets()
    ensures Width(DATA_LAYOUT) == 256
    ensures Width(DATA_LAYOUT[..1]) == 16 && Width(DATA_LAYOUT[..2]) == 24 && Width(DATA_LAYOUT[..11]) == 240
    ensures Width(DATA_LAYOUT[..13]) == 249
  {
    WidthNext(DATA_LAYOUT, 0);
    WidthNext(DATA_LAYOUT, 1);
    WidthNext(DATA_LAYOUT, 2);
    WidthNext(DATA_LAYOUT, 3);
    WidthNext(DATA_LAYOUT, 4);
    WidthNext(DATA_LAYOUT, 5);
    WidthNext(DATA_LAYOUT, 6);
    WidthNext(DATA_LAYOUT, 7);
    WidthNext(DATA_LAYOUT, 8);
    WidthNext(DATA_LAYOUT, 9);
    WidthNext(DATA_LAYOUT, 10);
    WidthNext(DATA_LAYOUT, 11);
    WidthNext(DATA_LAYOUT, 12);
    WidthNext(DATA_LAYOUT, 13);
    assert DATA_LAYOUT[..14] == DATA_LAYOUT;
  }

  /** The codec's fields are the recogniser's bit ranges, so what decodes is recognised. */
  lemma DecodedIsRecognised(w: Bits)
    requires |w| == 256
    ensures Width(DATA_LAYOUT) == 256
    ensures DeserializeData(w).Header? ==> IsDataWire(w)
    ensures IsDataWire(w) && Range(w, 247, 240) <= 128 ==> DeserializeData(w).Header?
  {
    DataOffsets();
    assert DATA_LAYOUT[..0] == [];
    FieldIsRange(DATA_LAYOUT, w, 0, 0);
    FieldIsRange(DATA_LAYOUT, w, 1, 16);
    FieldIsRange(DATA_LAYOUT, w, 2, 24);
    FieldIsRange(DATA_LAYOUT, w, 11, 240);
    FieldIsRange(DATA_LAYOUT, w, 13, 249);
  }

  lemma OperandOffsets()
    ensures Width(OPERAND_LAYOUT) == 256
    ensures Width(OPERAND_LAYOUT[..1]) == 16 && Width(OPERAND_LAYOUT[..2]) == 24
    ensures Width(OPERAND_LAYOUT[..12]) == 232 && Width(OPERAND_LAYOUT[..13]) == 240
  {
    WidthNext(OPERAND_LAYOUT, 0);
    WidthNext(OPERAND_LAYOUT, 1);
    WidthNext(OPERAND_LAYOUT, 2);
    WidthNext(OPERAND_LAYOUT, 3);
    WidthNext(OPERAND_LAYOUT, 4);
    WidthNext(OPERAND_LAYOUT, 5);
    WidthNext(OPERAND_LAYOUT, 6);
    WidthNext(OPERAND_LAYOUT, 7);
    WidthNext(OPERAND_LAYOUT, 8);
    WidthNext(OPERAND_LAYOUT, 9);
    WidthNext(OPERAND_LAYOUT, 10);
    WidthNext(OPERAND_LAYOUT, 11);
    WidthNext(OPERAND_LAYOUT, 12);
    WidthNext(OPERAND_LAYOUT, 13);
    assert OPERAND_LAYOUT[..14] == OPERAND_LAYOUT;
  }

  lemma PayloadOffsets()
    ensures Width(PAYLOAD_LAYOUT) == 256
    ensures Width(PAYLOAD_LAYOUT[..1]) == 128 && Width(PAYLOAD_LAYOUT[..2]) == 144
    ensures Width(PAYLOAD_LAYOUT[..3]) == 152 && Width(PAYLOAD_LAYOUT[..4]) == 160
  {
    WidthNext(PAYLOAD_LAYOUT, 0);
    WidthNext(PAYLOAD_LAYOUT, 1);
    WidthNext(PAYLOAD_LAYOUT, 2);
    WidthNext(PAYLOAD_LAYOUT, 3);
    WidthNext(PAYLOAD_LAYOUT, 4);
    assert PAYLOAD_LAYOUT[..5] == PAYLOAD_LAYOUT;
  }

  lemma HeaderRanges(w: Bits)
    requires |w| == 256
    ensures Width(OPERAND_LAYOUT) == 256
    ensures var f := Unpack(OPERAND_LAYOUT, w);
            && f[0] == Range(w, 15, 0) && f[1] == Range(w, 23, 16) && f[2] == Range(w, 39, 24)
            && f[12] == Range(w, 239, 232) && f[13] == Range(w, 255, 240)
  {
    OperandOffsets();
    assert OPERAND_LAYOUT[..0] == [];
    FieldIsRange(OPERAND_LAYOUT, w, 0, 0);
    FieldIsRange(OPERAND_LAYOUT, w, 1, 16);
    FieldIsRange(OPERAND_LAYOUT, w, 2, 24);
    FieldIsRange(OPERAND_LAYOUT, w, 12, 232);
    FieldIsRange(OPERAND_LAYOUT, w, 13, 240);
  }

  lemma PayloadRanges(w: Bits)
    requires |w| == 256
    ensures Width(PAYLOAD_LAYOUT) == 256
    ensures var g := Unpack(PAYLOAD_LAYOUT, w);
            && g[1] == Range(w, 143, 128) && g[2] == Range(w, 151, 144) && g[3] == Range(w, 159, 152)
            && g[4] == Range(w, 255, 160)
  {
    PayloadOffsets();
    FieldIsRange(PAYLOAD_LAYOUT, w, 1, 128);
    FieldIsRange(PAYLOAD_LAYOUT, w, 2, 144);
    FieldIsRange(PAYLOAD_LAYOUT, w, 3, 152);
    FieldIsRange(PAYLOAD_LAYOUT, w, 4, 160);
  }

  /** Operand wires that decode are recognised, and recognised ones are well framed. */
  lemma OperandIsRecognised(header: Bits, payload: Bits)
    requires |header| == |payload| == 256
    ensures Width(OPERAND_LAYOUT) == Width(PAYLOAD_LAYOUT) == 256
    ensures DeserializeOperand(header, payload).Decoded? ==> IsReduceHeaderWire(header) && IsReducePayloadWire(payload)
    ensures IsReduceHeaderWire(header) && IsReducePayloadWire(payload) ==>
              DeserializeOperand(header, payload) != BadFraming
  {
    HeaderRanges(header);
    PayloadRanges(payload);
  }
}
