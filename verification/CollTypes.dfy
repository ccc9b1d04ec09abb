/** Descriptors of collective operations, and the checks they must pass. */
module CollTypes {
  import opened Basics

  datatype CollOp = P2P | SCATTER | GATHER | BROADCAST | ALLTOALL | ALLGATHER | REDUCE | REDUCESCATTER | ALLREDUCE

  datatype Algorithm = DIRECT | ROOT_SCATTER | ROOT_BROADCAST

  datatype ReduceOp = NONE | SUM | MAX

  datatype DType = UINT8 | INT32 | INT64 | FP32

  const U16 := 0x1_0000
  const U32 := 0x1_0000_0000
  const U64 := 0x1_0000_0000_0000_0000

  datatype CollectiveKey = CollectiveKey(groupId: int, collectiveId: int, epoch: int)

  datatype Descriptor = Descriptor(op: CollOp, algorithm: Algorithm, dtype: DType, reduceOp: ReduceOp,
                                   key: CollectiveKey, group: seq<int>, rootRank: int, selfRank: int,
                                   count: int, srcAddr: int, dstAddr: int,
                                   chunkBits: int, strideBits: int, reorderDepth: int) {
    /** Every field lies in the range of its unsigned wire type. */
    predicate Typed() {
      && (forall i :: 0 <= i < |group| ==> 0 <= group[i] < U16)
      && 0 <= rootRank < U16 && 0 <= selfRank < U16 && 0 <= count < U64
      && 0 <= srcAddr < U64 && 0 <= dstAddr < U64 && 0 <= chunkBits < U64 && 0 <= strideBits < U64
      && 0 <= key.groupId < U32 && 0 <= key.collectiveId < U32 && 0 <= key.epoch < U32 && 0 <= reorderDepth < U32
    }
  }

  predicate IsReduction(op: CollOp) {
    op == REDUCE || op == REDUCESCATTER || op == ALLREDUCE
  }

  function DTypeBits(t: DType): int {
    match t
    case UINT8 => 8
    case INT32 => 32
    case INT64 => 64
    case FP32 => 32
  }

  function DTypeCode(t: DType): nat {
    match t
    case UINT8 => 0
    case INT32 => 1
    case INT64 => 2
    case FP32 => 3
  }

  function DTypeOf(c: nat): DType {
    if c == 0 then UINT8 else if c == 1 then INT32 else if c == 2 then INT64 else FP32
  }

  function ReduceCode(op: ReduceOp): nat {
    match op
    case NONE => 0
    case SUM => 1
    case MAX => 2
  }

  function ReduceOf(c: nat): ReduceOp {
    if c == 0 then NONE else if c == 1 then SUM else MAX
  }

  datatype Check = Passed | EmptyGroup | UnsortedGroup | DuplicateCore | RankOutside | ZeroCount | ZeroChunk
                 | MissingReduceOp | UnwantedReduceOp | WrongAlgorithm
                 | NotReduction | UnsupportedType | ChunkMismatch | Misaligned
                 | SelfOutside | NotTwoRanks

  predicate Sorted(s: seq<int>) {
    forall i :: 0 < i < |s| ==> s[i - 1] <= s[i]
  }

  predicate HasAdjacentDuplicate(s: seq<int>) {
    exists i :: 0 < i < |s| && s[i - 1] == s[i]
  }

  function ValidateDescriptor(d: Descriptor): Check {
    if d.group == [] then EmptyGroup
    else if !Sorted(d.group) then UnsortedGroup
    else if HasAdjacentDuplicate(d.group) then DuplicateCore
    else if d.rootRank >= |d.group| || d.selfRank >= |d.group| then RankOutside
    else if d.count == 0 then ZeroCount
    else if d.chunkBits == 0 then ZeroChunk
    else if IsReduction(d.op) && d.reduceOp == NONE then MissingReduceOp
    else if !IsReduction(d.op) && d.reduceOp != NONE then UnwantedReduceOp
    else if d.op == REDUCESCATTER && d.algorithm != ROOT_SCATTER then WrongAlgorithm
    else if d.op == ALLREDUCE && d.algorithm != ROOT_BROADCAST then WrongAlgorithm
    else if d.op != REDUCESCATTER && d.op != ALLREDUCE && d.algorithm != DIRECT then WrongAlgorithm
    else Passed
  }

  function ValidateTier0Reduction(d: Descriptor): Check {
    if ValidateDescriptor(d) != Passed then ValidateDescriptor(d)
    else if !IsReduction(d.op) then NotReduction
    else if d.dtype == FP32 then UnsupportedType
    else if d.count > (U64 - 1) / DTypeBits(d.dtype) || d.chunkBits != d.count * DTypeBits(d.dtype) then ChunkMismatch
    else if d.srcAddr % (DTypeBits(d.dtype) / 8) != 0 || d.dstAddr % (DTypeBits(d.dtype) / 8) != 0 then Misaligned
    else Passed
  }

  lemma {:induction false} Ascends(s: seq<int>, i: nat, j: nat)
    requires Sorted(s) && !HasAdjacentDuplicate(s) && i <= j < |s|
    ensures s[i] + (j - i) <= s[j]
  {
    if i < j {
      Ascends(s, i, j - 1);
      assert !(0 < j < |s| && s[j - 1] == s[j]);
    }
  }

  /** A validated group of 16-bit core ids names each core once, so it has at most 65536 ranks. */
  lemma GroupSize(d: Descriptor)
    requires d.Typed() && ValidateDescriptor(d) == Passed
    ensures 1 <= |d.group| <= U16
    ensures forall i, j :: 0 <= i < j < |d.group| ==> d.group[i] != d.group[j]
  {
    Ascends(d.group, 0, |d.group| - 1);
    forall i, j | 0 <= i < j < |d.group|
      ensures d.group[i] != d.group[j]
    {
      Ascends(d.group, i, j);
    }
  }

  /** How many elements rank `rank` of `ranks` gets, and where they start. */
  function RankCountOffset(count: nat, ranks: nat, rank: nat): (int, int)
    requires rank < ranks
  {
    var base, extra := count / ranks, count % ranks;
    (base + if rank < extra then 1 else 0, rank * base + Min(rank, extra))
  }

  /** The parts follow one another without gap or overlap, from zero to the whole count, none larger than the last. */
  lemma PartsTile(count: nat, ranks: nat, rank: nat)
    requires rank < ranks
    ensures RankCountOffset(count, ranks, 0).1 == 0
    ensures var (n, at) := RankCountOffset(count, ranks, rank);
            && 0 <= n && 0 <= at && at + n <= count
            && (rank + 1 < ranks ==> RankCountOffset(count, ranks, rank + 1).1 == at + n)
            && (rank + 1 == ranks ==> at + n == count)
            && (n == count / ranks || n == count / ranks + 1)
            && (rank + 1 < ranks ==> RankCountOffset(count, ranks, rank + 1).0 <= n)
  {
    var base, extra := count / ranks, count % ranks;
    assert count == ranks * base + extra;
    assert (rank + 1) * base == rank * base + base;
    MulMono(rank + 1, ranks, base);
  }

  lemma PartsDisjoint(count: nat, ranks: nat, a: nat, b: nat)
    requires a < b < ranks
    ensures var (n, at) := RankCountOffset(count, ranks, a); at + n <= RankCountOffset(count, ranks, b).1
    decreases b - a
  {
    PartsTile(count, ranks, a);
    if a + 1 < b {
      PartsTile(count, ranks, a + 1);
      PartsDisjoint(count, ranks, a + 1, b);
    }
  }

  predicate InPart(count: nat, ranks: nat, rank: int, x: int)
    requires 0 <= rank < ranks
  {
    var (n, at) := RankCountOffset(count, ranks, rank);
    at <= x < at + n
  }

  /** Every element belongs to exactly one rank's part. */
  lemma PartOf(count: nat, ranks: nat, x: nat) returns (rank: nat)
    requires x < count && ranks > 0
    ensures rank < ranks && InPart(count, ranks, rank, x)
    ensures forall other :: 0 <= other < ranks && InPart(count, ranks, other, x) ==> other == rank
  {
    rank := 0;
    PartsTile(count, ranks, 0);
    while !InPart(count, ranks, rank, x)
      invariant rank < ranks && RankCountOffset(count, ranks, rank).1 <= x
      decreases ranks - rank
    {
      PartsTile(count, ranks, rank);
      rank := rank + 1;
    }
    forall other | 0 <= other < ranks && InPart(count, ranks, other, x)
      ensures other == rank
    {
      if other < rank {
        PartsDisjoint(count, ranks, other, rank);
      } else if rank < other {
        PartsDisjoint(count, ranks, rank, other);
      }
    }
  }

  /** A broadcast over every core id there is: valid, and as large as a group gets. */
  function EveryCore(): Descriptor {
    Descriptor(BROADCAST, DIRECT, UINT8, NONE, CollectiveKey(0, 0, 0), seq(U16, i => i), 0, 0, 1, 0, 0, 8, 0, 0)
  }

  lemma EveryCoreValid()
    ensures EveryCore().Typed() && ValidateDescriptor(EveryCore()) == Passed && |EveryCore().group| == U16
  {
  }
}
