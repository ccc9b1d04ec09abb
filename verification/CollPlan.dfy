/** The tier-0 planner: each rank's actions are its own view of one script that all ranks share. */
module CollPlan {
  import opened Basics
  import opened CollTypes

  datatype Action = Send(phase: int, peer: int, bits: int, offset: int)
                  | Recv(phase: int, peer: int, bits: int, offset: int)
                  | Barrier(phase: int)
                  | Compute(phase: int)

  datatype Event = Transfer(phase: int, src: int, dst: int, bits: int, offset: int)
                 | Sync(phase: int)
                 | Reduce(phase: int, root: int)

  datatype PlanResult = Planned(actions: seq<Action>) | Rejected(reason: Check)

  /** One rank's part of an event. */
  function Part(e: Event, rank: int): seq<Action> {
    match e
    case Transfer(phase, src, dst, bits, offset) =>
      (if rank == src then [Send(phase, dst, bits, offset)] else [])
      + (if rank == dst then [Recv(phase, src, bits, offset)] else [])
    case Sync(phase) => [Barrier(phase)]
    case Reduce(phase, root) => if rank == root then [Compute(phase)] else []
  }

  function Project(script: seq<Event>, rank: int): seq<Action> {
    if script == [] then [] else Project(script[..|script| - 1], rank) + Part(script[|script| - 1], rank)
  }

  // ---- The scripts ----------------------------------------------------------------------------

  /** The planner's 16-bit rank count. */
  function Ranks(d: Descriptor): int {
    |d.group| % U16
  }

  function Displacement(d: Descriptor, rank: int): int {
    rank * d.strideBits % U64
  }

  /** One event for each rank but one, in rank order. */
  function Fan(skip: int, k: nat, f: int -> Event): seq<Event> {
    if k == 0 then [] else if k - 1 == skip then Fan(skip, k - 1, f) else Fan(skip, k - 1, f) + [f(k - 1)]
  }

  /** Ranks take turns, a barrier numbered with the rank after each. */
  function Turns(k: nat, turn: int -> seq<Event>): seq<Event> {
    if k == 0 then [] else Turns(k - 1, turn) + turn(k - 1) + [Sync(k - 1)]
  }

  /** A source's contribution to the root. */
  function Collected(d: Descriptor, s: int): Event {
    Transfer(s, s, d.rootRank, d.chunkBits, if d.op == GATHER then Displacement(d, s) else 0)
  }

  function Contribution(d: Descriptor, s: int): seq<Event> {
    if s == d.rootRank then [] else [Collected(d, s)]
  }

  /** Sources take turns towards the root; the root's own turn is a barrier alone. */
  function Collect(d: Descriptor, k: nat): seq<Event> {
    Turns(k, s => Contribution(d, s))
  }

  /** What the root sends to rank `t`: bits and offset. */
  function Share(d: Descriptor, t: int): (int, int) {
    if d.op == REDUCESCATTER && 0 <= t < Ranks(d) && d.count >= 0 then
      var part := RankCountOffset(d.count, Ranks(d), t);
      (part.0 * DTypeBits(d.dtype) % U64, part.1 * DTypeBits(d.dtype) % U64)
    else (d.chunkBits, if d.op == SCATTER then Displacement(d, t) else 0)
  }

  function Shared(d: Descriptor, phase: int, t: int): Event {
    Transfer(phase, d.rootRank, t, Share(d, t).0, Share(d, t).1)
  }

  function Spread(d: Descriptor, phase: int, k: nat): seq<Event> {
    Fan(d.rootRank, k, t => Shared(d, phase, t))
  }

  function Exchanged(d: Descriptor, s: int, t: int): Event {
    Transfer(s, s, t, d.chunkBits, Displacement(d, if d.op == ALLTOALL then t else s))
  }

  /** One source's turn in an all-to-all exchange. */
  function Turn(d: Descriptor, s: int, k: nat): seq<Event> {
    Fan(s, k, t => Exchanged(d, s, t))
  }

  function Exchange(d: Descriptor, n: nat, k: nat): seq<Event> {
    Turns(k, s => Turn(d, s, n))
  }

  /** The root combines, and all wait for it. */
  function Rooted(before: seq<Event>, d: Descriptor, n: int): seq<Event> {
    before + [Reduce(n, d.rootRank), Sync(n)]
  }

  /** REDUCESCATTER and ALLREDUCE then send results back. */
  function Scattered(before: seq<Event>, d: Descriptor, n: nat): seq<Event> {
    if d.op == REDUCE then before else before + Spread(d, (n + 1) % U16, n) + [Sync((n + 1) % U16)]
  }

  function Reduction(d: Descriptor, n: nat): seq<Event> {
    Scattered(Rooted(Collect(d, n), d, n), d, n)
  }

  function Script(d: Descriptor): seq<Event> {
    var n := Ranks(d);
    match d.op
    case REDUCE => Reduction(d, n)
    case REDUCESCATTER => Reduction(d, n)
    case ALLREDUCE => Reduction(d, n)
    case P2P => [Transfer(0, 0, 1, d.chunkBits, 0), Sync(0)]
    case BROADCAST => Spread(d, 0, n) + [Sync(0)]
    case SCATTER => Spread(d, 0, n) + [Sync(0)]
    case GATHER => Collect(d, n)
    case ALLGATHER => Exchange(d, n, n)
    case ALLTOALL => Exchange(d, n, n)
  }

  /** The planner's checks, in order. */
  function PlanCheck(d: Descriptor, self: int): Check {
    if ValidateDescriptor(d) != Passed then ValidateDescriptor(d)
    else if self >= |d.group| then SelfOutside
    else if IsReduction(d.op) then ValidateTier0Reduction(d)
    else if d.op == P2P && Ranks(d) != 2 then NotTwoRanks
    else Passed
  }

  /** What a descriptor must be to be planned: the conditions all checks together come to. */
  lemma PlannedIff(d: Descriptor, self: nat)
    requires d.Typed()
    ensures PlanCheck(d, self) == Passed <==>
              && d.group != [] && (forall i :: 0 < i < |d.group| ==> d.group[i - 1] < d.group[i])
              && d.rootRank < |d.group| && d.selfRank < |d.group| && self < |d.group|
              && d.count > 0 && d.chunkBits > 0
              && (d.reduceOp != NONE <==> d.op == REDUCE || d.op == REDUCESCATTER || d.op == ALLREDUCE)
              && d.algorithm == (if d.op == REDUCESCATTER then ROOT_SCATTER
                                 else if d.op == ALLREDUCE then ROOT_BROADCAST else DIRECT)
              && (d.reduceOp != NONE ==>
                    && d.dtype != FP32 && d.chunkBits == d.count * DTypeBits(d.dtype)
                    && d.srcAddr % (DTypeBits(d.dtype) / 8) == 0 && d.dstAddr % (DTypeBits(d.dtype) / 8) == 0)
              && (d.op == P2P ==> |d.group| % U16 == 2)
  {
    Strict(d.group);
    if d.dtype != FP32 {
      CountFits(d.count, DTypeBits(d.dtype));
    }
  }

  lemma Strict(s: seq<int>)
    ensures Sorted(s) && !HasAdjacentDuplicate(s) <==> forall i :: 0 < i < |s| ==> s[i - 1] < s[i]
  {
    if Sorted(s) && !HasAdjacentDuplicate(s) {
      forall i | 0 < i < |s|
        ensures s[i - 1] < s[i]
      {
        assert s[i - 1] <= s[i];
        assert !(0 < i < |s| && s[i - 1] == s[i]);
      }
    }
  }

  /** The overflow guard in front of the product never refuses a chunk size that is the product. */
  lemma CountFits(count: nat, bits: int)
    requires bits > 0
    ensures count > (U64 - 1) / bits ==> count * bits >= U64
  {
    if count > (U64 - 1) / bits {
      var q, r := (U64 - 1) / bits, (U64 - 1) % bits;
      assert U64 - 1 == q * bits + r;
      OneMore(q, bits);
      MulMono(q + 1, count, bits);
    }
  }

  // ---- Projection -----------------------------------------------------------------------------

  lemma ProjectSnoc(a: seq<Event>, e: Event, rank: int)
    ensures Project(a + [e], rank) == Project(a, rank) + Part(e, rank)
  {
    assert (a + [e])[..|a|] == a;
  }

  lemma SpreadTakes(done: seq<Event>, d: Descriptor, phase: int, k: nat)
    requires k != d.rootRank
    ensures done + Spread(d, phase, k) + [Shared(d, phase, k)] == done + Spread(d, phase, k + 1)
  {
    Assoc(done, Spread(d, phase, k), [Shared(d, phase, k)]);
  }

  lemma TurnTakes(done: seq<Event>, d: Descriptor, s: int, k: nat)
    requires k != s
    ensures done + Turn(d, s, k) + [Exchanged(d, s, k)] == done + Turn(d, s, k + 1)
  {
    Assoc(done, Turn(d, s, k), [Exchanged(d, s, k)]);
  }

  /** The planner's output list. Each step extends what has been planned of the script, `done`. */
  class Planner {
    const selfRank: int
    var out: seq<Action>

    constructor (self: int)
      ensures selfRank == self && out == Project([], self)
    {
      selfRank, out := self, [];
    }

    method BarrierStep(ghost done: seq<Event>, phase: int)
      requires out == Project(done, selfRank)
      modifies this
      ensures out == Project(done + [Sync(phase)], selfRank)
    {
      ProjectSnoc(done, Sync(phase), selfRank);
      out := out + [Barrier(phase)];
    }

    method PairStep(ghost done: seq<Event>, phase: int, src: int, dst: int, bits: int, offset: int)
      requires out == Project(done, selfRank)
      modifies this
      ensures out == Project(done + [Transfer(phase, src, dst, bits, offset)], selfRank)
    {
      ProjectSnoc(done, Transfer(phase, src, dst, bits, offset), selfRank);
      ghost var before := out;
      if selfRank == src {
        out := out + [Send(phase, dst, bits, offset)];
      }
      if selfRank == dst {
        out := out + [Recv(phase, src, bits, offset)];
      }
      assert out == before + Part(Transfer(phase, src, dst, bits, offset), selfRank);
    }

    method CollectSteps(d: Descriptor, n: nat)
      requires out == Project([], selfRank)
      modifies this
      ensures out == Project(Collect(d, n), selfRank)
    {
      ghost var turn := s => Contribution(d, s);
      for src := 0 to n
        invariant out == Project(Turns(src, turn), selfRank)
      {
        ContributeStep(Turns(src, turn), d, src);
        BarrierStep(Turns(src, turn) + turn(src), src);
      }
    }

    method ContributeStep(ghost done: seq<Event>, d: Descriptor, src: int)
      requires out == Project(done, selfRank)
      modifies this
      ensures out == Project(done + Contribution(d, src), selfRank)
    {
      if src != d.rootRank {
        var offset := CollectOffset(d, src);
        PairStep(done, src, src, d.rootRank, d.chunkBits, offset);
      } else {
        assert done + [] == done;
      }
    }

    method CollectOffset(d: Descriptor, src: int) returns (offset: int)
      ensures offset == Collected(d, src).offset
    {
      offset := if d.op == GATHER then Displacement(d, src) else 0;
    }

    method ExchangeOffset(d: Descriptor, src: int, dst: int) returns (offset: int)
      ensures offset == Exchanged(d, src, dst).offset
    {
      offset := Displacement(d, src);
      if d.op == ALLTOALL {
        offset := Displacement(d, dst);
      }
    }

    method SpreadSteps(ghost done: seq<Event>, d: Descriptor, phase: int, n: nat)
      requires n == Ranks(d) && d.count >= 0
      requires out == Project(done, selfRank)
      modifies this
      ensures out == Project(done + Spread(d, phase, n), selfRank)
    {
      Unit(done);
      for dst := 0 to n
        invariant out == Project(done + Spread(d, phase, dst), selfRank)
      {
        if dst != d.rootRank {
          ShareStep(done + Spread(d, phase, dst), d, phase, n, dst);
          SpreadTakes(done, d, phase, dst);
        }
      }
    }

    method ShareOf(d: Descriptor, n: nat, dst: nat) returns (bits: int, offset: int)
      requires n == Ranks(d) && d.count >= 0 && dst < n
      ensures bits == Share(d, dst).0 && offset == Share(d, dst).1
    {
      bits, offset := d.chunkBits, 0;
      if d.op == SCATTER {
        offset := Displacement(d, dst);
      } else if d.op == REDUCESCATTER {
        var part := RankCountOffset(d.count, n, dst);
        bits, offset := part.0 * DTypeBits(d.dtype) % U64, part.1 * DTypeBits(d.dtype) % U64;
      }
    }

    method ShareStep(ghost done: seq<Event>, d: Descriptor, phase: int, n: nat, dst: nat)
      requires n == Ranks(d) && d.count >= 0 && dst < n
      requires out == Project(done, selfRank)
      modifies this
      ensures out == Project(done + [Shared(d, phase, dst)], selfRank)
    {
      var bits, offset := ShareOf(d, n, dst);
      PairStep(done, phase, d.rootRank, dst, bits, offset);
    }

    method ExchangeStep(ghost done: seq<Event>, d: Descriptor, src: int, dst: int)
      requires out == Project(done, selfRank)
      modifies this
      ensures out == Project(done + [Exchanged(d, src, dst)], selfRank)
    {
      var offset := ExchangeOffset(d, src, dst);
      PairStep(done, src, src, dst, d.chunkBits, offset);
    }

    method TurnSteps(ghost done: seq<Event>, d: Descriptor, src: int, n: nat)
      requires out == Project(done, selfRank)
      modifies this
      ensures out == Project(done + Turn(d, src, n), selfRank)
    {
      Unit(done);
      for dst := 0 to n
        invariant out == Project(done + Turn(d, src, dst), selfRank)
      {
        if dst != src {
          ExchangeStep(done + Turn(d, src, dst), d, src, dst);
          TurnTakes(done, d, src, dst);
        }
      }
    }

    method ExchangeSteps(d: Descriptor, n: nat)
      requires out == Project([], selfRank)
      modifies this
      ensures out == Project(Exchange(d, n, n), selfRank)
    {
      ghost var turn := s => Turn(d, s, n);
      for src := 0 to n
        invariant out == Project(Turns(src, turn), selfRank)
      {
        TurnSteps(Turns(src, turn), d, src, n);
        BarrierStep(Turns(src, turn) + turn(src), src);
      }
    }

    method PointToPointSteps(d: Descriptor)
      requires out == Project([], selfRank)
      modifies this
      ensures out == Project([Transfer(0, 0, 1, d.chunkBits, 0), Sync(0)], selfRank)
    {
      PairStep([], 0, 0, 1, d.chunkBits, 0);
      BarrierStep([Transfer(0, 0, 1, d.chunkBits, 0)], 0);
    }

    method RootedSpreadSteps(d: Descriptor, n: nat)
      requires n == Ranks(d) && d.count >= 0
      requires out == Project([], selfRank)
      modifies this
      ensures out == Project(Spread(d, 0, n) + [Sync(0)], selfRank)
    {
      SpreadSteps([], d, 0, n);
      Unit(Spread(d, 0, n));
      BarrierStep(Spread(d, 0, n), 0);
    }

    method ReductionSteps(d: Descriptor, n: nat)
      requires n == Ranks(d) && d.count >= 0 && IsReduction(d.op)
      requires out == Project([], selfRank)
      modifies this
      ensures out == Project(Reduction(d, n), selfRank)
    {
      CollectSteps(d, n);
      RootSteps(Collect(d, n), d, n);
      ScatterSteps(Rooted(Collect(d, n), d, n), d, n);
    }

    method ScatterSteps(ghost done: seq<Event>, d: Descriptor, n: nat)
      requires n == Ranks(d) && d.count >= 0 && IsReduction(d.op)
      requires out == Project(done, selfRank)
      modifies this
      ensures out == Project(Scattered(done, d, n), selfRank)
    {
      if d.op == REDUCESCATTER || d.op == ALLREDUCE {
        var phase := (n + 1) % U16;
        SpreadSteps(done, d, phase, n);
        BarrierStep(done + Spread(d, phase, n), phase);
      }
    }

    method RootSteps(ghost done: seq<Event>, d: Descriptor, n: nat)
      requires out == Project(done, selfRank)
      modifies this
      ensures out == Project(Rooted(done, d, n), selfRank)
    {
      ProjectSnoc(done, Reduce(n, d.rootRank), selfRank);
      if selfRank == d.rootRank {
        out := out + [Compute(n)];
      }
      BarrierStep(done + [Reduce(n, d.rootRank)], n);
      assert done + [Reduce(n, d.rootRank)] + [Sync(n)] == done + [Reduce(n, d.rootRank), Sync(n)];
    }
  }

  /** The plan of a rank is that rank's part of the one script. */
  method PlanTier0Collective(d: Descriptor, self: int) returns (plan: PlanResult)
    requires d.Typed()
    ensures PlanCheck(d, self) == Passed ==> plan == Planned(Project(Script(d), self))
    ensures PlanCheck(d, self) != Passed ==> plan == Rejected(PlanCheck(d, self))
  {
    if ValidateDescriptor(d) != Passed {
      return Rejected(ValidateDescriptor(d));
    }
    if self >= |d.group| {
      return Rejected(SelfOutside);
    }
    var n := Ranks(d);
    var p := new Planner(self);
    if IsReduction(d.op) {
      if ValidateTier0Reduction(d) != Passed {
        return Rejected(ValidateTier0Reduction(d));
      }
      p.ReductionSteps(d, n);
      return Planned(p.out);
    }
    if d.op == P2P {
      if n != 2 {
        return Rejected(NotTwoRanks);
      }
      p.PointToPointSteps(d);
      return Planned(p.out);
    }
    if d.op == BROADCAST || d.op == SCATTER {
      p.RootedSpreadSteps(d, n);
    } else if d.op == GATHER {
      p.CollectSteps(d, n);
    } else {
      p.ExchangeSteps(d, n);
    }
    plan := Planned(p.out);
  }
}
