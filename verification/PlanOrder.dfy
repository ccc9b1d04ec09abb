/**
 * The order within one rank's plan: every action between its phase's barriers, one combine at the root, sends
 * ascending.
 */
module PlanOrder {
  import opened Basics
  import opened CollTypes
  import opened CollPlan
  import opened CollFit

  // ---- Phases ---------------------------------------------------------------------------------

  /** An action's phase is the number of barriers before it, in 16 bits. */
  predicate Numbered(plan: seq<Action>) {
    plan == [] ||
    (Numbered(plan[..|plan| - 1]) && plan[|plan| - 1].phase == |Barriers(plan[..|plan| - 1])| % U16)
  }

  lemma {:induction false} NumberedAt(plan: seq<Action>, i: nat)
    requires Numbered(plan) && i < |plan|
    ensures plan[i].phase == |Barriers(plan[..i])| % U16
  {
    var n := |plan| - 1;
    if i < n {
      NumberedAt(plan[..n], i);
      assert plan[..n][..i] == plan[..i];
    }
  }

  /** The same of a script. */
  predicate InPhase(script: seq<Event>) {
    script == [] ||
    (InPhase(script[..|script| - 1]) && script[|script| - 1].phase == |Syncs(script[..|script| - 1])| % U16)
  }

  lemma NumberedSnoc(plan: seq<Action>, a: Action)
    requires Numbered(plan) && a.phase == |Barriers(plan)| % U16
    ensures Numbered(plan + [a])
  {
    assert (plan + [a])[..|plan|] == plan;
  }

  lemma NumberedPart(plan: seq<Action>, e: Event, rank: int)
    requires Numbered(plan) && e.phase == |Barriers(plan)| % U16
    ensures Numbered(plan + Part(e, rank))
  {
    var part := Part(e, rank);
    if |part| == 0 {
      assert plan + part == plan;
    } else if |part| == 1 {
      NumberedSnoc(plan, part[0]);
    } else {
      NumberedTwo(plan, part[0], part[1]);
      assert part == [part[0], part[1]];
    }
  }

  lemma NumberedTwo(plan: seq<Action>, a: Action, b: Action)
    requires Numbered(plan) && a.phase == b.phase == |Barriers(plan)| % U16 && !a.Barrier?
    ensures Numbered(plan + [a, b])
  {
    NumberedSnoc(plan, a);
    BarriersSnoc(plan, a);
    Unit(Barriers(plan));
    NumberedSnoc(plan + [a], b);
    assert plan + [a, b] == plan + [a] + [b];
  }

  lemma {:induction false} ProjectNumbered(script: seq<Event>, rank: int)
    requires InPhase(script)
    ensures Numbered(Project(script, rank))
  {
    if script != [] {
      var before := script[..|script| - 1];
      ProjectNumbered(before, rank);
      SharedBarriers(before, rank);
      NumberedPart(Project(before, rank), script[|script| - 1], rank);
    }
  }

  lemma InPhaseSnoc(script: seq<Event>, e: Event)
    requires InPhase(script) && e.phase == |Syncs(script)| % U16
    ensures InPhase(script + [e])
  {
    assert (script + [e])[..|script|] == script;
  }

  /** Transfers of the running phase. */
  ghost predicate AllIn(es: seq<Event>, phase: int) {
    forall i :: 0 <= i < |es| ==> es[i].Transfer? && es[i].phase == phase
  }

  lemma {:induction false} InPhaseMore(script: seq<Event>, es: seq<Event>)
    requires InPhase(script) && AllIn(es, |Syncs(script)| % U16)
    ensures InPhase(script + es) && Syncs(script + es) == Syncs(script)
  {
    if es == [] {
      assert script + es == script;
    } else {
      var before, e := es[..|es| - 1], es[|es| - 1];
      InPhaseMore(script, before);
      InPhaseSnoc(script + before, e);
      SyncsSnoc(script + before, e);
      Unit(Syncs(script + before));
      assert script + es == script + before + [e];
    }
  }

  ghost predicate TurnsIn(turn: int -> seq<Event>, k: int) {
    forall x :: 0 <= x < k ==> AllIn(turn(x), x)
  }

  lemma {:induction false} TurnsInPhase(k: nat, turn: int -> seq<Event>)
    requires TurnsIn(turn, k) && k <= U16
    ensures InPhase(Turns(k, turn)) && Syncs(Turns(k, turn)) == Upto(k)
  {
    if k > 0 {
      TurnsInPhase(k - 1, turn);
      TurnInPhase(Turns(k - 1, turn), turn(k - 1), k - 1);
    }
  }

  lemma TurnInPhase(before: seq<Event>, turn: seq<Event>, k: nat)
    requires InPhase(before) && Syncs(before) == Upto(k) && AllIn(turn, k) && k < U16
    ensures InPhase(before + turn + [Sync(k)]) && Syncs(before + turn + [Sync(k)]) == Upto(k + 1)
  {
    SmallMod(k, U16);
    InPhaseMore(before, turn);
    InPhaseSnoc(before + turn, Sync(k));
    SyncsSnoc(before + turn, Sync(k));
    assert Upto(k + 1) == Upto(k) + [k];
  }

  lemma {:induction false} FanIn(skip: int, k: nat, f: int -> Event, phase: int)
    requires forall x :: f(x).Transfer? && f(x).phase == phase
    ensures AllIn(Fan(skip, k, f), phase)
  {
    if k > 0 {
      FanIn(skip, k - 1, f, phase);
    }
  }

  lemma SpreadIn(d: Descriptor, phase: int, k: nat)
    ensures AllIn(Spread(d, phase, k), phase)
  {
    FanIn(d.rootRank, k, t => Shared(d, phase, t), phase);
  }

  lemma CollectInPhase(d: Descriptor, k: nat)
    requires k <= U16
    ensures InPhase(Collect(d, k)) && Syncs(Collect(d, k)) == Upto(k)
  {
    TurnsInPhase(k, s => Contribution(d, s));
  }

  lemma ExchangeInPhase(d: Descriptor, n: nat, k: nat)
    requires k <= U16
    ensures InPhase(Exchange(d, n, k))
  {
    forall s
      ensures AllIn(Turn(d, s, n), s)
    {
      FanIn(s, n, t => Exchanged(d, s, t), s);
    }
    TurnsInPhase(k, s => Turn(d, s, n));
  }

  lemma RootedInPhase(d: Descriptor, n: nat)
    requires n < U16
    ensures InPhase(Rooted(Collect(d, n), d, n)) && |Syncs(Rooted(Collect(d, n), d, n))| == n + 1
  {
    var before := Collect(d, n);
    CollectInPhase(d, n);
    SmallMod(n, U16);
    InPhaseSnoc(before, Reduce(n, d.rootRank));
    SyncsSnoc(before, Reduce(n, d.rootRank));
    InPhaseSnoc(before + [Reduce(n, d.rootRank)], Sync(n));
    SyncsSnoc(before + [Reduce(n, d.rootRank)], Sync(n));
    assert before + [Reduce(n, d.rootRank)] + [Sync(n)] == Rooted(before, d, n);
  }

  lemma ReductionInPhase(d: Descriptor, n: nat)
    requires n < U16
    ensures InPhase(Reduction(d, n))
  {
    var before, phase := Rooted(Collect(d, n), d, n), (n + 1) % U16;
    RootedInPhase(d, n);
    SpreadIn(d, phase, n);
    InPhaseMore(before, Spread(d, phase, n));
    InPhaseSnoc(before + Spread(d, phase, n), Sync(phase));
  }

  lemma SpreadInPhase(d: Descriptor, n: nat)
    ensures InPhase(Spread(d, 0, n) + [Sync(0)])
  {
    SpreadIn(d, 0, n);
    InPhaseMore([], Spread(d, 0, n));
    Unit(Spread(d, 0, n));
    InPhaseSnoc(Spread(d, 0, n), Sync(0));
  }

  lemma ScriptInPhase(d: Descriptor)
    ensures InPhase(Script(d))
  {
    var n := Ranks(d);
    if IsReduction(d.op) {
      ReductionInPhase(d, n);
    } else if d.op == GATHER {
      CollectInPhase(d, n);
    } else if d.op == ALLGATHER || d.op == ALLTOALL {
      ExchangeInPhase(d, n, n);
    } else if d.op == P2P {
      var e := Transfer(0, 0, 1, d.chunkBits, 0);
      InPhaseSnoc([], e);
      SyncsSnoc([], e);
      InPhaseSnoc([e], Sync(0));
      assert [] + [e] == [e] && [e] + [Sync(0)] == Script(d);
    } else {
      SpreadInPhase(d, n);
    }
  }

  /**
   * Every action of every plan stands between the barriers of its own phase: its phase counts the barriers
   * before it.
   */
  lemma ActionsInPhase(d: Descriptor, rank: int, i: nat)
    requires i < |Project(Script(d), rank)|
    ensures var plan := Project(Script(d), rank); plan[i].phase == |Barriers(plan[..i])| % U16
  {
    ScriptInPhase(d);
    ProjectNumbered(Script(d), rank);
    NumberedAt(Project(Script(d), rank), i);
  }

  /** How many barriers: one, one for each rank, and for reductions one or two more. */
  lemma BarrierCount(d: Descriptor, rank: int)
    ensures |Barriers(Project(Script(d), rank))| ==
            var n := |d.group| % U16;
            if d.op == P2P || d.op == BROADCAST || d.op == SCATTER then 1
            else if d.op == GATHER || d.op == ALLGATHER || d.op == ALLTOALL then n
            else if d.op == REDUCE then n + 1
            else n + 2
  {
    SharedBarriers(Script(d), rank);
    ScriptSyncs(d);
  }

  // ---- The combine ----------------------------------------------------------------------------

  /** The phases in which a plan combines what it has received. */
  function Combines(plan: seq<Action>): seq<int> {
    if plan == [] then []
    else Combines(plan[..|plan| - 1]) + if plan[|plan| - 1].Compute? then [plan[|plan| - 1].phase] else []
  }

  function Combining(script: seq<Event>, rank: int): seq<int> {
    if script == [] then []
    else
      var e := script[|script| - 1];
      Combining(script[..|script| - 1], rank) + if e.Reduce? && e.root == rank then [e.phase] else []
  }

  lemma CombinesSnoc(plan: seq<Action>, a: Action)
    ensures Combines(plan + [a]) == Combines(plan) + if a.Compute? then [a.phase] else []
  {
    assert (plan + [a])[..|plan|] == plan;
  }

  lemma CombiningSnoc(script: seq<Event>, e: Event, rank: int)
    ensures Combining(script + [e], rank)
            == Combining(script, rank) + if e.Reduce? && e.root == rank then [e.phase] else []
  {
    assert (script + [e])[..|script|] == script;
  }

  lemma CombinesPart(plan: seq<Action>, e: Event, rank: int)
    ensures Combines(plan + Part(e, rank))
            == Combines(plan) + if e.Reduce? && e.root == rank then [e.phase] else []
  {
    var part := Part(e, rank);
    Unit(Combines(plan));
    if |part| == 0 {
      assert plan + part == plan;
    } else if |part| == 1 {
      CombinesSnoc(plan, part[0]);
    } else {
      CombinesSnoc(plan, part[0]);
      CombinesSnoc(plan + [part[0]], part[1]);
      assert plan + part == plan + [part[0]] + [part[1]];
    }
  }

  lemma {:induction false} ProjectCombines(script: seq<Event>, rank: int)
    ensures Combines(Project(script, rank)) == Combining(script, rank)
  {
    if script != [] {
      ProjectCombines(script[..|script| - 1], rank);
      CombinesPart(Project(script[..|script| - 1], rank), script[|script| - 1], rank);
    }
  }

  /** Nothing but transfers and barriers. */
  ghost predicate NoReduce(es: seq<Event>) {
    forall i :: 0 <= i < |es| ==> !es[i].Reduce?
  }

  lemma {:induction false} CombiningMore(script: seq<Event>, es: seq<Event>, rank: int)
    requires NoReduce(es)
    ensures Combining(script + es, rank) == Combining(script, rank)
  {
    if es == [] {
      assert script + es == script;
    } else {
      var before, e := es[..|es| - 1], es[|es| - 1];
      CombiningMore(script, before, rank);
      CombiningSnoc(script + before, e, rank);
      Unit(Combining(script + before, rank));
      assert script + es == script + before + [e];
    }
  }

  lemma {:induction false} TurnsNoReduce(k: nat, turn: int -> seq<Event>)
    requires TurnsIn(turn, k)
    ensures NoReduce(Turns(k, turn))
  {
    if k > 0 {
      TurnsNoReduce(k - 1, turn);
    }
  }

  lemma CollectNoReduce(d: Descriptor, k: nat)
    ensures NoReduce(Collect(d, k))
  {
    TurnsNoReduce(k, s => Contribution(d, s));
  }

  lemma ExchangeNoReduce(d: Descriptor, n: nat, k: nat)
    ensures NoReduce(Exchange(d, n, k))
  {
    forall s
      ensures AllIn(Turn(d, s, n), s)
    {
      FanIn(s, n, t => Exchanged(d, s, t), s);
    }
    TurnsNoReduce(k, s => Turn(d, s, n));
  }

  lemma RootedCombines(d: Descriptor, n: nat, rank: int)
    ensures Combining(Rooted(Collect(d, n), d, n), rank) == if rank == d.rootRank then [n] else []
  {
    var collected := Collect(d, n);
    CollectNoReduce(d, n);
    CombiningMore([], collected, rank);
    Unit(collected);
    CombiningSnoc(collected, Reduce(n, d.rootRank), rank);
    CombiningMore(collected + [Reduce(n, d.rootRank)], [Sync(n)], rank);
    assert collected + [Reduce(n, d.rootRank)] + [Sync(n)] == Rooted(collected, d, n);
  }

  lemma ReductionCombines(d: Descriptor, n: nat, rank: int)
    ensures Combining(Reduction(d, n), rank) == if rank == d.rootRank then [n] else []
  {
    var phase := (n + 1) % U16;
    var rooted := Rooted(Collect(d, n), d, n);
    RootedCombines(d, n, rank);
    SpreadIn(d, phase, n);
    CombiningMore(rooted, Spread(d, phase, n) + [Sync(phase)], rank);
    Assoc(rooted, Spread(d, phase, n), [Sync(phase)]);
  }

  /** In a reduction the root combines once, in the phase after all contributions; no other plan combines. */
  lemma RootCombinesOnce(d: Descriptor, rank: int)
    ensures Combines(Project(Script(d), rank)) ==
            if (d.op == REDUCE || d.op == REDUCESCATTER || d.op == ALLREDUCE) && rank == d.rootRank
            then [|d.group| % U16] else []
  {
    var n := Ranks(d);
    ProjectCombines(Script(d), rank);
    if IsReduction(d.op) {
      ReductionCombines(d, n, rank);
    } else {
      OthersNoReduce(d);
      CombiningMore([], Script(d), rank);
      Unit(Script(d));
    }
  }

  lemma OthersNoReduce(d: Descriptor)
    requires !IsReduction(d.op)
    ensures NoReduce(Script(d))
  {
    var n := Ranks(d);
    if d.op == GATHER {
      CollectNoReduce(d, n);
    } else if d.op == ALLGATHER || d.op == ALLTOALL {
      ExchangeNoReduce(d, n, n);
    } else {
      SpreadIn(d, 0, n);
    }
  }

  // ---- The order of sends ---------------------------------------------------------------------

  /** The peers a plan has sent to since its last barrier. */
  function Sent(plan: seq<Action>): seq<int> {
    if plan == [] || plan[|plan| - 1].Barrier? then []
    else Sent(plan[..|plan| - 1]) + if plan[|plan| - 1].Send? then [plan[|plan| - 1].peer] else []
  }

  /** Within a phase each send goes to a higher rank than the last. */
  predicate Ascending(plan: seq<Action>) {
    plan == [] ||
    var before, a := plan[..|plan| - 1], plan[|plan| - 1];
    Ascending(before) && (a.Send? ==> forall p :: p in Sent(before) ==> p < a.peer)
  }

  lemma SentSnoc(plan: seq<Action>, a: Action)
    ensures Sent(plan + [a]) == if a.Barrier? then [] else Sent(plan) + if a.Send? then [a.peer] else []
    ensures Ascending(plan + [a]) <==> Ascending(plan) && (a.Send? ==> forall p :: p in Sent(plan) ==> p < a.peer)
  {
    assert (plan + [a])[..|plan|] == plan;
  }

  /** An event's part of a plan sends at most once, upwards if the event does. */
  lemma PartAscends(plan: seq<Action>, e: Event, rank: int)
    requires Ascending(plan)
    requires e.Transfer? && e.src == rank ==> forall p :: p in Sent(plan) ==> p < e.dst
    ensures Ascending(plan + Part(e, rank))
    ensures Sent(plan + Part(e, rank))
            == if e.Sync? then [] else Sent(plan) + if e.Transfer? && e.src == rank then [e.dst] else []
  {
    Unit(Sent(plan));
    Unit(plan);
    match e
    case Sync(phase) => SentSnoc(plan, Barrier(phase));
    case Reduce(phase, root) =>
      if rank == root {
        SentSnoc(plan, Compute(phase));
      }
    case Transfer(phase, src, dst, bits, offset) =>
      if rank == src == dst {
        SentTwo(plan, Send(phase, dst, bits, offset), Recv(phase, src, bits, offset));
        assert Part(e, rank) == [Send(phase, dst, bits, offset), Recv(phase, src, bits, offset)];
      } else if rank == src {
        SentSnoc(plan, Send(phase, dst, bits, offset));
        Unit([Send(phase, dst, bits, offset)]);
      } else if rank == dst {
        SentSnoc(plan, Recv(phase, src, bits, offset));
        Unit([Recv(phase, src, bits, offset)]);
      }
  }

  lemma SentTwo(plan: seq<Action>, a: Action, b: Action)
    requires Ascending(plan) && a.Send? && b.Recv? && forall p :: p in Sent(plan) ==> p < a.peer
    ensures Ascending(plan + [a, b]) && Sent(plan + [a, b]) == Sent(plan) + [a.peer]
  {
    SentSnoc(plan, a);
    Unit(Sent(plan + [a]));
    SentSnoc(plan + [a], b);
    assert plan + [a, b] == plan + [a] + [b];
  }

  /** What an event does to a rank's record: whether its sends ascend, and those of the running phase. */
  function Tracked(record: (bool, seq<int>), e: Event, rank: int): (bool, seq<int>) {
    if e.Sync? then (record.0, [])
    else if e.Transfer? && e.src == rank then
      (record.0 && (forall p :: p in record.1 ==> p < e.dst), record.1 + [e.dst])
    else record
  }

  function Track(script: seq<Event>, rank: int): (bool, seq<int>) {
    if script == [] then (true, []) else Tracked(Track(script[..|script| - 1], rank), script[|script| - 1], rank)
  }

  lemma TrackSnoc(script: seq<Event>, e: Event, rank: int)
    ensures Track(script + [e], rank) == Tracked(Track(script, rank), e, rank)
  {
    assert (script + [e])[..|script|] == script;
  }

  lemma {:induction false} TrackIsPlan(script: seq<Event>, rank: int)
    requires Track(script, rank).0
    ensures Ascending(Project(script, rank)) && Sent(Project(script, rank)) == Track(script, rank).1
  {
    if script != [] {
      TrackIsPlan(script[..|script| - 1], rank);
      PartAscends(Project(script[..|script| - 1], rank), script[|script| - 1], rank);
      Unit(Track(script[..|script| - 1], rank).1);
    }
  }

  /** A script whose last phase is over. */
  predicate Started(script: seq<Event>, rank: int) {
    Track(script, rank) == (true, [])
  }

  /** A script whose sends of the running phase are to ranks below `k`. */
  predicate Below(script: seq<Event>, rank: int, k: int) {
    Track(script, rank).0 && forall p :: p in Track(script, rank).1 ==> p < k
  }

  lemma SendsUpwards(script: seq<Event>, e: Event, rank: int, k: int)
    requires Below(script, rank, k) && e.Transfer? && e.dst >= k
    ensures Below(script + [e], rank, e.dst + 1)
  {
    TrackSnoc(script, e, rank);
  }

  lemma PhaseEnds(script: seq<Event>, rank: int, k: int, phase: int)
    requires Below(script, rank, k)
    ensures Started(script + [Sync(phase)], rank)
  {
    TrackSnoc(script, Sync(phase), rank);
  }

  lemma {:induction false} FanBelow(script: seq<Event>, skip: int, k: nat, f: int -> Event, rank: int)
    requires Started(script, rank) && forall x :: f(x).Transfer? && f(x).dst == x
    ensures Below(script + Fan(skip, k, f), rank, k)
  {
    if k == 0 {
      assert script + Fan(skip, 0, f) == script;
    } else {
      FanBelow(script, skip, k - 1, f, rank);
      if k - 1 != skip {
        SendsUpwards(script + Fan(skip, k - 1, f), f(k - 1), rank, k - 1);
        assert script + Fan(skip, k, f) == script + Fan(skip, k - 1, f) + [f(k - 1)];
      }
    }
  }

  lemma CollectNext(d: Descriptor, k: nat)
    ensures Collect(d, k + 1) == Collect(d, k) + Contribution(d, k) + [Sync(k)]
  {
  }

  lemma ExchangeNext(d: Descriptor, n: nat, k: nat)
    ensures Exchange(d, n, k + 1) == Exchange(d, n, k) + Turn(d, k, n) + [Sync(k)]
  {
  }

  lemma ContributionEnds(before: seq<Event>, d: Descriptor, k: nat, rank: int)
    requires Started(before, rank)
    ensures Started(before + Contribution(d, k) + [Sync(k)], rank)
  {
    ContributionBelow(before, d, k, rank);
    PhaseEnds(before + Contribution(d, k), rank, d.rootRank + 1, k);
  }

  lemma TurnEnds(before: seq<Event>, d: Descriptor, n: nat, k: nat, rank: int)
    requires Started(before, rank)
    ensures Started(before + Turn(d, k, n) + [Sync(k)], rank)
  {
    FanBelow(before, k, n, t => Exchanged(d, k, t), rank);
    PhaseEnds(before + Turn(d, k, n), rank, n, k);
  }

  lemma {:induction false} CollectStarted(d: Descriptor, k: nat, rank: int)
    ensures Started(Collect(d, k), rank)
  {
    if k > 0 {
      CollectStarted(d, k - 1, rank);
      ContributionEnds(Collect(d, k - 1), d, k - 1, rank);
      CollectNext(d, k - 1);
    }
  }

  lemma ContributionBelow(before: seq<Event>, d: Descriptor, x: int, rank: int)
    requires Started(before, rank)
    ensures Below(before + Contribution(d, x), rank, d.rootRank + 1)
  {
    if x == d.rootRank {
      assert before + [] == before;
    } else {
      SendsUpwards(before, Collected(d, x), rank, d.rootRank);
    }
  }

  lemma {:induction false} ExchangeStarted(d: Descriptor, n: nat, k: nat, rank: int)
    ensures Started(Exchange(d, n, k), rank)
  {
    if k > 0 {
      ExchangeStarted(d, n, k - 1, rank);
      TurnEnds(Exchange(d, n, k - 1), d, n, k - 1, rank);
      ExchangeNext(d, n, k - 1);
    }
  }

  lemma RootedStarted(d: Descriptor, n: nat, rank: int)
    ensures Started(Rooted(Collect(d, n), d, n), rank)
  {
    var collected, e := Collect(d, n), Reduce(n, d.rootRank);
    CollectStarted(d, n, rank);
    TrackSnoc(collected, e, rank);
    PhaseEnds(collected + [e], rank, 0, n);
    assert collected + [e] + [Sync(n)] == Rooted(collected, d, n);
  }

  lemma ReductionAscends(d: Descriptor, n: nat, rank: int)
    ensures Track(Reduction(d, n), rank).0
  {
    var rooted, phase := Rooted(Collect(d, n), d, n), (n + 1) % U16;
    RootedStarted(d, n, rank);
    FanBelow(rooted, d.rootRank, n, t => Shared(d, phase, t), rank);
    PhaseEnds(rooted + Spread(d, phase, n), rank, n, phase);
  }

  lemma SpreadAscends(d: Descriptor, n: nat, rank: int)
    ensures Track(Spread(d, 0, n) + [Sync(0)], rank).0
  {
    FanBelow([], d.rootRank, n, t => Shared(d, 0, t), rank);
    Unit(Spread(d, 0, n));
    PhaseEnds(Spread(d, 0, n), rank, n, 0);
  }

  lemma ScriptAscends(d: Descriptor, rank: int)
    ensures Track(Script(d), rank).0
  {
    var n := Ranks(d);
    if IsReduction(d.op) {
      ReductionAscends(d, n, rank);
    } else if d.op == GATHER {
      CollectStarted(d, n, rank);
    } else if d.op == ALLGATHER || d.op == ALLTOALL {
      ExchangeStarted(d, n, n, rank);
    } else if d.op == P2P {
      var e := Transfer(0, 0, 1, d.chunkBits, 0);
      SendsUpwards([], e, rank, 1);
      PhaseEnds([e], rank, 2, 0);
      assert [] + [e] == [e] && [e] + [Sync(0)] == Script(d);
    } else {
      SpreadAscends(d, n, rank);
    }
  }

  /** In every plan the sends of a phase go to ever higher ranks. */
  lemma SendsAscend(d: Descriptor, rank: int)
    ensures Ascending(Project(Script(d), rank))
  {
    ScriptAscends(d, rank);
    TrackIsPlan(Script(d), rank);
  }
}
