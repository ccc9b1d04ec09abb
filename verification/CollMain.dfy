/** Main results about a collective run by all its ranks. */
module CollMain {
  import opened Basics
  import opened CollTypes
  import opened CollPlan
  import opened CollFit
  import opened Barrier
  import opened CollRun

  // ---- Progress -------------------------------------------------------------------------------

  lemma {:induction false} Hindmost(at: seq<nat>) returns (r: nat)
    requires at != []
    ensures r < |at| && forall q :: 0 <= q < |at| ==> at[r] <= at[q]
  {
    if |at| == 1 {
      r := 0;
    } else {
      var last := |at| - 1;
      var q := Hindmost(at[..last]);
      r := if at[last] < at[q] then last else q;
      forall x | 0 <= x < |at|
        ensures at[r] <= at[x]
      {
        assert x < last ==> at[x] == at[..last][x];
      }
    }
  }

  /** Two positions with the same number of barriers behind them have none between them. */
  lemma {:induction false} SyncsMonotone(script: seq<Event>, i: nat, j: nat)
    requires i <= j <= |script|
    ensures |Syncs(script[..i])| <= |Syncs(script[..j])|
    ensures i < j && script[i].Sync? ==> |Syncs(script[..i])| < |Syncs(script[..j])|
    decreases j - i
  {
    if i < j {
      SyncsPrefix(script, i);
      SyncsMonotone(script, i + 1, j);
    }
  }

  /** At a transfer, the other end is waiting at the same event. */
  lemma TransferEnabled(s: Scene, w: World, at: seq<nat>, r: nat) returns (m: Move)
    requires Sound(s, w, at) && r < s.n && at[r] < |s.script| && s.script[at[r]].Transfer?
    requires forall q :: 0 <= q < s.n ==> at[r] <= at[q]
    ensures Enabled(w, s.key, m)
  {
    var i := at[r];
    var e := s.script[i];
    assert Placed(s.script, w.todo[r], i, r);
    assert r == e.src || r == e.dst;
    assert BothPast(e, i, at);
    assert at[e.src] == i && at[e.dst] == i;
    EndOfTransfer(s, w, at, e.src);
    EndOfTransfer(s, w, at, e.dst);
    m := Meet(e.src, e.dst);
  }

  lemma EndOfTransfer(s: Scene, w: World, at: seq<nat>, r: int)
    requires Sound(s, w, at) && 0 <= r < s.n && at[r] < |s.script| && s.script[at[r]].Transfer?
    requires r == s.script[at[r]].src || r == s.script[at[r]].dst
    ensures Ready(w, r)
    ensures var e := s.script[at[r]];
            Head(w, r) ==
            if r == e.src then Send(e.phase, e.dst, e.bits, e.offset) else Recv(e.phase, e.src, e.bits, e.offset)
  {
    assert Placed(s.script, w.todo[r], at[r], r);
    PlacedHead(s.script, s.n, w.todo[r], at[r], r);
    assert Part(s.script[at[r]], r)[0] == w.todo[r][0];
  }

  lemma AtSync(s: Scene, w: World, at: seq<nat>, r: int)
    requires Sound(s, w, at) && 0 <= r < s.n && at[r] < |s.script| && s.script[at[r]].Sync?
    ensures Ready(w, r) && Head(w, r) == Barrier(s.script[at[r]].phase)
  {
    assert Placed(s.script, w.todo[r], at[r], r);
    PlacedHead(s.script, s.n, w.todo[r], at[r], r);
    assert Part(s.script[at[r]], r)[0] == w.todo[r][0];
  }

  /** At a barrier, either someone can still enter, or all are in and someone can leave. */
  lemma BarrierEnabled(s: Scene, w: World, at: seq<nat>, r: nat) returns (m: Move)
    requires Sound(s, w, at) && r < s.n && at[r] < |s.script| && s.script[at[r]].Sync?
    requires forall q :: 0 <= q < s.n ==> at[r] <= at[q]
    ensures Enabled(w, s.key, m)
  {
    AtSync(s, w, at, r);
    var c := CrowdAt(s, at, w.waiting);
    var b := c.passed[r];
    AtBarrier(s, w, at, r);
    if !w.waiting[r] {
      m := Enter(r);
    } else if q :| 0 <= q < s.n && Reached(c, q) <= b {
      SyncsMonotone(s.script, at[r], at[q]);
      AtSync(s, w, at, q);
      m := Enter(q);
    } else {
      AllIn(s.Group(), c, w.table, r);
      m := Leave(r);
    }
  }

  lemma AllIn(p: Party, c: Crowd, table: Table, r: nat)
    requires Orderly(p, c, table) && r < p.size && c.waiting[r] && c.passed[r] < |p.phases|
    requires forall q :: 0 <= q < p.size ==> Reached(c, q) > c.passed[r]
    ensures Open(table, p.At(c.passed[r]))
  {
    var b := c.passed[r];
    assert r in Arrivals(p, c, b);
    AllOrFewer(p, Arrivals(p, c, b));
    AllOrFewer(p, Departures(p, c, b));
    assert r !in Departures(p, c, b);
    assert Live(p, c, b) && Recorded(p, c, table, b);
  }

  lemma Progress(s: Scene, w: World, at: seq<nat>) returns (m: Move)
    requires Sound(s, w, at) && !Finished(w)
    ensures Enabled(w, s.key, m)
  {
    var r := Hindmost(at);
    assert Placed(s.script, w.todo[r], at[r], r);
    var q :| 0 <= q < |w.todo| && w.todo[q] != [];
    assert Placed(s.script, w.todo[q], at[q], q);
    PlacedHead(s.script, s.n, w.todo[q], at[q], q);
    match s.script[at[r]]
    case Transfer(_, _, _, _, _) => m := TransferEnabled(s, w, at, r);
    case Sync(_) => m := BarrierEnabled(s, w, at, r);
    case Reduce(phase, _) =>
      PlacedHead(s.script, s.n, w.todo[r], at[r], r);
      assert Part(s.script[at[r]], r)[0] == w.todo[r][0];
      m := Work(r);
  }

  // ---- Finiteness -----------------------------------------------------------------------------

  /** Twice the actions left, less one for each rank already inside its barrier. */
  function Effort(todo: seq<seq<Action>>, waiting: seq<bool>): int
    requires |todo| == |waiting|
  {
    if todo == [] then 0
    else
      var n := |todo| - 1;
      Effort(todo[..n], waiting[..n]) + 2 * |todo[n]| - if waiting[n] then 1 else 0
  }

  lemma {:induction false} EffortUpdate(todo: seq<seq<Action>>, waiting: seq<bool>, r: nat, a: seq<Action>, b: bool)
    requires |todo| == |waiting| && r < |todo|
    ensures Effort(todo[r := a], waiting[r := b]) - Effort(todo, waiting)
            == 2 * (|a| - |todo[r]|) + (if waiting[r] then 1 else 0) - (if b then 1 else 0)
  {
    var n := |todo| - 1;
    if r < n {
      assert todo[r := a][..n] == todo[..n][r := a] && waiting[r := b][..n] == waiting[..n][r := b];
      EffortUpdate(todo[..n], waiting[..n], r, a, b);
    } else {
      assert todo[r := a][..n] == todo[..n] && waiting[r := b][..n] == waiting[..n];
    }
  }

  lemma MoveCosts(w: World, key: CollectiveKey, size: int, m: Move)
    requires |w.todo| == |w.waiting| && Do(w, key, size, m).Went?
    ensures var w' := Do(w, key, size, m).world;
            |w'.todo| == |w'.waiting| == |w.todo| && Effort(w'.todo, w'.waiting) < Effort(w.todo, w.waiting)
  {
    match m
    case Meet(src, dst) =>
      EffortUpdate(w.todo, w.waiting, src, w.todo[src][1..], w.waiting[src]);
      EffortUpdate(Pop(w.todo, src), w.waiting, dst, w.todo[dst][1..], w.waiting[dst]);
      assert w.waiting[src := w.waiting[src]] == w.waiting && w.waiting[dst := w.waiting[dst]] == w.waiting;
    case Work(r) =>
      EffortUpdate(w.todo, w.waiting, r, w.todo[r][1..], w.waiting[r]);
      assert w.waiting[r := w.waiting[r]] == w.waiting;
    case Enter(r) =>
      EffortUpdate(w.todo, w.waiting, r, w.todo[r], true);
      EffortUpdate(w.todo, w.waiting, r, w.todo[r][1..], w.waiting[r]);
      assert w.waiting[r := w.waiting[r]] == w.waiting && w.todo[r := w.todo[r]] == w.todo;
    case Leave(r) =>
      EffortUpdate(w.todo, w.waiting, r, w.todo[r][1..], false);
  }

  lemma {:induction false} EffortBound(todo: seq<seq<Action>>, waiting: seq<bool>)
    requires |todo| == |waiting| && forall r :: 0 <= r < |todo| && waiting[r] ==> todo[r] != []
    ensures Effort(todo, waiting) >= 0
  {
    if todo != [] {
      EffortBound(todo[..|todo| - 1], waiting[..|todo| - 1]);
    }
  }

  lemma {:induction false} MovesCost(script: seq<Event>, n: nat, size: int, key: CollectiveKey, moves: seq<Move>)
    requires After(script, n, size, key, moves).Went?
    ensures var w := After(script, n, size, key, moves).world;
            && |w.todo| == |w.waiting| == n
            && |moves| + Effort(w.todo, w.waiting) <= Effort(Start(script, n).todo, Start(script, n).waiting)
  {
    if moves != [] {
      MovesCost(script, n, size, key, moves[..|moves| - 1]);
      MoveCosts(After(script, n, size, key, moves[..|moves| - 1]).world, key, size, moves[|moves| - 1]);
    }
  }

  // ---- Main results ---------------------------------------------------------------------------

  /** A collective as its ranks run it: the script of a valid descriptor with fewer than 65536 ranks. */
  predicate Runnable(d: Descriptor) {
    d.Typed() && PlanCheck(d, d.selfRank) == Passed && |d.group| < U16
  }

  function SceneOf(d: Descriptor): Scene {
    Scene(Script(d), |d.group|, d.key)
  }

  function Running(d: Descriptor, moves: seq<Move>): CollRun.Outcome {
    After(Script(d), |d.group|, Ranks(d), d.key, moves)
  }

  lemma {:induction false} FanFormed(skip: int, k: nat, f: int -> Event, n: nat)
    requires k <= n && forall x :: 0 <= x < k && x != skip ==> Formed([f(x)], n)
    ensures Formed(Fan(skip, k, f), n)
  {
    if k > 0 {
      FanFormed(skip, k - 1, f, n);
      if k - 1 != skip {
        assert Formed([f(k - 1)], n);
        FormedConcat(Fan(skip, k - 1, f), [f(k - 1)], n);
      }
    }
  }

  lemma FormedConcat(a: seq<Event>, b: seq<Event>, n: nat)
    requires Formed(a, n) && Formed(b, n)
    ensures Formed(a + b, n)
  {
  }

  lemma {:induction false} TurnsFormed(k: nat, turn: int -> seq<Event>, n: nat)
    requires forall x :: 0 <= x < k ==> Formed(turn(x), n)
    ensures Formed(Turns(k, turn), n)
  {
    if k > 0 {
      TurnsFormed(k - 1, turn, n);
      FormedConcat(Turns(k - 1, turn), turn(k - 1), n);
      FormedConcat(Turns(k - 1, turn) + turn(k - 1), [Sync(k - 1)], n);
    }
  }

  lemma CollectFormed(d: Descriptor, n: nat)
    requires 0 <= d.rootRank < n
    ensures Formed(Collect(d, n), n)
  {
    TurnsFormed(n, x => Contribution(d, x), n);
  }

  lemma SpreadFormed(d: Descriptor, phase: int, n: nat)
    requires 0 <= d.rootRank < n
    ensures Formed(Spread(d, phase, n), n)
  {
    FanFormed(d.rootRank, n, x => Shared(d, phase, x), n);
  }

  lemma ExchangeFormed(d: Descriptor, n: nat)
    ensures Formed(Exchange(d, n, n), n)
  {
    forall x | 0 <= x < n
      ensures Formed(Turn(d, x, n), n)
    {
      FanFormed(x, n, y => Exchanged(d, x, y), n);
    }
    TurnsFormed(n, x => Turn(d, x, n), n);
  }

  lemma ReductionFormed(d: Descriptor, n: nat)
    requires 0 <= d.rootRank < n
    ensures Formed(Reduction(d, n), n)
  {
    var phase := (n + 1) % U16;
    CollectFormed(d, n);
    FormedConcat(Collect(d, n), [Reduce(n, d.rootRank), Sync(n)], n);
    SpreadFormed(d, phase, n);
    FormedConcat(Rooted(Collect(d, n), d, n), Spread(d, phase, n), n);
    FormedConcat(Rooted(Collect(d, n), d, n) + Spread(d, phase, n), [Sync(phase)], n);
  }

  lemma ScriptFormed(d: Descriptor)
    requires Runnable(d)
    ensures Formed(Script(d), |d.group|) && Ranks(d) == |d.group|
  {
    var n := |d.group|;
    SmallMod(n, U16);
    match d.op
    case REDUCE => ReductionFormed(d, n);
    case REDUCESCATTER => ReductionFormed(d, n);
    case ALLREDUCE => ReductionFormed(d, n);
    case P2P =>
    case BROADCAST => SpreadFormed(d, 0, n);
    case SCATTER => SpreadFormed(d, 0, n);
    case GATHER => CollectFormed(d, n);
    case ALLGATHER => ExchangeFormed(d, n);
    case ALLTOALL => ExchangeFormed(d, n);
  }

  lemma SceneValid(d: Descriptor)
    requires Runnable(d)
    ensures SceneOf(d).Valid() && SceneOf(d).n > 0 && Ranks(d) == |d.group|
  {
    ScriptFormed(d);
    ScriptSyncs(d);
    PhaseAt(d);
  }

  lemma {:induction false} FanSame(skip: int, k: nat, f: int -> Event, g: int -> Event)
    requires forall x :: f(x) == g(x)
    ensures Fan(skip, k, f) == Fan(skip, k, g)
  {
    if k > 0 {
      FanSame(skip, k - 1, f, g);
    }
  }

  lemma {:induction false} TurnsSame(k: nat, f: int -> seq<Event>, g: int -> seq<Event>)
    requires forall x :: f(x) == g(x)
    ensures Turns(k, f) == Turns(k, g)
  {
    if k > 0 {
      TurnsSame(k - 1, f, g);
    }
  }

  lemma SpreadSame(d: Descriptor, rank: int, phase: int, k: nat)
    ensures Spread(d.(selfRank := rank), phase, k) == Spread(d, phase, k)
  {
    var e := d.(selfRank := rank);
    FanSame(d.rootRank, k, x => Shared(e, phase, x), x => Shared(d, phase, x));
  }

  lemma CollectSame(d: Descriptor, rank: int, k: nat)
    ensures Collect(d.(selfRank := rank), k) == Collect(d, k)
  {
    var e := d.(selfRank := rank);
    TurnsSame(k, x => Contribution(e, x), x => Contribution(d, x));
  }

  lemma ExchangeSame(d: Descriptor, rank: int, n: nat, k: nat)
    ensures Exchange(d.(selfRank := rank), n, k) == Exchange(d, n, k)
  {
    var e := d.(selfRank := rank);
    forall s
      ensures Turn(e, s, n) == Turn(d, s, n)
    {
      FanSame(s, n, x => Exchanged(e, s, x), x => Exchanged(d, s, x));
    }
    TurnsSame(k, x => Turn(e, x, n), x => Turn(d, x, n));
  }

  /** Each rank plans from its own copy of the descriptor; they all describe the one script. */
  lemma OneScript(d: Descriptor, rank: int)
    ensures Script(d.(selfRank := rank)) == Script(d)
  {
    var n := Ranks(d);
    SpreadSame(d, rank, 0, n);
    SpreadSame(d, rank, (n + 1) % U16, n);
    CollectSame(d, rank, n);
    ExchangeSame(d, rank, n, n);
  }

  lemma NextMove(d: Descriptor, moves: seq<Move>) returns (m: Move)
    requires Runnable(d) && Running(d, moves).Went? && !Finished(Running(d, moves).world)
    ensures Enabled(Running(d, moves).world, d.key, m)
  {
    SceneValid(d);
    var at := RunSound(SceneOf(d), moves);
    m := Progress(SceneOf(d), Running(d, moves).world, at);
  }

  lemma OneMoreMove(d: Descriptor, moves: seq<Move>, m: Move)
    requires Running(d, moves).Went?
    ensures Running(d, moves + [m]) == Do(Running(d, moves).world, d.key, Ranks(d), m)
  {
    assert (moves + [m])[..|moves|] == moves;
  }

  lemma NeverFails(d: Descriptor, moves: seq<Move>)
    requires Runnable(d)
    ensures !Running(d, moves).Failed?
  {
    SceneValid(d);
    var _ := RunSound(SceneOf(d), moves);
  }

  /** In every reachable state no barrier call has failed, and either all plans are done or some step can be taken. */
  lemma DeadlockFree(d: Descriptor, moves: seq<Move>)
    requires Runnable(d)
    ensures !Running(d, moves).Failed?
    ensures Running(d, moves).Went? && !Finished(Running(d, moves).world) ==> exists m :: Running(d, moves + [m]).Went?
  {
    NeverFails(d, moves);
    if Running(d, moves).Went? && !Finished(Running(d, moves).world) {
      var m := NextMove(d, moves);
      NeverFails(d, moves + [m]);
      OneMoreMove(d, moves, m);
      EnabledMoves(Running(d, moves).world, d.key, Ranks(d), m);
      assert Running(d, moves + [m]).Went?;
    }
  }

  /** Which planned collectives never make a barrier refuse a rank. */
  predicate BarriersAccept(d: Descriptor) {
    |d.group| < U16 || d.op in {GATHER, ALLGATHER, ALLTOALL}
  }

  /**
   * With 65536 ranks the 16-bit group size is zero, which the barrier refuses; only the operations whose
   * barriers are all inside the rank loop escape, as that loop then runs no turn at all.
   */
  lemma NeverFailsIff(d: Descriptor)
    requires d.Typed() && PlanCheck(d, d.selfRank) == Passed
    ensures (forall moves :: !Running(d, moves).Failed?) <==> BarriersAccept(d)
  {
    GroupSize(d);
    if |d.group| < U16 {
      forall moves
        ensures !Running(d, moves).Failed?
      {
        NeverFails(d, moves);
      }
    } else if BarriersAccept(d) {
      assert Script(d) == [];
      forall moves
        ensures !Running(d, moves).Failed?
      {
        NothingPlanned(|d.group|, Ranks(d), d.key, moves);
      }
    } else {
      FirstBarrierFails(d);
    }
  }

  /** An instance: the broadcast over every core id is planned, and its ranks fail at their first barrier. */
  lemma EveryCoreRefused()
    ensures PlanCheck(EveryCore(), 0) == Passed && exists moves :: Running(EveryCore(), moves).Failed?
  {
    EveryCoreValid();
    NeverFailsIff(EveryCore());
  }

  lemma {:induction false} NothingPlanned(n: nat, size: int, key: CollectiveKey, moves: seq<Move>)
    ensures !After([], n, size, key, moves).Failed?
    ensures After([], n, size, key, moves).Went? ==> moves == []
  {
    if moves != [] {
      NothingPlanned(n, size, key, moves[..|moves| - 1]);
    }
  }

  /** A rank that starts with a barrier has its first move refused. */
  lemma FirstBarrierFails(d: Descriptor)
    requires d.Typed() && PlanCheck(d, d.selfRank) == Passed && |d.group| == U16 && !BarriersAccept(d)
    ensures exists moves :: Running(d, moves).Failed?
  {
    var r := if d.rootRank == 0 then 1 else 0;
    StartsWithBarrier(d, r);
    EnterFails(Start(Script(d), |d.group|), d.key, r);
    OneMoreMove(d, [], Enter(r));
    assert Running(d, [] + [Enter(r)]).Failed?;
  }

  lemma EnterFails(w: World, key: CollectiveKey, r: nat)
    requires r < |w.todo| == |w.waiting| && w.todo[r] != [] && w.todo[r][0].Barrier? && !w.waiting[r]
    ensures Do(w, key, 0, Enter(r)) == CollRun.Failed(BadRank)
  {
  }

  /** Of the operations left, any rank but the root plans a barrier first. */
  lemma StartsWithBarrier(d: Descriptor, r: int)
    requires PlanCheck(d, d.selfRank) == Passed && Ranks(d) == 0 && !BarriersAccept(d) && r != d.rootRank
    ensures Project(Script(d), r) != [] && Project(Script(d), r)[0] == Barrier(0)
  {
    if IsReduction(d.op) {
      ReductionStartsWithBarrier(d, r);
    } else {
      assert d.op == BROADCAST || d.op == SCATTER;
      ProjectSnoc(Spread(d, 0, 0), Sync(0), r);
    }
  }

  lemma ReductionStartsWithBarrier(d: Descriptor, r: int)
    requires r != d.rootRank
    ensures Project(Reduction(d, 0), r) != [] && Project(Reduction(d, 0), r)[0] == Barrier(0)
  {
    var done := Rooted([], d, 0);
    ProjectSnoc([], Reduce(0, d.rootRank), r);
    ProjectSnoc([Reduce(0, d.rootRank)], Sync(0), r);
    assert done == [Reduce(0, d.rootRank)] + [Sync(0)];
    if d.op != REDUCE {
      assert Scattered(done, d, 0) == done + [Sync(1)];
      ProjectSnoc(done, Sync(1), r);
    }
  }

  lemma EnabledMoves(w: World, key: CollectiveKey, size: int, m: Move)
    requires Enabled(w, key, m)
    ensures Do(w, key, size, m) != NotEnabled
  {
  }

  /** Every run is finite: no more than two moves for each planned action. */
  lemma RunsAreFinite(d: Descriptor, moves: seq<Move>)
    requires Runnable(d) && Running(d, moves).Went?
    ensures |moves| <= Effort(Start(Script(d), |d.group|).todo, Start(Script(d), |d.group|).waiting)
  {
    SceneValid(d);
    var at := RunSound(SceneOf(d), moves);
    MovesCost(Script(d), |d.group|, Ranks(d), d.key, moves);
    var w := Running(d, moves).world;
    forall r | 0 <= r < |w.todo| && w.waiting[r]
      ensures w.todo[r] != []
    {
      AtSync(SceneOf(d), w, at, r);
    }
    EffortBound(w.todo, w.waiting);
  }

  /** A finished run leaves no barrier state behind and no one blocked. */
  lemma FinishesClean(d: Descriptor, moves: seq<Move>)
    requires Runnable(d) && Running(d, moves).Went? && Finished(Running(d, moves).world)
    ensures Running(d, moves).world.table == map[]
    ensures forall r :: 0 <= r < |Running(d, moves).world.waiting| ==> !Running(d, moves).world.waiting[r]
  {
    SceneValid(d);
    var s := SceneOf(d);
    var at := RunSound(s, moves);
    var w := Running(d, moves).world;
    forall r | 0 <= r < s.n
      ensures at[r] == |s.script| && !w.waiting[r]
    {
      assert Placed(s.script, w.todo[r], at[r], r);
      PlacedHead(s.script, s.n, w.todo[r], at[r], r);
    }
    assert s.script[..|s.script|] == s.script;
    EndEmpty(s.Group(), CrowdAt(s, at, w.waiting), w.table);
  }

  /** Barriers a rank has passed, and has reached, in a state. */
  function BarriersPassed(d: Descriptor, w: World, r: int): int
    requires 0 <= r < |w.todo|
  {
    |Barriers(Project(Script(d), r))| - |Barriers(w.todo[r])|
  }

  lemma PassedIsPosition(s: Scene, todo: seq<Action>, i: int, r: int)
    requires Placed(s.script, todo, i, r)
    ensures |Syncs(s.script[..i])| == |Syncs(s.script)| - |Barriers(todo)|
  {
    SharedBarriers(s.script[i..], r);
    SyncsSplit(s.script, i);
  }

  lemma SyncsSplit(script: seq<Event>, i: nat)
    requires i <= |script|
    ensures |Syncs(script)| == |Syncs(script[..i])| + |Syncs(script[i..])|
  {
    SyncsConcat(script[..i], script[i..]);
    assert script[..i] + script[i..] == script;
  }

  /** No rank has passed a barrier that another has not reached: a barrier holds back everyone until all are there. */
  lemma BarriersHold(d: Descriptor, moves: seq<Move>, q: nat, r: nat)
    requires Runnable(d) && Running(d, moves).Went? && q < |d.group| && r < |d.group|
    ensures var w := Running(d, moves).world;
            && |w.todo| == |w.waiting| == |d.group|
            && BarriersPassed(d, w, q) <= BarriersPassed(d, w, r) + if w.waiting[r] then 1 else 0
  {
    SceneValid(d);
    var s := SceneOf(d);
    var at := RunSound(s, moves);
    var w := Running(d, moves).world;
    assert Placed(s.script, w.todo[q], at[q], q) && Placed(s.script, w.todo[r], at[r], r);
    PassedIsPosition(s, w.todo[q], at[q], q);
    PassedIsPosition(s, w.todo[r], at[r], r);
    SharedBarriers(Script(d), q);
    SharedBarriers(Script(d), r);
    var c := CrowdAt(s, at, w.waiting);
    assert c.passed[q] <= Reached(c, r);
  }

  /** When a send meets a receive, both planned the same size and offset. */
  lemma EndsAgree(d: Descriptor, moves: seq<Move>, src: int, dst: int)
    requires Runnable(d) && Running(d, moves).Went? && Enabled(Running(d, moves).world, d.key, Meet(src, dst))
    ensures var w := Running(d, moves).world;
            Head(w, src).bits == Head(w, dst).bits && Head(w, src).offset == Head(w, dst).offset
  {
    SceneValid(d);
    var at := RunSound(SceneOf(d), moves);
    MeetSameEvent(SceneOf(d), Running(d, moves).world, at, src, dst);
  }
}
