/**
 * All ranks run their plans together: sends and receives meet in rendezvous, barriers go through the shared
 * barrier map. Every run stays free of errors and of deadlock, is finite, and ends with an empty map.
 */
module CollRun {
  import opened Basics
  import opened CollTypes
  import opened CollPlan
  import opened CollFit
  import opened Barrier

  /** What each rank has left to do, who is blocked in a barrier, and the barrier map. */
  datatype World = World(todo: seq<seq<Action>>, waiting: seq<bool>, table: Table)

  datatype Move = Meet(src: int, dst: int) | Work(rank: int) | Enter(rank: int) | Leave(rank: int)

  datatype Outcome = Went(world: World) | Failed(why: Arrival) | NotEnabled

  predicate Ready(w: World, r: int) {
    0 <= r < |w.todo| == |w.waiting| && w.todo[r] != []
  }

  function Head(w: World, r: int): Action
    requires Ready(w, r)
  {
    w.todo[r][0]
  }

  /** A send meets a receive that names it, in the same phase. */
  predicate Enabled(w: World, key: CollectiveKey, m: Move) {
    match m
    case Meet(src, dst) =>
      && src != dst && Ready(w, src) && Ready(w, dst)
      && Head(w, src).Send? && Head(w, dst).Recv?
      && Head(w, src).peer == dst && Head(w, dst).peer == src && Head(w, src).phase == Head(w, dst).phase
    case Work(r) => Ready(w, r) && Head(w, r).Compute?
    case Enter(r) => Ready(w, r) && Head(w, r).Barrier? && !w.waiting[r]
    case Leave(r) =>
      Ready(w, r) && Head(w, r).Barrier? && w.waiting[r] && Open(w.table, BarrierKey(key, Head(w, r).phase))
  }

  function Pop(todo: seq<seq<Action>>, r: int): seq<seq<Action>>
    requires 0 <= r < |todo| && todo[r] != []
  {
    todo[r := todo[r][1..]]
  }

  /** A rank calls the barrier; the last to arrive goes straight on. */
  function Join(w: World, k: BarrierKey, r: int, outcome: Arrival, joined: Table): Outcome
    requires Ready(w, r) && k in joined
  {
    if outcome == Waits then Went(w.(waiting := w.waiting[r := true], table := joined))
    else if outcome == Passes then Went(World(Pop(w.todo, r), w.waiting, Barrier.Departed(joined, k)))
    else Failed(outcome)
  }

  function Do(w: World, key: CollectiveKey, size: int, m: Move): Outcome {
    if !Enabled(w, key, m) then NotEnabled
    else
      match m
      case Meet(src, dst) => Went(w.(todo := Pop(Pop(w.todo, src), dst)))
      case Work(r) => Went(w.(todo := Pop(w.todo, r)))
      case Enter(r) =>
        var k := BarrierKey(key, Head(w, r).phase);
        Join(w, k, r, ArrivalOutcome(w.table, k, r, size, 0), Joined(w.table, k, r, size, 0))
      case Leave(r) =>
        var k := BarrierKey(key, Head(w, r).phase);
        Went(World(Pop(w.todo, r), w.waiting[r := false], Barrier.Departed(w.table, k)))
  }

  function Start(script: seq<Event>, n: nat): World {
    World(seq(n, r => Project(script, r)), seq(n, _ => false), map[])
  }

  /** The ranks after these moves; `size` is the group size each passes to the barrier. */
  function After(script: seq<Event>, n: nat, size: int, key: CollectiveKey, moves: seq<Move>): Outcome {
    if moves == [] then Went(Start(script, n))
    else
      var before := After(script, n, size, key, moves[..|moves| - 1]);
      if before.Went? then Do(before.world, key, size, moves[|moves| - 1]) else before
  }

  predicate Finished(w: World) {
    forall r :: 0 <= r < |w.todo| ==> w.todo[r] == []
  }

  // ---- Positions in the script ----------------------------------------------------------------

  /** Transfers are between two of the ranks, and the root is one of them. */
  predicate Formed(script: seq<Event>, n: nat) {
    forall i :: 0 <= i < |script| ==>
      match script[i]
      case Transfer(_, src, dst, _, _) => 0 <= src < n && 0 <= dst < n && src != dst
      case Sync(_) => true
      case Reduce(_, root) => 0 <= root < n
  }

  lemma {:induction false} ProjectConcat(a: seq<Event>, b: seq<Event>, rank: int)
    ensures Project(a + b, rank) == Project(a, rank) + Project(b, rank)
  {
    if b == [] {
      assert a + b == a;
    } else {
      assert a + b == a + b[..|b| - 1] + [b[|b| - 1]];
      ProjectConcat(a, b[..|b| - 1], rank);
      ProjectSnoc(a + b[..|b| - 1], b[|b| - 1], rank);
      Assoc(Project(a, rank), Project(b[..|b| - 1], rank), Part(b[|b| - 1], rank));
    }
  }

  lemma RestFrom(script: seq<Event>, i: nat, r: int)
    requires i < |script|
    ensures Project(script[i..], r) == Part(script[i], r) + Project(script[i + 1..], r)
  {
    assert script[i..] == [script[i]] + script[i + 1..];
    ProjectConcat([script[i]], script[i + 1..], r);
    ProjectOne(script[i], r);
  }

  lemma ProjectOne(e: Event, r: int)
    ensures Project([e], r) == Part(e, r)
  {
    assert [e][..0] == [];
    assert [] + Part(e, r) == Part(e, r);
  }

  /** The next event from `i` on in which the rank takes part. */
  function Skip(script: seq<Event>, i: nat, r: int): (j: nat)
    requires i <= |script|
    ensures i <= j <= |script|
    ensures j < |script| ==> Part(script[j], r) != []
    ensures forall x :: i <= x < j ==> Part(script[x], r) == []
    decreases |script| - i
  {
    if i == |script| || Part(script[i], r) != [] then i else Skip(script, i + 1, r)
  }

  lemma SyncsPrefix(script: seq<Event>, i: nat)
    requires i < |script|
    ensures Syncs(script[..i + 1]) == Syncs(script[..i]) + if script[i].Sync? then [script[i].phase] else []
  {
    assert script[..i + 1] == script[..i] + [script[i]];
    SyncsSnoc(script[..i], script[i]);
  }

  lemma {:induction false} SkipRest(script: seq<Event>, i: nat, r: int)
    requires i <= |script|
    ensures Project(script[Skip(script, i, r)..], r) == Project(script[i..], r)
    ensures |Syncs(script[..Skip(script, i, r)])| == |Syncs(script[..i])|
    decreases |script| - i
  {
    if i < |script| && Part(script[i], r) == [] {
      RestFrom(script, i, r);
      assert [] + Project(script[i + 1..], r) == Project(script[i + 1..], r);
      SkipRest(script, i + 1, r);
      SyncsPrefix(script, i);
    }
  }

  /** Rank `r` still has its part of the script from position `i`, where it takes part next. */
  predicate Placed(script: seq<Event>, todo: seq<Action>, i: int, r: int) {
    && 0 <= i <= |script|
    && todo == Project(script[i..], r)
    && (i < |script| ==> Part(script[i], r) != [])
  }

  lemma PlacedHead(script: seq<Event>, n: nat, todo: seq<Action>, i: int, r: int)
    requires Placed(script, todo, i, r) && Formed(script, n)
    ensures todo == [] <==> i == |script|
    ensures todo != [] ==> Part(script[i], r) == [todo[0]]
  {
    if i < |script| {
      RestFrom(script, i, r);
    }
  }

  lemma PlacedNext(script: seq<Event>, n: nat, todo: seq<Action>, i: int, r: int)
    requires Placed(script, todo, i, r) && Formed(script, n) && todo != []
    ensures i < |script| && Placed(script, todo[1..], Skip(script, i + 1, r), r)
    ensures |Syncs(script[..Skip(script, i + 1, r)])| == |Syncs(script[..i])| + if script[i].Sync? then 1 else 0
  {
    PlacedHead(script, n, todo, i, r);
    RestFrom(script, i, r);
    SkipRest(script, i + 1, r);
    assert todo[1..] == Project(script[i + 1..], r);
    SyncsPrefix(script, i);
  }

  // ---- The invariant --------------------------------------------------------------------------

  datatype Scene = Scene(script: seq<Event>, n: nat, key: CollectiveKey) {
    predicate Valid() {
      Formed(script, n) && n < U16 && Alternate(Syncs(script))
    }
    function Group(): Party {
      Party(key, Syncs(script), n, 0)
    }
  }

  function CrowdAt(s: Scene, at: seq<nat>, waiting: seq<bool>): Crowd
    requires |at| == s.n && forall r :: 0 <= r < s.n ==> at[r] <= |s.script|
  {
    Crowd(seq(s.n, r requires 0 <= r < s.n => |Syncs(s.script[..at[r]])|), waiting)
  }

  ghost predicate AllPlaced(s: Scene, todo: seq<seq<Action>>, at: seq<nat>) {
    && |todo| == |at| == s.n
    && (forall r :: 0 <= r < s.n ==> Placed(s.script, todo[r], at[r], r))
  }

  /** Both ends of a transfer are past it, or neither is. */
  ghost predicate Joint(s: Scene, at: seq<nat>) {
    forall x :: 0 <= x < |s.script| && s.script[x].Transfer? ==> BothPast(s.script[x], x, at)
  }

  predicate BothPast(e: Event, x: int, at: seq<nat>) {
    e.Transfer? && 0 <= e.src < |at| && 0 <= e.dst < |at| ==> (x < at[e.src] <==> x < at[e.dst])
  }

  ghost predicate WaitingAtSync(s: Scene, waiting: seq<bool>, at: seq<nat>) {
    |waiting| == |at| && forall r :: 0 <= r < |waiting| && waiting[r] ==> at[r] < |s.script| && s.script[at[r]].Sync?
  }

  ghost predicate Sound(s: Scene, w: World, at: seq<nat>) {
    && s.Valid() && s.n > 0
    && AllPlaced(s, w.todo, at) && Joint(s, at) && WaitingAtSync(s, w.waiting, at)
    && Orderly(s.Group(), CrowdAt(s, at, w.waiting), w.table)
  }

  function Moved(s: Scene, at: seq<nat>, r: int): seq<nat>
    requires 0 <= r < |at| && at[r] < |s.script|
  {
    at[r := Skip(s.script, at[r] + 1, r)]
  }

  /** Moving one rank on keeps everyone placed, and counts a barrier passed if that is what it moved past. */
  lemma MovedPlaced(s: Scene, todo: seq<seq<Action>>, at: seq<nat>, r: int)
    requires s.Valid() && AllPlaced(s, todo, at) && 0 <= r < s.n && todo[r] != []
    ensures at[r] < |s.script|
    ensures AllPlaced(s, Pop(todo, r), Moved(s, at, r))
    ensures |Syncs(s.script[..Moved(s, at, r)[r]])| ==
              |Syncs(s.script[..at[r]])| + if s.script[at[r]].Sync? then 1 else 0
  {
    assert Placed(s.script, todo[r], at[r], r);
    PlacedNext(s.script, s.n, todo[r], at[r], r);
    var at' := Moved(s, at, r);
    forall q | 0 <= q < s.n
      ensures Placed(s.script, Pop(todo, r)[q], at'[q], q)
    {
      assert Placed(s.script, todo[q], at[q], q);
    }
  }

  /** Moving a rank that is not waiting past anything but a barrier changes nothing the barriers see. */
  lemma MovedCrowd(s: Scene, todo: seq<seq<Action>>, at: seq<nat>, r: int, waiting: seq<bool>)
    requires s.Valid() && AllPlaced(s, todo, at) && 0 <= r < s.n && todo[r] != []
    requires at[r] < |s.script| && !s.script[at[r]].Sync? && WaitingAtSync(s, waiting, at)
    ensures WaitingAtSync(s, waiting, Moved(s, at, r))
    ensures AllPlaced(s, Pop(todo, r), Moved(s, at, r))
    ensures CrowdAt(s, Moved(s, at, r), waiting) == CrowdAt(s, at, waiting)
  {
    MovedPlaced(s, todo, at, r);
  }

  /** Moving a rank past the barrier at which it waits is leaving that barrier. */
  lemma MovedLeaves(s: Scene, todo: seq<seq<Action>>, at: seq<nat>, r: int, waiting: seq<bool>)
    requires s.Valid() && AllPlaced(s, todo, at) && 0 <= r < s.n && todo[r] != []
    requires at[r] < |s.script| && s.script[at[r]].Sync? && WaitingAtSync(s, waiting, at)
    ensures WaitingAtSync(s, waiting[r := false], Moved(s, at, r))
    ensures AllPlaced(s, Pop(todo, r), Moved(s, at, r))
    ensures CrowdAt(s, Moved(s, at, r), waiting[r := false]) == Leaves(CrowdAt(s, at, waiting), r)
  {
    MovedPlaced(s, todo, at, r);
  }

  /** Events a rank skips over are not its transfers. */
  lemma SkipsNoTransfer(s: Scene, at: seq<nat>, r: int, x: int)
    requires s.Valid() && |at| == s.n && 0 <= r < s.n && at[r] < |s.script|
    requires 0 <= x < |s.script| && s.script[x].Transfer? && x != at[r]
    requires BothPast(s.script[x], x, at)
    ensures BothPast(s.script[x], x, Moved(s, at, r))
  {
    var e := s.script[x];
    var j := Skip(s.script, at[r] + 1, r);
    if r == e.src || r == e.dst {
      assert Part(e, r) != [];
      assert !(at[r] + 1 <= x < j);
    }
  }

  lemma MovedJoint(s: Scene, at: seq<nat>, r: int)
    requires s.Valid() && |at| == s.n && Joint(s, at) && 0 <= r < s.n && at[r] < |s.script|
               && !s.script[at[r]].Transfer?
    ensures Joint(s, Moved(s, at, r))
  {
    forall x | 0 <= x < |s.script| && s.script[x].Transfer?
      ensures BothPast(s.script[x], x, Moved(s, at, r))
    {
      SkipsNoTransfer(s, at, r, x);
    }
  }

  /** The two heads of a rendezvous are the two ends of one event: sizes and offsets agree. */
  lemma MeetSameEvent(s: Scene, w: World, at: seq<nat>, src: int, dst: int)
    requires Sound(s, w, at) && Enabled(w, s.key, Meet(src, dst))
    ensures at[src] == at[dst] < |s.script|
    ensures s.script[at[src]] == Transfer(Head(w, src).phase, src, dst, Head(w, src).bits, Head(w, src).offset)
    ensures Head(w, src).bits == Head(w, dst).bits && Head(w, src).offset == Head(w, dst).offset
  {
    assert Placed(s.script, w.todo[src], at[src], src) && Placed(s.script, w.todo[dst], at[dst], dst);
    PlacedHead(s.script, s.n, w.todo[src], at[src], src);
    PlacedHead(s.script, s.n, w.todo[dst], at[dst], dst);
    EventOfPart(s.script[at[src]], src, Head(w, src));
    EventOfPart(s.script[at[dst]], dst, Head(w, dst));
    assert BothPast(s.script[at[src]], at[src], at);
    assert BothPast(s.script[at[dst]], at[dst], at);
  }

  lemma EventOfPart(e: Event, r: int, a: Action)
    requires Part(e, r) == [a]
    ensures a.Send? ==> e == Transfer(a.phase, r, a.peer, a.bits, a.offset)
    ensures a.Recv? ==> e == Transfer(a.phase, a.peer, r, a.bits, a.offset)
    ensures a.Barrier? ==> e == Sync(a.phase)
    ensures a.Compute? ==> e == Reduce(a.phase, r)
  {
    assert Part(e, r)[0] == a;
  }

  // ---- Every move keeps the invariant ---------------------------------------------------------

  lemma MeetJoint(s: Scene, at: seq<nat>, src: int, dst: int)
    requires s.Valid() && |at| == s.n && Joint(s, at) && 0 <= src < s.n && 0 <= dst < s.n && src != dst
    requires at[src] == at[dst] < |s.script| && s.script[at[src]].Transfer?
    requires s.script[at[src]].src == src && s.script[at[src]].dst == dst
    ensures Joint(s, Moved(s, Moved(s, at, src), dst))
  {
    forall x | 0 <= x < |s.script| && s.script[x].Transfer?
      ensures BothPast(s.script[x], x, Moved(s, Moved(s, at, src), dst))
    {
      if x != at[src] {
        SkipsNoTransfer(s, at, src, x);
        SkipsNoTransfer(s, Moved(s, at, src), dst, x);
      }
    }
  }

  lemma MeetSound(s: Scene, w: World, at: seq<nat>, src: int, dst: int) returns (at': seq<nat>)
    requires Sound(s, w, at) && Enabled(w, s.key, Meet(src, dst))
    ensures Sound(s, w.(todo := Pop(Pop(w.todo, src), dst)), at')
  {
    MeetSameEvent(s, w, at, src, dst);
    var at1 := Moved(s, at, src);
    MovedCrowd(s, w.todo, at, src, w.waiting);
    MovedCrowd(s, Pop(w.todo, src), at1, dst, w.waiting);
    MeetJoint(s, at, src, dst);
    at' := Moved(s, at1, dst);
  }

  lemma WorkSound(s: Scene, w: World, at: seq<nat>, r: int) returns (at': seq<nat>)
    requires Sound(s, w, at) && Enabled(w, s.key, Work(r))
    ensures Sound(s, w.(todo := Pop(w.todo, r)), at')
  {
    HeadEvent(s, w, at, r);
    MovedCrowd(s, w.todo, at, r, w.waiting);
    MovedJoint(s, at, r);
    at' := Moved(s, at, r);
  }

  lemma HeadEvent(s: Scene, w: World, at: seq<nat>, r: int)
    requires s.Valid() && AllPlaced(s, w.todo, at) && Ready(w, r)
    ensures at[r] < |s.script|
    ensures Head(w, r).Barrier? <==> s.script[at[r]].Sync?
    ensures Head(w, r).Barrier? ==> s.script[at[r]] == Sync(Head(w, r).phase)
    ensures Head(w, r).Compute? ==> s.script[at[r]].Reduce?
  {
    assert Placed(s.script, w.todo[r], at[r], r);
    PlacedHead(s.script, s.n, w.todo[r], at[r], r);
    EventOfPart(s.script[at[r]], r, Head(w, r));
  }

  /** The phase of the barrier at position `i` is the one its place in the barrier sequence says. */
  lemma SyncAt(script: seq<Event>, i: nat)
    requires i < |script| && script[i].Sync?
    ensures |Syncs(script[..i])| < |Syncs(script)| && Syncs(script)[|Syncs(script[..i])|] == script[i].phase
  {
    SyncsPrefix(script, i);
    SyncsConcat(script[..i + 1], script[i + 1..]);
    assert script[..i + 1] + script[i + 1..] == script;
  }

  lemma AtBarrier(s: Scene, w: World, at: seq<nat>, r: int)
    requires Sound(s, w, at) && Ready(w, r) && Head(w, r).Barrier?
    ensures var c := CrowdAt(s, at, w.waiting);
            && at[r] < |s.script| && s.script[at[r]].Sync?
            && c.passed[r] < |s.Group().phases| && s.Group().At(c.passed[r]) == BarrierKey(s.key, Head(w, r).phase)
  {
    HeadEvent(s, w, at, r);
    SyncAt(s.script, at[r]);
  }

  lemma EnterSound(s: Scene, w: World, at: seq<nat>, r: int) returns (at': seq<nat>)
    requires Sound(s, w, at) && Enabled(w, s.key, Enter(r))
    ensures Do(w, s.key, s.n, Enter(r)).Went? && Sound(s, Do(w, s.key, s.n, Enter(r)).world, at')
  {
    var k := BarrierKey(s.key, Head(w, r).phase);
    EnteredSound(s, w, at, r);
    at' := JoinSound(s, w, at, r, k, ArrivalOutcome(w.table, k, r, s.n, 0), Joined(w.table, k, r, s.n, 0));
  }

  lemma JoinSound(s: Scene, w: World, at: seq<nat>, r: int, k: BarrierKey, outcome: Arrival, joined: Table)
    returns (at': seq<nat>)
    requires Ready(w, r) && Head(w, r).Barrier? && !w.waiting[r] && k == BarrierKey(s.key, Head(w, r).phase)
               && k in joined
    requires Sound(s, World(w.todo, w.waiting[r := true], joined), at)
    requires outcome in {Waits, Passes} && (outcome == Passes <==> Open(joined, k))
    ensures Join(w, k, r, outcome, joined).Went? && Sound(s, Join(w, k, r, outcome, joined).world, at')
  {
    if outcome == Passes {
      at' := PassSound(s, World(w.todo, w.waiting[r := true], joined), w.waiting, at, r, k);
    } else {
      at' := at;
    }
  }

  lemma PassSound(s: Scene, entered: World, waiting: seq<bool>, at: seq<nat>, r: int, k: BarrierKey)
    returns (at': seq<nat>)
    requires Sound(s, entered, at) && Enabled(entered, s.key, Leave(r))
               && k == BarrierKey(s.key, Head(entered, r).phase)
    requires 0 <= r < |waiting| && !waiting[r] && entered.waiting == waiting[r := true]
    ensures Sound(s, World(Pop(entered.todo, r), waiting, Barrier.Departed(entered.table, k)), at')
  {
    at' := LeaveFrom(s, entered, at, r);
    assert entered.waiting[r := false] == waiting;
  }

  lemma EnteredSound(s: Scene, w: World, at: seq<nat>, r: int)
    requires Sound(s, w, at) && Enabled(w, s.key, Enter(r))
    ensures var k := BarrierKey(s.key, Head(w, r).phase);
            var joined := Joined(w.table, k, r, s.n, 0);
            && Sound(s, World(w.todo, w.waiting[r := true], joined), at)
            && ArrivalOutcome(w.table, k, r, s.n, 0) in {Waits, Passes}
            && (ArrivalOutcome(w.table, k, r, s.n, 0) == Passes <==> Open(joined, k))
  {
    AtBarrier(s, w, at, r);
    EnterOrderly(s.Group(), CrowdAt(s, at, w.waiting), w.table, r);
    assert CrowdAt(s, at, w.waiting[r := true]) == Enters(CrowdAt(s, at, w.waiting), r);
  }

  lemma LeaveFrom(s: Scene, w: World, at: seq<nat>, r: int) returns (at': seq<nat>)
    requires Sound(s, w, at) && Enabled(w, s.key, Leave(r))
    ensures Sound(s, World(Pop(w.todo, r), w.waiting[r := false],
              Barrier.Departed(w.table, BarrierKey(s.key, Head(w, r).phase))), at')
  {
    AtBarrier(s, w, at, r);
    LeaveOrderly(s.Group(), CrowdAt(s, at, w.waiting), w.table, r);
    MovedLeaves(s, w.todo, at, r, w.waiting);
    MovedJoint(s, at, r);
    at' := Moved(s, at, r);
  }

  lemma StepSound(s: Scene, w: World, at: seq<nat>, m: Move) returns (at': seq<nat>)
    requires Sound(s, w, at) && Enabled(w, s.key, m)
    ensures Do(w, s.key, s.n, m).Went? && Sound(s, Do(w, s.key, s.n, m).world, at')
  {
    match m
    case Meet(src, dst) => at' := MeetSound(s, w, at, src, dst);
    case Work(r) => at' := WorkSound(s, w, at, r);
    case Enter(r) => at' := EnterSound(s, w, at, r);
    case Leave(r) => at' := LeaveFrom(s, w, at, r);
  }

  lemma StartPlaced(s: Scene, r: int)
    requires s.Valid()
    ensures Placed(s.script, Project(s.script, r), Skip(s.script, 0, r), r)
    ensures |Syncs(s.script[..Skip(s.script, 0, r)])| == 0
  {
    SkipRest(s.script, 0, r);
    assert s.script[0..] == s.script && s.script[..0] == [];
  }

  lemma StartJoint(s: Scene, at: seq<nat>)
    requires s.Valid() && |at| == s.n && forall r :: 0 <= r < s.n ==> at[r] == Skip(s.script, 0, r)
    ensures Joint(s, at)
  {
    forall x | 0 <= x < |s.script| && s.script[x].Transfer?
      ensures BothPast(s.script[x], x, at)
    {
      var e := s.script[x];
      assert Part(e, e.src) != [] && Part(e, e.dst) != [];
    }
  }

  function StartPositions(s: Scene): (at: seq<nat>)
    ensures |at| == s.n
  {
    seq(s.n, r => Skip(s.script, 0, r))
  }

  lemma StartAllPlaced(s: Scene)
    requires s.Valid()
    ensures AllPlaced(s, Start(s.script, s.n).todo, StartPositions(s))
    ensures forall r :: 0 <= r < s.n ==> |Syncs(s.script[..StartPositions(s)[r]])| == 0
  {
    forall r | 0 <= r < s.n
      ensures Placed(s.script, Project(s.script, r), StartPositions(s)[r], r)
                && |Syncs(s.script[..StartPositions(s)[r]])| == 0
    {
      StartPlaced(s, r);
    }
  }

  lemma StartSound(s: Scene) returns (at: seq<nat>)
    requires s.Valid() && s.n > 0
    ensures Sound(s, Start(s.script, s.n), at)
  {
    at := StartPositions(s);
    StartAllPlaced(s);
    StartJoint(s, at);
    assert CrowdAt(s, at, Start(s.script, s.n).waiting) == Assembled(s.Group());
    StartOrderly(s.Group());
  }

  lemma {:induction false} RunSound(s: Scene, moves: seq<Move>) returns (at: seq<nat>)
    requires s.Valid() && s.n > 0
    ensures !After(s.script, s.n, s.n, s.key, moves).Failed?
    ensures After(s.script, s.n, s.n, s.key, moves).Went? ==>
              Sound(s, After(s.script, s.n, s.n, s.key, moves).world, at)
  {
    if moves == [] {
      at := StartSound(s);
    } else {
      at := RunSound(s, moves[..|moves| - 1]);
      var before := After(s.script, s.n, s.n, s.key, moves[..|moves| - 1]);
      if before.Went? && Enabled(before.world, s.key, moves[|moves| - 1]) {
        at := StepSound(s, before.world, at, moves[|moves| - 1]);
      }
    }
  }
}
