/**
 * All the links of one group together: each closed by a protocol-keeping upstream, each asking the group's one
 * arbiter. No error can occur, no asking link is passed over for long, and every reserved flow drains in time.
 */
module SafFleet {
  import opened Basics
  import opened FlowLedger
  import opened SafRuntime
  import opened SafAgreement
  import opened BoundedLink
  import opened SafLink
  import opened SafSafety
  import opened SafProgress
  import opened SafDrain
  import A = GroupArbiter
  import G = SafGroup
  import C = SafContent

  datatype Group = Group(topo: Topology, cfg: SafConfig, members: set<int>) {
    ghost predicate Valid() {
      && cfg.ctrlDepth >= 0 && Capable(cfg)
      && forall i :: i in members ==> 0 <= i < |topo|
    }
    function At(i: int): Site {
      Site(topo, i, cfg)
    }
  }

  /** Each link with its upstream and its view of the reservations, and the arbiter they share. */
  datatype Fleet = Fleet(loops: map<int, SafLoop>, arb: A.Arbiter)

  /** A mark: what is claimed of every link is used only of the links marked. */
  predicate Seen(i: int) {
    true
  }

  ghost predicate AllSafe(g: Group, loops: map<int, SafLoop>)
    requires loops.Keys == g.members
  {
    forall i {:trigger Seen(i)} :: Seen(i) && i in g.members ==> Safe(g.At(i), loops[i])
  }

  ghost predicate Ok(g: Group, f: Fleet) {
    g.Valid() && f.loops.Keys == g.members && f.arb.pending <= g.members && AllSafe(g, f.loops)
  }

  /** What the outside does to every link in a cycle. The arbiter, not the outside, answers requests. */
  ghost predicate Fits(g: Group, ins: map<int, SafEnv>) {
    ins.Keys == g.members && forall i {:trigger Seen(i)} :: Seen(i) && i in g.members ==> Foreign(g.At(i), ins[i].ops)
  }

  /** Link `i` at its departure decision in the coming cycle. */
  function GateOf(g: Group, f: Fleet, ins: map<int, SafEnv>, i: int): SafState
    requires i in f.loops && i in ins
  {
    Gate(f.loops[i].st, g.cfg, f.arb.cycle + 1, LinkInput(f.loops[i], ins[i]))
  }

  predicate Asks(g: Group, f: Fleet, ins: map<int, SafEnv>, i: int)
    requires i in f.loops && i in ins
  {
    Requests(GateOf(g, f, ins, i), g.cfg)
  }

  function Askers(g: Group, f: Fleet, ins: map<int, SafEnv>): set<int>
    requires f.loops.Keys == ins.Keys
  {
    set i | i in f.loops && Asks(g, f, ins, i)
  }

  ghost predicate Wins(g: Group, f: Fleet, ins: map<int, SafEnv>, i: int)
    requires i in f.loops && i in ins
  {
    A.Granted(f.arb, i, f.arb.cycle + 1, Asks(g, f, ins, i))
  }

  /** What link `i` is up against: the outside's doings and the arbiter's own answer. */
  ghost function Answered(g: Group, f: Fleet, ins: map<int, SafEnv>, i: int): SafEnv
    requires i in f.loops && i in ins
  {
    ins[i].(granted := Wins(g, f, ins, i))
  }

  ghost predicate Moves(g: Group, f: Fleet, ins: map<int, SafEnv>, i: int, l: SafLoop)
    requires g.Valid() && i in g.members && i in f.loops && i in ins && Safe(g.At(i), f.loops[i])
               && Foreign(g.At(i), ins[i].ops)
  {
    LoopStep(g.At(i), f.loops[i], f.arb.cycle + 1, Answered(g, f, ins, i)) == Good(l)
  }

  /** One cycle of the whole group, without an error in any link. */
  ghost predicate Steps(g: Group, f: Fleet, ins: map<int, SafEnv>, f': Fleet)
    requires Ok(g, f) && Fits(g, ins)
  {
    && f'.loops.Keys == g.members && f'.arb == A.Round(f.arb, Askers(g, f, ins))
    && forall i {:trigger Seen(i)} :: Seen(i) && i in g.members ==> Moves(g, f, ins, i, f'.loops[i])
  }

  lemma LoopStepSafe(s: Site, l: SafLoop, cyc: int, e: SafEnv)
    requires Safe(s, l) && Foreign(s, e.ops)
    ensures LoopStep(s, l, cyc, e).Good? && Safe(s, LoopStep(s, l, cyc, e).loop)
  {
    LinkPartSafe(s, l, cyc, e);
    OutsideSafe(s, LinkPart(s, l, cyc, e).loop, e);
  }

  lemma MoveKeepsSafe(g: Group, f: Fleet, ins: map<int, SafEnv>, i: int, l: SafLoop)
    requires g.Valid() && i in g.members && i in f.loops && i in ins && Safe(g.At(i), f.loops[i])
               && Foreign(g.At(i), ins[i].ops)
    requires Moves(g, f, ins, i, l)
    ensures Safe(g.At(i), l)
  {
    LoopStepSafe(g.At(i), f.loops[i], f.arb.cycle + 1, Answered(g, f, ins, i));
  }

  lemma MoveExists(g: Group, f: Fleet, ins: map<int, SafEnv>, i: int) returns (l: SafLoop)
    requires g.Valid() && i in g.members && i in f.loops && i in ins && Safe(g.At(i), f.loops[i])
               && Foreign(g.At(i), ins[i].ops)
    ensures Moves(g, f, ins, i, l)
  {
    LoopStepSafe(g.At(i), f.loops[i], f.arb.cycle + 1, Answered(g, f, ins, i));
    l := LoopStep(g.At(i), f.loops[i], f.arb.cycle + 1, Answered(g, f, ins, i)).loop;
  }

  lemma PendingAfter(g: Group, f: Fleet, ins: map<int, SafEnv>)
    requires f.loops.Keys == ins.Keys == g.members
    ensures A.Round(f.arb, Askers(g, f, ins)).pending == Askers(g, f, ins) <= g.members
    ensures A.Round(f.arb, Askers(g, f, ins)).cycle == f.arb.cycle + 1
  {
  }

  lemma StepKeepsOk(g: Group, f: Fleet, ins: map<int, SafEnv>, f': Fleet)
    requires Ok(g, f) && Fits(g, ins) && Steps(g, f, ins, f')
    ensures Ok(g, f')
  {
    PendingAfter(g, f, ins);
    forall i {:trigger Seen(i)} | Seen(i) && i in g.members
      ensures Safe(g.At(i), f'.loops[i])
    {
      MoveKeepsSafe(g, f, ins, i, f'.loops[i]);
    }
  }

  /** The moves of the links in `done`. */
  lemma {:induction false} MovesExist(g: Group, f: Fleet, ins: map<int, SafEnv>, done: set<int>)
    returns (loops: map<int, SafLoop>)
    requires Ok(g, f) && Fits(g, ins) && done <= g.members
    ensures loops.Keys == done
    ensures forall i {:trigger Seen(i)} :: Seen(i) && i in done ==> Moves(g, f, ins, i, loops[i])
  {
    if done == {} {
      loops := map[];
    } else {
      var i := Pick(done);
      var rest := MovesExist(g, f, ins, done - {i});
      assert Seen(i);
      var l := MoveExists(g, f, ins, i);
      loops := rest[i := l];
    }
  }

  /** A group in order can always go on: no link meets an error, whatever the outside does. */
  lemma StepExists(g: Group, f: Fleet, ins: map<int, SafEnv>) returns (f': Fleet)
    requires Ok(g, f) && Fits(g, ins)
    ensures Steps(g, f, ins, f')
  {
    var loops := MovesExist(g, f, ins, g.members);
    f' := Fleet(loops, A.Round(f.arb, Askers(g, f, ins)));
  }

  function Assembled(g: Group): Fleet {
    Fleet(map i | i in g.members :: StartLoop(g.At(i)), A.Idle())
  }

  lemma AssembledOk(g: Group)
    requires g.Valid()
    ensures Ok(g, Assembled(g))
  {
    forall i {:trigger Seen(i)} | Seen(i) && i in g.members
      ensures Safe(g.At(i), Assembled(g).loops[i])
    {
      StartSafe(g.At(i));
    }
  }

  // ---- Runs -----------------------------------------------------------------------------------

  ghost predicate StepsAt(g: Group, fleets: seq<Fleet>, ins: seq<map<int, SafEnv>>, k: nat)
    requires k < |ins| && |fleets| == |ins| + 1
  {
    Ok(g, fleets[k]) && Fits(g, ins[k]) && Steps(g, fleets[k], ins[k], fleets[k + 1])
  }

  /** A run of the group: its states, and what the outside does in the cycles between. */
  ghost predicate Run(g: Group, fleets: seq<Fleet>, ins: seq<map<int, SafEnv>>) {
    |fleets| == |ins| + 1 && forall k :: 0 <= k < |ins| ==> StepsAt(g, fleets, ins, k)
  }

  /** From any state in order there is a run for whatever the outside does, and it stays in order. */
  lemma {:induction false} RunExists(g: Group, f: Fleet, ins: seq<map<int, SafEnv>>) returns (fleets: seq<Fleet>)
    requires Ok(g, f) && forall k :: 0 <= k < |ins| ==> Fits(g, ins[k])
    ensures Run(g, fleets, ins) && fleets[0] == f && Ok(g, fleets[|ins|])
  {
    if ins == [] {
      fleets := [f];
    } else {
      var n := |ins| - 1;
      var before := RunExists(g, f, ins[..n]);
      var f' := StepExists(g, before[n], ins[n]);
      StepKeepsOk(g, before[n], ins[n], f');
      fleets := before + [f'];
      forall k | 0 <= k < |ins|
        ensures StepsAt(g, fleets, ins, k)
      {
        if k < n {
          assert StepsAt(g, before, ins[..n], k);
        }
      }
    }
  }

  lemma LinkMoves(g: Group, f: Fleet, ins: map<int, SafEnv>, f': Fleet, r: int)
    requires Ok(g, f) && Fits(g, ins) && Steps(g, f, ins, f') && r in g.members
    ensures Safe(g.At(r), f.loops[r]) && Foreign(g.At(r), ins[r].ops) && Moves(g, f, ins, r, f'.loops[r])
  {
    assert Seen(r);
  }

  /** The state of link `r` moves by the link's cycle, under the answer the arbiter gives it. */
  ghost predicate Cycles(g: Group, f: Fleet, ins: map<int, SafEnv>, r: int, st: SafState)
    requires r in f.loops && r in ins
  {
    Cycle(f.loops[r].st, g.cfg, f.arb.cycle + 1, LinkInput(f.loops[r], Answered(g, f, ins, r))) == Fine(st)
  }

  lemma MoveIsCycle(g: Group, f: Fleet, ins: map<int, SafEnv>, r: int, l: SafLoop)
    requires g.Valid() && r in g.members && r in f.loops && r in ins && Safe(g.At(r), f.loops[r])
               && Foreign(g.At(r), ins[r].ops)
    requires Moves(g, f, ins, r, l)
    ensures Cycles(g, f, ins, r, l.st)
  {
    LinkPartIsCycle(g.At(r), f.loops[r], f.arb.cycle + 1, Answered(g, f, ins, r));
  }

  /** All that the arguments below need of one link in one cycle. */
  lemma LinkCycles(g: Group, f: Fleet, ins: map<int, SafEnv>, f': Fleet, r: int)
    requires Ok(g, f) && Fits(g, ins) && Steps(g, f, ins, f') && r in g.members
    ensures r in f'.loops && Cycles(g, f, ins, r, f'.loops[r].st)
  {
    LinkMoves(g, f, ins, f', r);
    MoveIsCycle(g, f, ins, r, f'.loops[r]);
  }

  /** The calls a cycle makes to the arbiter: every link's, with its request. */
  ghost predicate CallsOf(g: Group, f: Fleet, ins: map<int, SafEnv>, calls: seq<(int, bool)>)
    requires f.loops.Keys == ins.Keys
  {
    && (forall k :: 0 <= k < |calls| ==> calls[k].0 in f.loops && (calls[k].1 <==> Asks(g, f, ins, calls[k].0)))
    && (forall i :: i in Askers(g, f, ins) ==> (i, true) in calls)
  }

  lemma CallersAreAskers(g: Group, f: Fleet, ins: map<int, SafEnv>, calls: seq<(int, bool)>)
    requires f.loops.Keys == ins.Keys && CallsOf(g, f, ins, calls)
    ensures A.Requesters(calls) == Askers(g, f, ins)
  {
    forall i
      ensures i in A.Requesters(calls) <==> i in Askers(g, f, ins)
    {
      if i in Askers(g, f, ins) {
        assert (i, true) in calls;
      }
    }
  }

  lemma StepIsRound(g: Group, f: Fleet, ins: map<int, SafEnv>, calls: seq<(int, bool)>)
    requires f.loops.Keys == ins.Keys && calls != [] && CallsOf(g, f, ins, calls)
    ensures A.Round(f.arb, Askers(g, f, ins)) == A.Calls(f.arb, f.arb.cycle + 1, calls)
  {
    CallersAreAskers(g, f, ins, calls);
    A.RoundIsCalls(f.arb, calls);
  }

  lemma CallIsAnswered(g: Group, f: Fleet, ins: map<int, SafEnv>, calls: seq<(int, bool)>, k: nat)
    requires f.loops.Keys == ins.Keys && k < |calls| && CallsOf(g, f, ins, calls)
    ensures Answered(g, f, ins, calls[k].0).granted <==> A.Answered(f.arb, f.arb.cycle + 1, calls, k)
  {
    A.CycleAnswer(f.arb, f.arb.cycle + 1, calls, k);
    assert calls[k].1 == Asks(g, f, ins, calls[k].0);
  }

  /**
   * The arbiter's state after the cycle is what its calls come to, and each link reads the answer to its own, in any
   * order.
   */
  lemma StepIsCalls(g: Group, f: Fleet, ins: map<int, SafEnv>, calls: seq<(int, bool)>)
    requires f.loops.Keys == ins.Keys && calls != [] && CallsOf(g, f, ins, calls)
    ensures A.Round(f.arb, Askers(g, f, ins)) == A.Calls(f.arb, f.arb.cycle + 1, calls)
    ensures forall k :: 0 <= k < |calls| ==>
              calls[k].0 in f.loops
              && (Answered(g, f, ins, calls[k].0).granted <==> A.Answered(f.arb, f.arb.cycle + 1, calls, k))
  {
    StepIsRound(g, f, ins, calls);
    forall k | 0 <= k < |calls|
      ensures calls[k].0 in f.loops
      ensures Answered(g, f, ins, calls[k].0).granted <==> A.Answered(f.arb, f.arb.cycle + 1, calls, k)
    {
      CallIsAnswered(g, f, ins, calls, k);
    }
  }

  // ---- No asking link is passed over for long -------------------------------------------------

  /** The packet link `i` sends into its physical link in the coming cycle, if any. */
  ghost function SentBy(g: Group, f: Fleet, ins: map<int, SafEnv>, i: int): Option<Packet>
    requires i in f.loops && i in ins
  {
    Departing(GateOf(g, f, ins, i), g.cfg, Wins(g, f, ins, i))
  }

  /** Members the rotation reaches before link `r`. */
  function Before(g: Group, f: Fleet, r: int): nat {
    |A.Ahead(g.members, f.arb.lastWinner, r)|
  }

  lemma WinnerSends(g: Group, f: Fleet, ins: map<int, SafEnv>, r: int, st: SafState)
    requires r in f.loops && r in ins && Cycles(g, f, ins, r, st) && Wins(g, f, ins, r)
    ensures SentBy(g, f, ins, r).Some?
  {
    G.GateIgnoresGrant(f.loops[r].st, g.cfg, f.arb.cycle + 1, LinkInput(f.loops[r], ins[r]), true);
    assert Depart(GateOf(g, f, ins, r), g.cfg, f.arb.cycle + 1, true).Fine?;
  }

  /** A link that asks and does not win asks again. */
  lemma LoserAsksAgain(g: Group, f: Fleet, ins: map<int, SafEnv>, r: int, f': Fleet, ins': map<int, SafEnv>)
    requires Capable(g.cfg) && r in f.loops && r in ins && r in f'.loops && r in ins'
    requires Asks(g, f, ins, r) && !Wins(g, f, ins, r) && Cycles(g, f, ins, r, f'.loops[r].st)
    ensures Asks(g, f', ins', r)
  {
    var inp := LinkInput(f.loops[r], Answered(g, f, ins, r));
    G.GateIgnoresGrant(f.loops[r].st, g.cfg, f.arb.cycle + 1, LinkInput(f.loops[r], ins[r]), false);
    G.RequestPersists(f.loops[r].st, g.cfg, f.arb.cycle + 1, inp, f'.arb.cycle + 1, LinkInput(f'.loops[r], ins'[r]));
  }

  /** And the rotation has come nearer to it, or its request is only now registered. */
  lemma LoserNearer(g: Group, f: Fleet, ins: map<int, SafEnv>, r: int, f': Fleet)
    requires f.loops.Keys == ins.Keys == g.members && r in g.members && f.arb.pending <= g.members
    requires Asks(g, f, ins, r) && !Wins(g, f, ins, r) && f'.arb == A.Round(f.arb, Askers(g, f, ins))
    ensures r in f'.arb.pending && Before(g, f', r) < |g.members|
    ensures r in f.arb.pending ==> Before(g, f', r) < Before(g, f, r)
  {
    A.AheadSmaller(g.members, f'.arb.lastWinner, r);
    if r in f.arb.pending {
      A.RotationAdvances(g.members, f.arb.pending, f.arb.lastWinner, r);
      SubsetStrict(A.Ahead(g.members, f'.arb.lastWinner, r), A.Ahead(g.members, f.arb.lastWinner, r));
    }
  }

  lemma SubsetStrict(a: set<int>, b: set<int>)
    requires a < b
    ensures |a| < |b|
  {
    SubsetSize(a, b);
  }

  lemma LoserStep(g: Group, fleets: seq<Fleet>, ins: seq<map<int, SafEnv>>, r: int, k: nat)
    requires Run(g, fleets, ins) && r in g.members && k + 1 < |ins|
    requires r in fleets[k].loops && r in ins[k] && Asks(g, fleets[k], ins[k], r) && !Wins(g, fleets[k], ins[k], r)
    ensures r in fleets[k + 1].loops && r in ins[k + 1] && Asks(g, fleets[k + 1], ins[k + 1], r)
    ensures r in fleets[k + 1].arb.pending && Before(g, fleets[k + 1], r) < |g.members|
    ensures r in fleets[k].arb.pending ==> Before(g, fleets[k + 1], r) < Before(g, fleets[k], r)
  {
    assert StepsAt(g, fleets, ins, k) && StepsAt(g, fleets, ins, k + 1);
    LinkCycles(g, fleets[k], ins[k], fleets[k + 1], r);
    LoserAsksAgain(g, fleets[k], ins[k], r, fleets[k + 1], ins[k + 1]);
    LoserNearer(g, fleets[k], ins[k], r, fleets[k + 1]);
  }

  lemma {:induction false} PendingSends(g: Group, fleets: seq<Fleet>, ins: seq<map<int, SafEnv>>, r: int, j: nat)
    returns (k: nat)
    requires Run(g, fleets, ins) && r in g.members && j < |ins|
    requires r in fleets[j].loops && r in ins[j] && Asks(g, fleets[j], ins[j], r) && r in fleets[j].arb.pending
    requires |ins| - j > Before(g, fleets[j], r)
    ensures j <= k < |ins| && k - j <= Before(g, fleets[j], r)
    ensures r in fleets[k].loops && r in ins[k] && SentBy(g, fleets[k], ins[k], r).Some?
    decreases |ins| - j
  {
    if Wins(g, fleets[j], ins[j], r) {
      assert StepsAt(g, fleets, ins, j);
      LinkCycles(g, fleets[j], ins[j], fleets[j + 1], r);
      WinnerSends(g, fleets[j], ins[j], r, fleets[j + 1].loops[r].st);
      k := j;
    } else {
      LoserRoom(g, fleets, ins, r, j);
      LoserStep(g, fleets, ins, r, j);
      k := PendingSends(g, fleets, ins, r, j + 1);
    }
  }

  /** The last member in the rotation's way cannot lose again. */
  lemma LoserRoom(g: Group, fleets: seq<Fleet>, ins: seq<map<int, SafEnv>>, r: int, j: nat)
    requires Run(g, fleets, ins) && r in g.members && j < |ins|
    requires r in fleets[j].loops && r in ins[j] && Asks(g, fleets[j], ins[j], r) && !Wins(g, fleets[j], ins[j], r)
    requires r in fleets[j].arb.pending
    ensures Before(g, fleets[j], r) > 0
  {
    assert StepsAt(g, fleets, ins, j);
    LoserNearer(g, fleets[j], ins[j], r, fleets[j + 1]);
  }

  /**
   * With protocol-keeping upstreams on all the links of a group, an asking link sends a packet in that cycle or
   * within as many further cycles as the group has links. There is no error that could come first.
   */
  lemma AskingLinkSends(g: Group, fleets: seq<Fleet>, ins: seq<map<int, SafEnv>>, r: int) returns (k: nat)
    requires Run(g, fleets, ins) && r in g.members && |ins| > |g.members|
    requires r in fleets[0].loops && r in ins[0] && Asks(g, fleets[0], ins[0], r)
    ensures k <= |g.members|
    ensures r in fleets[k].loops && r in ins[k] && SentBy(g, fleets[k], ins[k], r).Some?
  {
    if Wins(g, fleets[0], ins[0], r) {
      assert StepsAt(g, fleets, ins, 0);
      LinkCycles(g, fleets[0], ins[0], fleets[1], r);
      WinnerSends(g, fleets[0], ins[0], r, fleets[1].loops[r].st);
      k := 0;
    } else {
      LoserStep(g, fleets, ins, r, 0);
      k := PendingSends(g, fleets, ins, r, 1);
    }
  }
}
