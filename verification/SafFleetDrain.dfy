/** Progress in a group: a reserved flow drains in a time set by the pace and the size of the group. */
module SafFleetDrain {
  import opened Basics
  import opened FlowLedger
  import opened SafRuntime
  import opened BoundedLink
  import opened SafLink
  import opened SafSafety
  import opened SafProgress
  import opened SafDrain
  import opened SafFleet
  import A = GroupArbiter
  import G = SafGroup
  import C = SafContent

  // ---- One link in one cycle ------------------------------------------------------------------

  /** A departure is waiting for tokens or room, or its request is with the arbiter and is made again each cycle. */
  datatype Phase = Waiting(wait: int) | Asking

  /** At the next decision both buckets can pay and the pipe has room, whatever happens. */
  predicate Eager(st: SafState, cfg: SafConfig) {
    && st.portTokens + cfg.portRate.num >= cfg.portRate.den && st.tokens + cfg.rate.num >= cfg.rate.den
    && |st.inflight| < cfg.inflightDepth
  }

  predicate InPhase(st: SafState, cfg: SafConfig, arb: A.Arbiter, r: int, phase: Phase) {
    match phase
    case Waiting(wait) => wait >= 0 && Soon(st, cfg, arb.cycle, wait)
    case Asking => r in arb.pending && Eager(st, cfg)
  }

  /** Cycles until the next packet of the link leaves, at most. */
  function Rest(members: set<int>, arb: A.Arbiter, r: int, phase: Phase): int {
    match phase
    case Waiting(wait) => wait + |members| + 1
    case Asking => |A.Ahead(members, arb.lastWinner, r)|
  }

  lemma Unserved(st: SafState, cfg: SafConfig, cyc: int, inp: SafInputs, gate: SafState, st': SafState)
    requires gate == Gate(st, cfg, cyc, inp) && Cycle(st, cfg, cyc, inp) == Fine(st')
    requires !inp.granted || !Requests(gate, cfg)
    ensures Finish(gate, cfg, cyc, inp) == Fine(st')
  {
  }

  lemma LoserIsEager(gate: SafState, cfg: SafConfig, cyc: int, inp: SafInputs, st': SafState)
    requires Capable(cfg) && Requests(gate, cfg) && Finish(gate, cfg, cyc, inp) == Fine(st')
    ensures Eager(st', cfg)
  {
    FinishPipe(gate, cfg, cyc, inp, st');
  }

  /** What a link between two cycles must be like for the argument. */
  ghost predicate Placed(st: SafState, cfg: SafConfig, cyc: int, key: FlowKey) {
    Queued(st) && st.mem == [] && key in st.ready && Bounded(st, cfg, cyc)
  }

  /** The packets ahead of the flow's end and the phase of the next, as one distance. */
  function Far(left: int, rest: int, size: nat, pace: int): int {
    left * (pace + size + 1) + rest
  }

  lemma FewerIsNearer(left: int, rest: int, size: nat, pace: int)
    requires rest >= 0
    ensures Far(left - 1, pace - 1 + size + 1, size, pace) < Far(left, rest, size, pace)
  {
    OneMore(left - 1, pace + size + 1);
  }

  /** A link served in this cycle sends its head on. */
  lemma ServedNearer(st: SafState, cfg: SafConfig, cyc: int, inp: SafInputs, key: FlowKey, pace: int, gate: SafState,
          st': SafState)
    requires Capable(cfg) && Pace(cfg, pace) && Placed(st, cfg, cyc - 1, key)
    requires inp.granted && gate == Gate(st, cfg, cyc, inp) && Requests(gate, cfg) && !Drains(gate, cfg, true, key)
    requires Cycle(st, cfg, cyc, inp) == Fine(st')
    ensures key in st'.ready && Left(st', key) == Left(st, key) - 1 && Soon(st', cfg, cyc, pace - 1)
  {
    GateQueued(st, cfg, cyc, inp, key, gate);
    CycleParts(st, cfg, cyc, inp, gate, st');
    CycleSoon(st, cfg, cyc, inp, pace, st');
    LeavingNearer(gate, cfg, cyc, inp, key, st');
  }

  lemma LoserStays(st: SafState, cfg: SafConfig, cyc: int, inp: SafInputs, key: FlowKey, gate: SafState, st': SafState)
    requires Capable(cfg) && Placed(st, cfg, cyc - 1, key)
    requires !inp.granted && gate == Gate(st, cfg, cyc, inp) && Requests(gate, cfg)
               && Cycle(st, cfg, cyc, inp) == Fine(st')
    ensures key in st'.ready && Left(st', key) == Left(st, key) && Eager(st', cfg)
  {
    GateQueued(st, cfg, cyc, inp, key, gate);
    Unserved(st, cfg, cyc, inp, gate, st');
    LoserIsEager(gate, cfg, cyc, inp, st');
    FinishBehind(gate, cfg, cyc, inp, key, st');
  }

  lemma IdleNearer(st: SafState, cfg: SafConfig, cyc: int, inp: SafInputs, key: FlowKey, wait: int, gate: SafState,
          st': SafState)
    requires Capable(cfg) && Placed(st, cfg, cyc - 1, key) && wait >= 0 && Soon(st, cfg, cyc - 1, wait) && inp.outAvail
    requires gate == Gate(st, cfg, cyc, inp) && !Requests(gate, cfg) && Cycle(st, cfg, cyc, inp) == Fine(st')
    ensures wait > 0 && Soon(st', cfg, cyc, wait - 1) && key in st'.ready && Left(st', key) == Left(st, key)
  {
    GateQueued(st, cfg, cyc, inp, key, gate);
    Unserved(st, cfg, cyc, inp, gate, st');
    GateNearer(st, cfg, cyc, inp, wait);
    WaitingNearer(gate, cfg, cyc, inp, key, wait, st');
  }

  lemma EagerAsks(st: SafState, cfg: SafConfig, cyc: int, inp: SafInputs)
    requires Eager(st, cfg) && st.ready != []
    ensures Requests(Gate(st, cfg, cyc, inp), cfg)
  {
    G.GateRequest(st, cfg, cyc, inp);
  }

  // ---- One link of the group ------------------------------------------------------------------

  /** The group's books in one cycle, without the reservations behind them. */
  ghost predicate Linked(g: Group, f: Fleet, ins: map<int, SafEnv>, r: int, f': Fleet) {
    && Capable(g.cfg) && f.loops.Keys == ins.Keys == f'.loops.Keys == g.members && r in g.members
    && f.arb.pending <= g.members && f'.arb == A.Round(f.arb, Askers(g, f, ins))
    && Cycles(g, f, ins, r, f'.loops[r].st)
  }

  lemma StepLinks(g: Group, f: Fleet, ins: map<int, SafEnv>, r: int, f': Fleet)
    requires Ok(g, f) && Fits(g, ins) && Steps(g, f, ins, f') && r in g.members
    ensures Linked(g, f, ins, r, f')
  {
    LinkCycles(g, f, ins, f', r);
  }

  /** The flow's last packet leaves link `r` in this cycle. */
  ghost predicate DrainsNow(g: Group, f: Fleet, ins: map<int, SafEnv>, r: int, key: FlowKey)
    requires r in f.loops && r in ins
  {
    Drains(GateOf(g, f, ins, r), g.cfg, Wins(g, f, ins, r), key)
  }

  ghost predicate PlacedIn(g: Group, f: Fleet, r: int, key: FlowKey) {
    r in f.loops && Placed(f.loops[r].st, g.cfg, f.arb.cycle, key)
  }

  ghost predicate PhaseIn(g: Group, f: Fleet, r: int, phase: Phase) {
    r in f.loops && InPhase(f.loops[r].st, g.cfg, f.arb, r, phase)
  }

  ghost function Distance(g: Group, f: Fleet, r: int, key: FlowKey, phase: Phase, pace: int): int
    requires r in f.loops
  {
    Far(Left(f.loops[r].st, key), Rest(g.members, f.arb, r, phase), |g.members|, pace)
  }

  lemma GateAnswered(g: Group, f: Fleet, ins: map<int, SafEnv>, r: int)
    requires r in f.loops && r in ins
    ensures Gate(f.loops[r].st, g.cfg, f.arb.cycle + 1, LinkInput(f.loops[r], Answered(g, f, ins, r)))
              == GateOf(g, f, ins, r)
  {
    G.GateIgnoresGrant(f.loops[r].st, g.cfg, f.arb.cycle + 1, LinkInput(f.loops[r], ins[r]), Wins(g, f, ins, r));
  }

  lemma WinnerNearer(g: Group, f: Fleet, ins: map<int, SafEnv>, r: int, f': Fleet, key: FlowKey, pace: int,
          phase: Phase)
    requires Linked(g, f, ins, r, f') && Pace(g.cfg, pace) && PlacedIn(g, f, r, key) && PhaseIn(g, f, r, phase)
    requires Wins(g, f, ins, r) && !DrainsNow(g, f, ins, r, key)
    ensures key in f'.loops[r].st.ready && PhaseIn(g, f', r, Waiting(pace - 1))
    ensures Distance(g, f', r, key, Waiting(pace - 1), pace) < Distance(g, f, r, key, phase, pace)
  {
    GateAnswered(g, f, ins, r);
    PendingAfter(g, f, ins);
    ServedNearer(f.loops[r].st, g.cfg, f.arb.cycle + 1, LinkInput(f.loops[r], Answered(g, f, ins, r)), key, pace,
                 GateOf(g, f, ins, r), f'.loops[r].st);
    FewerIsNearer(Left(f.loops[r].st, key), Rest(g.members, f.arb, r, phase), |g.members|, pace);
  }

  lemma LoserDistance(g: Group, f: Fleet, ins: map<int, SafEnv>, r: int, f': Fleet, key: FlowKey, pace: int,
          phase: Phase)
    requires Linked(g, f, ins, r, f') && PlacedIn(g, f, r, key) && PhaseIn(g, f, r, phase)
    requires Asks(g, f, ins, r) && !Wins(g, f, ins, r)
    ensures key in f'.loops[r].st.ready && PhaseIn(g, f', r, Asking)
    ensures Distance(g, f', r, key, Asking, pace) < Distance(g, f, r, key, phase, pace)
  {
    GateAnswered(g, f, ins, r);
    LoserNearer(g, f, ins, r, f');
    LoserStays(f.loops[r].st, g.cfg, f.arb.cycle + 1, LinkInput(f.loops[r], Answered(g, f, ins, r)), key,
               GateOf(g, f, ins, r), f'.loops[r].st);
  }

  lemma IdleDistance(g: Group, f: Fleet, ins: map<int, SafEnv>, r: int, f': Fleet, key: FlowKey, pace: int,
          phase: Phase)
    requires Linked(g, f, ins, r, f') && PlacedIn(g, f, r, key) && PhaseIn(g, f, r, phase)
    requires !Asks(g, f, ins, r) && ins[r].outAvail
    ensures phase.Waiting? && key in f'.loops[r].st.ready && PhaseIn(g, f', r, Waiting(phase.wait - 1))
    ensures Distance(g, f', r, key, Waiting(phase.wait - 1), pace) < Distance(g, f, r, key, phase, pace)
  {
    GateAnswered(g, f, ins, r);
    PendingAfter(g, f, ins);
    if phase.Asking? {
      EagerAsks(f.loops[r].st, g.cfg, f.arb.cycle + 1, LinkInput(f.loops[r], ins[r]));
    }
    IdleNearer(f.loops[r].st, g.cfg, f.arb.cycle + 1, LinkInput(f.loops[r], Answered(g, f, ins, r)), key, phase.wait,
               GateOf(g, f, ins, r), f'.loops[r].st);
  }

  /** In each cycle with the remote router open, the flow drains or comes nearer to draining. */
  lemma TurnNearer(g: Group, f: Fleet, ins: map<int, SafEnv>, r: int, f': Fleet, key: FlowKey, pace: int, phase: Phase)
    returns (phase': Phase)
    requires Linked(g, f, ins, r, f') && Pace(g.cfg, pace) && PlacedIn(g, f, r, key) && PhaseIn(g, f, r, phase)
    requires ins[r].outAvail && !DrainsNow(g, f, ins, r, key)
    ensures key in f'.loops[r].st.ready && PhaseIn(g, f', r, phase')
    ensures Distance(g, f', r, key, phase', pace) < Distance(g, f, r, key, phase, pace)
  {
    if Wins(g, f, ins, r) {
      WinnerNearer(g, f, ins, r, f', key, pace, phase);
      phase' := Waiting(pace - 1);
    } else if Asks(g, f, ins, r) {
      LoserDistance(g, f, ins, r, f', key, pace, phase);
      phase' := Asking;
    } else {
      IdleDistance(g, f, ins, r, f', key, pace, phase);
      phase' := Waiting(phase.wait - 1);
    }
  }

  // ---- Runs of the group ----------------------------------------------------------------------

  /** No memory flit on the link, and its stages within their bounds. */
  ghost predicate Calm(g: Group, f: Fleet, r: int) {
    r in f.loops && NoMemory(f.loops[r]) && Bounded(f.loops[r].st, g.cfg, f.arb.cycle)
  }

  lemma AssembledCalm(g: Group, r: int)
    requires g.Valid() && r in g.members
    ensures Calm(g, Assembled(g), r)
  {
  }

  lemma MoveKeepsNoMemory(g: Group, f: Fleet, ins: map<int, SafEnv>, r: int, l: SafLoop)
    requires g.Valid() && r in g.members && r in f.loops && r in ins && Safe(g.At(r), f.loops[r])
               && Foreign(g.At(r), ins[r].ops)
    requires Moves(g, f, ins, r, l) && NoMemory(f.loops[r]) && OffersMessage(ins[r])
    ensures NoMemory(l)
  {
    StepKeepsNoMemory(g.At(r), f.loops[r], f.arb.cycle + 1, Answered(g, f, ins, r));
  }

  lemma StepKeepsCalm(g: Group, f: Fleet, ins: map<int, SafEnv>, f': Fleet, r: int)
    requires Ok(g, f) && Fits(g, ins) && Steps(g, f, ins, f') && r in g.members && Calm(g, f, r)
               && OffersMessage(ins[r])
    ensures Calm(g, f', r)
  {
    LinkMoves(g, f, ins, f', r);
    MoveKeepsNoMemory(g, f, ins, r, f'.loops[r]);
    LinkCycles(g, f, ins, f', r);
    PendingAfter(g, f, ins);
    CycleKeepsBounds(f.loops[r].st, g.cfg, f.arb.cycle + 1, LinkInput(f.loops[r], Answered(g, f, ins, r)),
        f'.loops[r].st);
  }

  predicate Messages(ins: seq<map<int, SafEnv>>, r: int) {
    forall k :: 0 <= k < |ins| ==> r in ins[k] && OffersMessage(ins[k][r])
  }

  /** A run in which link `r` is offered no memory flits, from a calm state. */
  ghost predicate CalmRun(g: Group, fleets: seq<Fleet>, ins: seq<map<int, SafEnv>>, r: int) {
    Run(g, fleets, ins) && r in g.members && Calm(g, fleets[0], r) && Messages(ins, r)
  }

  lemma {:induction false} CalmAlways(g: Group, fleets: seq<Fleet>, ins: seq<map<int, SafEnv>>, r: int, k: nat)
    requires CalmRun(g, fleets, ins, r) && k <= |ins|
    ensures Calm(g, fleets[k], r)
  {
    if k > 0 {
      CalmAlways(g, fleets, ins, r, k - 1);
      assert StepsAt(g, fleets, ins, k - 1);
      StepKeepsCalm(g, fleets[k - 1], ins[k - 1], fleets[k], r);
    }
  }

  lemma SafeStage(s: Site, l: SafLoop)
    requires Safe(s, l)
    ensures Queued(l.st) && Sum(Sizes(l.st.flows)) <= s.cfg.safDepth
  {
    BuffersQueued(l.st);
  }

  lemma OkStage(g: Group, f: Fleet, r: int)
    requires Ok(g, f) && r in g.members
    ensures r in f.loops && Queued(f.loops[r].st) && Sum(Sizes(f.loops[r].st.flows)) <= g.cfg.safDepth
  {
    assert Seen(r);
    SafeStage(g.At(r), f.loops[r]);
  }

  lemma DistanceBounds(g: Group, f: Fleet, r: int, key: FlowKey, phase: Phase, pace: int)
    requires Ok(g, f) && r in g.members && PhaseIn(g, f, r, phase) && pace >= 1
    ensures Distance(g, f, r, key, phase, pace) >= 0
    ensures phase == Waiting(pace - 1) ==>
              Distance(g, f, r, key, phase, pace) < (g.cfg.safDepth + 1) * (pace + |g.members| + 1)
  {
    OkStage(g, f, r);
    var st, each := f.loops[r].st, pace + |g.members| + 1;
    AheadBelowSum(Sizes(st.flows), st.ready, key);
    MulMono(0, Left(st, key), each);
    MulMono(Left(st, key), g.cfg.safDepth, each);
    OneMore(g.cfg.safDepth, each);
  }

  predicate OpenFrom(ins: seq<map<int, SafEnv>>, r: int, j: nat) {
    forall k :: j <= k < |ins| ==> r in ins[k] && ins[k][r].outAvail
  }

  lemma NearerAt(g: Group, fleets: seq<Fleet>, ins: seq<map<int, SafEnv>>, r: int, key: FlowKey, pace: int,
          phase: Phase, j: nat)
    returns (phase': Phase)
    requires CalmRun(g, fleets, ins, r) && Pace(g.cfg, pace) && j < |ins| && OpenFrom(ins, r, j)
    requires PhaseIn(g, fleets[j], r, phase) && key in fleets[j].loops[r].st.ready
    requires r in ins[j] && !DrainsNow(g, fleets[j], ins[j], r, key)
    ensures PhaseIn(g, fleets[j + 1], r, phase') && key in fleets[j + 1].loops[r].st.ready
    ensures 0 <= Distance(g, fleets[j + 1], r, key, phase', pace) < Distance(g, fleets[j], r, key, phase, pace)
  {
    assert StepsAt(g, fleets, ins, j);
    CalmAlways(g, fleets, ins, r, j);
    OkStage(g, fleets[j], r);
    StepLinks(g, fleets[j], ins[j], r, fleets[j + 1]);
    phase' := TurnNearer(g, fleets[j], ins[j], r, fleets[j + 1], key, pace, phase);
    StepKeepsOk(g, fleets[j], ins[j], fleets[j + 1]);
    DistanceBounds(g, fleets[j + 1], r, key, phase', pace);
  }

  lemma {:induction false} DrainsFrom(g: Group, fleets: seq<Fleet>, ins: seq<map<int, SafEnv>>, r: int, key: FlowKey,
          pace: int, phase: Phase, j: nat)
    returns (k: nat)
    requires CalmRun(g, fleets, ins, r) && Pace(g.cfg, pace) && j < |ins| && OpenFrom(ins, r, j)
    requires PhaseIn(g, fleets[j], r, phase) && key in fleets[j].loops[r].st.ready
    requires |ins| - j > Distance(g, fleets[j], r, key, phase, pace)
    ensures j <= k < |ins| && r in fleets[k].loops && r in ins[k] && DrainsNow(g, fleets[k], ins[k], r, key)
    decreases |ins| - j
  {
    if DrainsNow(g, fleets[j], ins[j], r, key) {
      k := j;
    } else {
      var phase' := NearerAt(g, fleets, ins, r, key, pace, phase, j);
      k := DrainsFrom(g, fleets, ins, r, key, pace, phase', j + 1);
    }
  }

  // ---- From the first packet to the last ------------------------------------------------------

  ghost predicate HasSentIn(g: Group, f: Fleet, r: int, key: FlowKey, n: int, total: int) {
    && r in f.loops && 0 <= r < |f.loops[r].rt.books.links|
    && key in f.loops[r].sent && f.loops[r].sent[key] == n
    && key in Claims(g.At(r), f.loops[r].rt) && Claims(g.At(r), f.loops[r].rt)[key] == total
  }

  lemma SafeShaped(s: Site, l: SafLoop)
    requires Safe(s, l)
    ensures 0 <= s.link < |l.rt.books.links|
  {
  }

  lemma SendStep(g: Group, f: Fleet, ins: map<int, SafEnv>, f': Fleet, r: int, key: FlowKey, n: int, total: int)
    requires Ok(g, f) && Fits(g, ins) && Steps(g, f, ins, f') && r in g.members && Calm(g, f, r)
    requires HasSentIn(g, f, r, key, n, total) && n < total && IsPacket(ins[r].data, key, n + 1, total)
    ensures HasSentIn(g, f', r, key, n + 1, total)
  {
    LinkMoves(g, f, ins, f', r);
    MoveKeepsSafe(g, f, ins, r, f'.loops[r]);
    SafeShaped(g.At(r), f'.loops[r]);
    NextIsSent(g.At(r), f.loops[r], f.arb.cycle + 1, Answered(g, f, ins, r), key);
  }

  lemma TailMove(g: Group, f: Fleet, ins: map<int, SafEnv>, f': Fleet, r: int, key: FlowKey, total: int)
    requires Ok(g, f) && Fits(g, ins) && Steps(g, f, ins, f') && r in g.members
    requires HasSentIn(g, f, r, key, total, total) && Carries(f.loops[r].wire, key)
    ensures HasSentIn(g, f', r, key, total, total) && !Carries(f'.loops[r].wire, key)
  {
    LinkMoves(g, f, ins, f', r);
    MoveKeepsSafe(g, f, ins, r, f'.loops[r]);
    SafeShaped(g.At(r), f'.loops[r]);
    TailStep(g.At(r), f.loops[r], f.arb.cycle + 1, Answered(g, f, ins, r), key, total);
  }

  /** The flow's packets are offered to link `r` one in each of the first `total - from` cycles. */
  predicate OfferedTo(ins: seq<map<int, SafEnv>>, r: int, key: FlowKey, from: int, total: int) {
    forall k :: 0 <= k < |ins| && k < total - from ==> r in ins[k] && IsPacket(ins[k][r].data, key, from + 1 + k, total)
  }

  lemma {:induction false} SentBefore(g: Group, fleets: seq<Fleet>, ins: seq<map<int, SafEnv>>, r: int, key: FlowKey,
          from: int, total: int, k: nat)
    requires CalmRun(g, fleets, ins, r) && HasSentIn(g, fleets[0], r, key, from, total)
               && OfferedTo(ins, r, key, from, total)
    requires k <= |ins| && k <= total - from
    ensures HasSentIn(g, fleets[k], r, key, from + k, total)
  {
    if k > 0 {
      SentBefore(g, fleets, ins, r, key, from, total, k - 1);
      CalmAlways(g, fleets, ins, r, k - 1);
      assert StepsAt(g, fleets, ins, k - 1);
      SendStep(g, fleets[k - 1], ins[k - 1], fleets[k], r, key, from + k - 1, total);
    }
  }

  lemma WholeIsQueued(g: Group, f: Fleet, r: int, key: FlowKey, total: int, pace: int)
    requires Ok(g, f) && r in g.members && Calm(g, f, r) && Pace(g.cfg, pace)
    requires HasSentIn(g, f, r, key, total, total) && !Carries(f.loops[r].wire, key)
    ensures key in f.loops[r].st.ready && PhaseIn(g, f, r, Waiting(pace - 1))
    ensures Distance(g, f, r, key, Waiting(pace - 1), pace) < (g.cfg.safDepth + 1) * (pace + |g.members| + 1)
  {
    assert Seen(r);
    SentIsQueued(g.At(r), f.loops[r], key);
    BoundedSoon(f.loops[r].st, g.cfg, f.arb.cycle, pace);
    DistanceBounds(g, f, r, key, Waiting(pace - 1), pace);
  }

  /** The cycle from which a wholly sent flow is in the queue. */
  lemma SettledBy(g: Group, fleets: seq<Fleet>, ins: seq<map<int, SafEnv>>, r: int, key: FlowKey, total: int, j: nat)
    returns (i: nat)
    requires CalmRun(g, fleets, ins, r) && j < |ins| && HasSentIn(g, fleets[j], r, key, total, total)
    ensures j <= i <= j + 1 && HasSentIn(g, fleets[i], r, key, total, total) && !Carries(fleets[i].loops[r].wire, key)
  {
    i := j;
    if Carries(fleets[j].loops[r].wire, key) {
      assert StepsAt(g, fleets, ins, j);
      TailMove(g, fleets[j], ins[j], fleets[j + 1], r, key, total);
      i := j + 1;
    }
  }

  /**
   * No starvation in a group: a flow announced earlier whose remaining packets are offered one a cycle has
   * drained within those cycles, one more, and `depth + 1` times the pace of the link and its wait for the arbiter.
   * All the other links of the group and all other flows do as they please.
   */
  lemma GroupedFlowDrains(g: Group, fleets: seq<Fleet>, ins: seq<map<int, SafEnv>>, r: int, key: FlowKey, from: int,
          total: int, pace: int)
    returns (k: nat)
    requires g.Valid() && CalmRun(g, fleets, ins, r) && Pace(g.cfg, pace) && from <= total
    requires HasSentIn(g, fleets[0], r, key, from, total) && OfferedTo(ins, r, key, from, total)
    requires OpenFrom(ins, r, total - from)
    requires |ins| > total - from + 1 + (g.cfg.safDepth + 1) * (pace + |g.members| + 1)
    ensures k < |ins| && r in fleets[k].loops && r in ins[k] && DrainsNow(g, fleets[k], ins[k], r, key)
  {
    var j: nat := total - from;
    MulMono(0, g.cfg.safDepth + 1, pace + |g.members| + 1);
    SentBefore(g, fleets, ins, r, key, from, total, j);
    var i := SettledBy(g, fleets, ins, r, key, total, j);
    assert StepsAt(g, fleets, ins, i);
    CalmAlways(g, fleets, ins, r, i);
    WholeIsQueued(g, fleets[i], r, key, total, pace);
    k := DrainsFrom(g, fleets, ins, r, key, pace, Waiting(pace - 1), i);
  }
}
