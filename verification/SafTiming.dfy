/**
 * When the production link moves a packet from stage to stage, told from its history alone: who was ready, what
 * had come in, and how many packets had passed each stage by each cycle.
 */
module SafTiming {
  import opened Basics
  import opened Rates
  import opened FlowLedger
  import opened BoundedLink
  import opened SafLink
  import opened SafContent
  import opened TokenBucket
  import L = CreditLoop
  import S = SafSafety

  // ---- Histories ------------------------------------------------------------------------------

  /** Cycle `n + 1` of a history. */
  ghost predicate StepAt(cfg: SafConfig, ins: seq<SafInputs>, h: seq<Trace>, n: nat)
    requires n < |ins| && n + 1 < |h|
  {
    TraceStep(h[n], cfg, n + 1, ins[n]) == Running(h[n + 1])
  }

  /** The link and its history after each cycle of a run, from reset on. */
  ghost predicate History(cfg: SafConfig, ins: seq<SafInputs>, h: seq<Trace>) {
    && |h| == |ins| + 1
    && Running(h[0]) == Traced(cfg, [])
    && forall n :: 0 <= n < |ins| ==> StepAt(cfg, ins, h, n)
  }

  /** Every run that no error stopped has its history. */
  lemma {:induction false} HistoryExists(cfg: SafConfig, ins: seq<SafInputs>) returns (h: seq<Trace>)
    requires Traced(cfg, ins).Running?
    ensures History(cfg, ins, h) && h[|ins|] == Traced(cfg, ins).trace
  {
    if ins == [] {
      h := [Traced(cfg, ins).trace];
    } else {
      var n := |ins| - 1;
      var before := HistoryExists(cfg, ins[..n]);
      h := before + [Traced(cfg, ins).trace];
      HistoryGrows(cfg, ins, before, h[n + 1]);
    }
  }

  lemma HistoryGrows(cfg: SafConfig, ins: seq<SafInputs>, before: seq<Trace>, t: Trace)
    requires ins != [] && History(cfg, ins[..|ins| - 1], before)
    requires TraceStep(before[|ins| - 1], cfg, |ins|, ins[|ins| - 1]) == Running(t)
    ensures History(cfg, ins, before + [t])
  {
    var n, h := |ins| - 1, before + [t];
    forall k | 0 <= k < |ins|
      ensures StepAt(cfg, ins, h, k)
    {
      if k < n {
        StepKept(cfg, ins, before, t, k);
      }
    }
  }

  lemma StepKept(cfg: SafConfig, ins: seq<SafInputs>, before: seq<Trace>, t: Trace, k: nat)
    requires k + 1 < |before| == |ins| && StepAt(cfg, ins[..|ins| - 1], before, k)
    ensures StepAt(cfg, ins, before + [t], k)
  {
  }

  lemma {:induction false} HistoryFaithful(cfg: SafConfig, ins: seq<SafInputs>, h: seq<Trace>, n: nat)
    requires History(cfg, ins, h) && n < |h|
    ensures Faithful(h[n])
  {
    if n == 0 {
      StartFaithful(cfg, h[0]);
    } else {
      HistoryFaithful(cfg, ins, h, n - 1);
      FaithfulNext(cfg, ins, h, n);
    }
  }

  lemma StartFaithful(cfg: SafConfig, t: Trace)
    requires Running(t) == Traced(cfg, [])
    ensures Faithful(t)
  {
    CarriesWholeFlows(cfg, []);
  }

  lemma FaithfulNext(cfg: SafConfig, ins: seq<SafInputs>, h: seq<Trace>, n: nat)
    requires History(cfg, ins, h) && 0 < n < |h| && Faithful(h[n - 1])
    ensures Faithful(h[n])
  {
    assert StepAt(cfg, ins, h, n - 1);
    StepFaithful(h[n - 1], cfg, n, ins[n - 1]);
  }

  /** The control packets that have come in. */
  function CtrlArrivals(ins: seq<SafInputs>): seq<Packet> {
    if ins == [] then [] else CtrlArrivals(ins[..|ins| - 1]) + L.OnWire(ins[|ins| - 1].ctrl)
  }

  // ---- Queues with stamps ---------------------------------------------------------------------

  /**
   * `counts[m]` packets had entered by cycle `m` and `gone` have left: each matures `latency` cycles after it
   * entered.
   */
  predicate Stamped(queue: seq<(int, Packet)>, counts: seq<int>, gone: nat, latency: int) {
    && counts != [] && counts[0] == 0 && counts[|counts| - 1] == gone + |queue|
    && (forall m :: 0 <= m < |counts| ==> counts[m] <= gone + |queue|)
    && (forall i, m :: 0 <= i < |queue| && 0 <= m < |counts| ==>
          (queue[i].0 <= m + latency <==> counts[m] > gone + i))
  }

  function Moved(queue: seq<(int, Packet)>, pop: bool, stamp: int, push: Option<Packet>): seq<(int, Packet)>
    requires pop ==> queue != []
  {
    (if pop then queue[1..] else queue) + if push.Some? then [(stamp, push.value)] else []
  }

  lemma StampedNext(queue: seq<(int, Packet)>, counts: seq<int>, gone: nat, latency: nat, pop: bool,
          push: Option<Packet>)
    requires Stamped(queue, counts, gone, latency) && (pop ==> queue != [])
    ensures Stamped(Moved(queue, pop, |counts| + latency, push), counts + [gone + |queue| + |L.OnWire(push)|],
                    gone + if pop then 1 else 0, latency)
  {
  }

  lemma HeadDue(queue: seq<(int, Packet)>, counts: seq<int>, gone: nat, latency: nat)
    requires Stamped(queue, counts, gone, latency)
    ensures var n, l := |counts| - 1, if latency > 0 then latency else 1;
            queue != [] && queue[0].0 <= n + 1 <==> n + 1 >= l && counts[n + 1 - l] > gone
  {
  }

  // ---- What a cycle moves ---------------------------------------------------------------------

  predicate Emits(st: SafState, inp: SafInputs) {
    inp.outAvail && st.rx != []
  }

  predicate Arrives(st: SafState, cfg: SafConfig, cyc: int, inp: SafInputs) {
    st.inflight != [] && st.inflight[0].0 <= cyc && |st.rx| - (if Emits(st, inp) then 1 else 0) < cfg.rxDepth
  }

  lemma GateMoves(st: SafState, cfg: SafConfig, cyc: int, inp: SafInputs)
    ensures var g, arrives := Gate(st, cfg, cyc, inp), Arrives(st, cfg, cyc, inp);
            && Emitted(st, inp.outAvail) == (if Emits(st, inp) then Some(st.rx[0]) else None)
            && |g.rx| == |st.rx| - (if Emits(st, inp) then 1 else 0) + (if arrives then 1 else 0)
            && g.inflight == (if arrives then st.inflight[1..] else st.inflight)
            && g.portTokens == st.portTokens + cfg.portRate.num && g.tokens == st.tokens + cfg.rate.num
            && g.ctrl == st.ctrl && Occupancy(g) == Occupancy(st)
  {
  }

  lemma DepartMoves(st: SafState, cfg: SafConfig, cyc: int, granted: bool)
    requires Depart(st, cfg, cyc, granted).Fine?
    ensures var gone, st' := Departing(st, cfg, granted), Depart(st, cfg, cyc, granted).st;
            && st'.rx == st.rx && st'.ctrl == st.ctrl
            && st'.inflight == st.inflight + (if gone.Some? then [(cyc + cfg.latency, gone.value)] else [])
            && st'.portTokens == st.portTokens - (if gone.Some? then cfg.portRate.den else 0)
            && st'.tokens == st.tokens - (if gone.Some? then cfg.rate.den else 0)
            && Occupancy(st') == Occupancy(st) - |L.OnWire(gone)|
  {
    S.DepartFrees(st, cfg, cyc, granted);
  }

  lemma AcceptMoves(st: SafState, cfg: SafConfig, cyc: int, arrival: Option<Packet>)
    requires AcceptCtrl(st, cfg, cyc, arrival).Fine?
    ensures var st' := AcceptCtrl(st, cfg, cyc, arrival).st;
            && st'.rx == st.rx && st'.inflight == st.inflight && st'.flows == st.flows && st'.mem == st.mem
            && st'.portTokens == st.portTokens && st'.tokens == st.tokens
            && st'.ctrl == Moved(st.ctrl, false, cyc + cfg.latency, arrival)
  {
  }

  lemma SettleMoves(st: SafState, cfg: SafConfig, cyc: int, inp: SafInputs)
    requires SafContent.Settled(st, cfg, cyc, inp).Fine?
    ensures var out, st' := CtrlOut(st, cyc, inp.outCtrlAvail), SafContent.Settled(st, cfg, cyc, inp).st;
            && st'.rx == st.rx && st'.inflight == st.inflight && Occupancy(st') == Occupancy(st)
            && st'.portTokens == Min(st.portTokens, cfg.portRate.den) && st'.tokens == Min(st.tokens, cfg.rate.den)
            && (out.Some? <==> st.ctrl != [] && st.ctrl[0].0 <= cyc && inp.outCtrlAvail)
            && (out.Some? ==> out.value == st.ctrl[0].1)
            && st'.ctrl == Moved(st.ctrl, out.Some?, cyc + cfg.latency, inp.ctrl)
  {
    AcceptMoves(DeliverCtrl(CapTokens(st, cfg), cyc, inp.outCtrlAvail), cfg, cyc, inp.ctrl);
  }

  lemma CaptureMoves(st: SafState, cfg: SafConfig, arrival: Option<Packet>)
    requires Capture(st, cfg, arrival).Fine?
    ensures var st' := Capture(st, cfg, arrival).st;
            && st'.rx == st.rx && st'.inflight == st.inflight && st'.ctrl == st.ctrl
            && st'.portTokens == st.portTokens && st'.tokens == st.tokens
            && Occupancy(st') == Occupancy(st) + |L.OnWire(arrival)|
  {
    if arrival.Some? {
      S.CaptureFills(st, arrival.value);
    }
  }

  /** The packet the link sends into its pipe in a cycle. */
  function SentIn(st: SafState, cfg: SafConfig, cyc: int, inp: SafInputs): Option<Packet> {
    Departing(Gate(st, cfg, cyc, inp), cfg, inp.granted)
  }

  /** A cycle's packets: to the router, into the pipe (`gone`), into the store-and-forward stage. */
  ghost predicate DataMoves(t: Trace, inp: SafInputs, gone: Option<Packet>, t': Trace) {
    && t'.delivered == t.delivered + (if Emits(t.st, inp) then [t.st.rx[0]] else [])
    && t'.departed == t.departed + L.OnWire(gone)
    && t'.captured == t.captured + L.OnWire(inp.data)
    && Occupancy(t'.st) == Occupancy(t.st) - |L.OnWire(gone)| + |L.OnWire(inp.data)|
  }

  /** The pipe and the receive stage. */
  predicate PipeMoves(st: SafState, cfg: SafConfig, cyc: int, inp: SafInputs, gone: Option<Packet>, st': SafState) {
    && |st'.rx| == |st.rx| - (if Emits(st, inp) then 1 else 0) + (if Arrives(st, cfg, cyc, inp) then 1 else 0)
    && st'.inflight == Moved(st.inflight, Arrives(st, cfg, cyc, inp), cyc + cfg.latency, gone)
  }

  function Paid(tokens: int, rate: Rate, sent: bool): int {
    Min(tokens + rate.num - if sent then rate.den else 0, rate.den)
  }

  /** The control path, `out` being what leaves. */
  predicate CtrlMoves(t: Trace, cfg: SafConfig, cyc: int, inp: SafInputs, out: Option<Packet>, t': Trace) {
    && (out.Some? <==> t.st.ctrl != [] && t.st.ctrl[0].0 <= cyc && inp.outCtrlAvail)
    && (out.Some? ==> out.value == t.st.ctrl[0].1)
    && t'.answered == t.answered + L.OnWire(out)
    && t'.st.ctrl == Moved(t.st.ctrl, out.Some?, cyc + cfg.latency, inp.ctrl)
  }

  lemma StepData(t: Trace, cfg: SafConfig, cyc: int, inp: SafInputs, t': Trace)
    requires TraceStep(t, cfg, cyc, inp) == Running(t')
    ensures DataMoves(t, inp, SentIn(t.st, cfg, cyc, inp), t')
  {
    GateMoves(t.st, cfg, cyc, inp);
    DepartMoves(Gate(t.st, cfg, cyc, inp), cfg, cyc, inp.granted);
    var d := Departed(Gated(t, cfg, cyc, inp), cfg, cyc, inp.granted).trace;
    SettleMoves(d.st, cfg, cyc, inp);
    CaptureMoves(SafContent.Settled(d.st, cfg, cyc, inp).st, cfg, inp.data);
  }

  lemma RestKeepsPipe(t: Trace, cfg: SafConfig, cyc: int, inp: SafInputs, t': Trace)
    requires TraceStep(t, cfg, cyc, inp) == Running(t')
    ensures var d := Depart(Gate(t.st, cfg, cyc, inp), cfg, cyc, inp.granted);
            d.Fine? && t'.st.rx == d.st.rx && t'.st.inflight == d.st.inflight
  {
    var d := Departed(Gated(t, cfg, cyc, inp), cfg, cyc, inp.granted).trace;
    SettleMoves(d.st, cfg, cyc, inp);
    CaptureMoves(SafContent.Settled(d.st, cfg, cyc, inp).st, cfg, inp.data);
  }

  lemma PipeJoins(st: SafState, g: SafState, cfg: SafConfig, cyc: int, inp: SafInputs, gone: Option<Packet>,
          st': SafState)
    requires |g.rx| == |st.rx| - (if Emits(st, inp) then 1 else 0) + (if Arrives(st, cfg, cyc, inp) then 1 else 0)
    requires g.inflight == (if Arrives(st, cfg, cyc, inp) then st.inflight[1..] else st.inflight)
    requires st'.rx == g.rx
    requires st'.inflight == g.inflight + (if gone.Some? then [(cyc + cfg.latency, gone.value)] else [])
    ensures PipeMoves(st, cfg, cyc, inp, gone, st')
  {
  }

  lemma StepPipe(t: Trace, cfg: SafConfig, cyc: int, inp: SafInputs, t': Trace)
    requires TraceStep(t, cfg, cyc, inp) == Running(t')
    ensures PipeMoves(t.st, cfg, cyc, inp, SentIn(t.st, cfg, cyc, inp), t'.st)
  {
    RestKeepsPipe(t, cfg, cyc, inp, t');
    GateMoves(t.st, cfg, cyc, inp);
    DepartMoves(Gate(t.st, cfg, cyc, inp), cfg, cyc, inp.granted);
    PipeJoins(t.st, Gate(t.st, cfg, cyc, inp), cfg, cyc, inp, SentIn(t.st, cfg, cyc, inp), t'.st);
  }

  lemma StepTokens(t: Trace, cfg: SafConfig, cyc: int, inp: SafInputs, t': Trace)
    requires TraceStep(t, cfg, cyc, inp) == Running(t')
    ensures t'.st.portTokens == Paid(t.st.portTokens, cfg.portRate, SentIn(t.st, cfg, cyc, inp).Some?)
    ensures t'.st.tokens == Paid(t.st.tokens, cfg.rate, SentIn(t.st, cfg, cyc, inp).Some?)
  {
    GateMoves(t.st, cfg, cyc, inp);
    DepartMoves(Gate(t.st, cfg, cyc, inp), cfg, cyc, inp.granted);
    var d := Departed(Gated(t, cfg, cyc, inp), cfg, cyc, inp.granted).trace;
    SettleMoves(d.st, cfg, cyc, inp);
    CaptureMoves(SafContent.Settled(d.st, cfg, cyc, inp).st, cfg, inp.data);
  }

  lemma StepControl(t: Trace, cfg: SafConfig, cyc: int, inp: SafInputs, t': Trace)
    requires TraceStep(t, cfg, cyc, inp) == Running(t')
    ensures CtrlMoves(t, cfg, cyc, inp, CtrlOut(t.st, cyc, inp.outCtrlAvail), t')
  {
    GateKeepsCtrl(t.st, cfg, cyc, inp);
    var d := Departed(Gated(t, cfg, cyc, inp), cfg, cyc, inp.granted).trace;
    SettleMoves(d.st, cfg, cyc, inp);
    CaptureMoves(SafContent.Settled(d.st, cfg, cyc, inp).st, cfg, inp.data);
  }

  /** Packets that have reached the receive stage. */
  function Reached(t: Trace): nat {
    |t.delivered| + |t.st.rx|
  }

  // ---- What is known after any number of cycles -----------------------------------------------

  /** `dep[m]` packets had entered the pipe by cycle `m`, and `ctrl[m]` control packets had come in. */
  ghost predicate DataHolds(cfg: SafConfig, t: Trace, dep: seq<int>) {
    && Stamped(t.st.inflight, dep, Reached(t), cfg.latency)
    && Balanced(t.st.portTokens, cfg.portRate, dep) && Balanced(t.st.tokens, cfg.rate, dep)
    && dep[|dep| - 1] == |t.departed|
    && Occupancy(t.st) == |t.captured| - |t.departed|
  }

  ghost predicate ControlHolds(cfg: SafConfig, t: Trace, arrived: seq<Packet>, ctrl: seq<int>) {
    && Stamped(t.st.ctrl, ctrl, |t.answered|, cfg.latency)
    && t.answered + L.Payloads(t.st.ctrl) == arrived
  }

  lemma PipeNext(t: Trace, cfg: SafConfig, inp: SafInputs, dep: seq<int>, gone: Option<Packet>, t': Trace)
    requires Stamped(t.st.inflight, dep, Reached(t), cfg.latency) && dep[|dep| - 1] == |t.departed|
    requires DataMoves(t, inp, gone, t') && PipeMoves(t.st, cfg, |dep|, inp, gone, t'.st)
    ensures |t'.departed| == |t.departed| + if gone.Some? then 1 else 0
    ensures Stamped(t'.st.inflight, dep + [|t'.departed|], Reached(t'), cfg.latency)
  {
    StampedNext(t.st.inflight, dep, Reached(t), cfg.latency, Arrives(t.st, cfg, |dep|, inp), gone);
  }

  lemma DataNext(t: Trace, cfg: SafConfig, inp: SafInputs, dep: seq<int>, gone: Option<Packet>, t': Trace)
    requires DataHolds(cfg, t, dep) && DataMoves(t, inp, gone, t') && PipeMoves(t.st, cfg, |dep|, inp, gone, t'.st)
    requires t'.st.portTokens == Paid(t.st.portTokens, cfg.portRate, gone.Some?)
    requires t'.st.tokens == Paid(t.st.tokens, cfg.rate, gone.Some?)
    ensures DataHolds(cfg, t', dep + [|t'.departed|])
  {
    PipeNext(t, cfg, inp, dep, gone, t');
    BalanceNext(t.st.portTokens, cfg.portRate, dep, gone.Some?);
    BalanceNext(t.st.tokens, cfg.rate, dep, gone.Some?);
  }

  lemma ControlNext(t: Trace, cfg: SafConfig, inp: SafInputs, arrived: seq<Packet>, ctrl: seq<int>, out: Option<Packet>,
          t': Trace)
    requires ControlHolds(cfg, t, arrived, ctrl) && CtrlMoves(t, cfg, |ctrl|, inp, out, t')
    ensures var arrived' := arrived + L.OnWire(inp.ctrl); ControlHolds(cfg, t', arrived', ctrl + [|arrived'|])
  {
    StampedNext(t.st.ctrl, ctrl, |t.answered|, cfg.latency, out.Some?, inp.ctrl);
    ControlOrder(t.answered, t.st.ctrl, out, |ctrl| + cfg.latency, inp.ctrl);
  }

  lemma ControlOrder(answered: seq<Packet>, queue: seq<(int, Packet)>, out: Option<Packet>, stamp: int,
          arrival: Option<Packet>)
    requires out.Some? ==> queue != [] && out.value == queue[0].1
    ensures answered + L.OnWire(out) + L.Payloads(Moved(queue, out.Some?, stamp, arrival))
            == answered + L.Payloads(queue) + L.OnWire(arrival)
  {
    L.OrderNext(answered + L.Payloads(queue) + L.OnWire(arrival), answered, queue, arrival, out, stamp);
    if out.None? {
      Unit(answered);
    }
    if arrival.None? {
      Unit(if out.Some? then queue[1..] else queue);
    }
  }

  lemma KnownNext(t: Trace, cfg: SafConfig, inp: SafInputs, arrived: seq<Packet>, dep: seq<int>, ctrl: seq<int>,
          t': Trace)
    requires DataHolds(cfg, t, dep) && ControlHolds(cfg, t, arrived, ctrl) && |dep| == |ctrl|
    requires TraceStep(t, cfg, |dep|, inp) == Running(t')
    ensures DataHolds(cfg, t', dep + [|t'.departed|])
    ensures var arrived' := arrived + L.OnWire(inp.ctrl); ControlHolds(cfg, t', arrived', ctrl + [|arrived'|])
  {
    var cyc := |dep|;
    StepData(t, cfg, cyc, inp, t');
    StepPipe(t, cfg, cyc, inp, t');
    StepTokens(t, cfg, cyc, inp, t');
    StepControl(t, cfg, cyc, inp, t');
    DataNext(t, cfg, inp, dep, SentIn(t.st, cfg, cyc, inp), t');
    ControlNext(t, cfg, inp, arrived, ctrl, CtrlOut(t.st, cyc, inp.outCtrlAvail), t');
  }

  /** How many packets had entered the pipe by each cycle. */
  function Departures(h: seq<Trace>): (s: seq<int>)
    ensures |s| == |h|
  {
    seq(|h|, m requires 0 <= m < |h| => |h[m].departed|)
  }

  /** How many control packets had come in by each cycle up to `n`. */
  function Arrived(ins: seq<SafInputs>, n: nat): (s: seq<int>)
    requires n <= |ins|
    ensures |s| == n + 1
  {
    seq(n + 1, m requires 0 <= m <= n => |CtrlArrivals(ins[..m])|)
  }

  lemma ArrivedNext(ins: seq<SafInputs>, n: nat)
    requires n < |ins|
    ensures CtrlArrivals(ins[..n + 1]) == CtrlArrivals(ins[..n]) + L.OnWire(ins[n].ctrl)
    ensures Arrived(ins, n + 1) == Arrived(ins, n) + [|CtrlArrivals(ins[..n + 1])|]
  {
    assert ins[..n + 1][..n] == ins[..n];
  }

  lemma DeparturesNext(h: seq<Trace>, n: nat)
    requires n + 1 < |h|
    ensures Departures(h[..n + 2]) == Departures(h[..n + 1]) + [|h[n + 1].departed|]
  {
  }

  ghost predicate Known(cfg: SafConfig, ins: seq<SafInputs>, h: seq<Trace>, n: nat)
    requires n <= |ins| && n < |h|
  {
    && DataHolds(cfg, h[n], Departures(h[..n + 1]))
    && ControlHolds(cfg, h[n], CtrlArrivals(ins[..n]), Arrived(ins, n))
  }

  lemma KnownStart(cfg: SafConfig, ins: seq<SafInputs>, h: seq<Trace>)
    requires h != [] && Running(h[0]) == Traced(cfg, [])
    ensures Known(cfg, ins, h, 0)
  {
    assert Departures(h[..1]) == [0] && Arrived(ins, 0) == [0];
    assert Allowance(cfg.portRate, [0], 0) == 0 && Allowance(cfg.rate, [0], 0) == 0;
  }

  lemma KnownStep(cfg: SafConfig, ins: seq<SafInputs>, h: seq<Trace>, n: nat)
    requires n < |ins| && n + 1 < |h| && Known(cfg, ins, h, n) && StepAt(cfg, ins, h, n)
    ensures Known(cfg, ins, h, n + 1)
  {
    KnownNext(h[n], cfg, ins[n], CtrlArrivals(ins[..n]), Departures(h[..n + 1]), Arrived(ins, n), h[n + 1]);
    ArrivedNext(ins, n);
    DeparturesNext(h, n);
  }

  lemma {:induction false} HistoryKnown(cfg: SafConfig, ins: seq<SafInputs>, h: seq<Trace>, n: nat)
    requires History(cfg, ins, h) && n < |h|
    ensures Known(cfg, ins, h, n)
  {
    if n == 0 {
      KnownStart(cfg, ins, h);
    } else {
      HistoryKnown(cfg, ins, h, n - 1);
      assert StepAt(cfg, ins, h, n - 1);
      KnownStep(cfg, ins, h, n - 1);
    }
  }

  // ---- Departures -----------------------------------------------------------------------------

  /** A memory flit has come in that has not left; the oldest. */
  predicate MemWaits(t: Trace) {
    |Mems(t.captured)| > |Mems(t.departed)|
  }

  /** A whole flow is in of which a packet has not left. */
  predicate FlowWaits(t: Trace) {
    |Concat(t.completed)| > |Msgs(t.departed)|
  }

  /** Memory flits go first, each kind in its own order. */
  function NextOut(t: Trace): Packet
    requires MemWaits(t) || FlowWaits(t)
  {
    if MemWaits(t) then Mems(t.captured)[|Mems(t.departed)|] else Concat(t.completed)[|Msgs(t.departed)|]
  }

  lemma WaitingIs(t: Trace)
    requires Faithful(t)
    ensures MemWaits(t) <==> t.st.mem != []
    ensures FlowWaits(t) <==> t.st.ready != []
    ensures t.st.ready != [] ==> HeadUsable(t.st)
    ensures t.st.mem != [] ==> NextOut(t) == t.st.mem[0]
    ensures t.st.mem == [] && t.st.ready != [] ==> NextOut(t) == t.st.flows[t.st.ready[0]].packets[0]
  {
    if t.st.ready != [] {
      ReadyHeadUsable(t.st);
    }
  }

  lemma SentIff(t: Trace, cfg: SafConfig, inp: SafInputs, dep: seq<int>)
    requires Faithful(t) && DataHolds(cfg, t, dep)
    ensures var gone, arrives := SentIn(t.st, cfg, |dep|, inp), Arrives(t.st, cfg, |dep|, inp);
            && (gone.Some? <==>
                 && inp.granted && (MemWaits(t) || FlowWaits(t))
                 && |t.departed| - (Reached(t) + if arrives then 1 else 0) < cfg.inflightDepth
                 && Affordable(cfg.portRate, dep) && Affordable(cfg.rate, dep))
            && (gone.Some? ==> (MemWaits(t) || FlowWaits(t)) && gone.value == NextOut(t))
  {
    WaitingIs(t);
    GateMoves(t.st, cfg, |dep|, inp);
    GateFields(t.st, cfg, |dep|, inp);
    EnoughIffAffordable(t.st.portTokens, cfg.portRate, dep);
    EnoughIffAffordable(t.st.tokens, cfg.rate, dep);
  }

  // ---- Main results ---------------------------------------------------------------------------

  /** What the data path is known to hold before cycle `n + 1`, and what the cycle moves. */
  lemma DataKnown(cfg: SafConfig, ins: seq<SafInputs>, h: seq<Trace>, n: nat)
    requires History(cfg, ins, h) && n < |ins|
    ensures DataHolds(cfg, h[n], Departures(h[..n + 1]))
    ensures DataMoves(h[n], ins[n], SentIn(h[n].st, cfg, n + 1, ins[n]), h[n + 1])
    ensures PipeMoves(h[n].st, cfg, n + 1, ins[n], SentIn(h[n].st, cfg, n + 1, ins[n]), h[n + 1].st)
  {
    HistoryKnown(cfg, ins, h, n);
    assert StepAt(cfg, ins, h, n);
    StepData(h[n], cfg, n + 1, ins[n], h[n + 1]);
    StepPipe(h[n], cfg, n + 1, ins[n], h[n + 1]);
  }

  /** The same for the control path. */
  lemma ControlKnown(cfg: SafConfig, ins: seq<SafInputs>, h: seq<Trace>, n: nat)
    requires History(cfg, ins, h) && n < |ins|
    ensures ControlHolds(cfg, h[n], CtrlArrivals(ins[..n]), Arrived(ins, n))
    ensures CtrlMoves(h[n], cfg, n + 1, ins[n], CtrlOut(h[n].st, n + 1, ins[n].outCtrlAvail), h[n + 1])
  {
    HistoryKnown(cfg, ins, h, n);
    assert StepAt(cfg, ins, h, n);
    StepControl(h[n], cfg, n + 1, ins[n], h[n + 1]);
  }

  /** A packet is handed to the router in cycle `n + 1` exactly if the router is ready and one had reached the stage. */
  lemma HandedOnIff(cfg: SafConfig, ins: seq<SafInputs>, h: seq<Trace>, n: nat)
    requires History(cfg, ins, h) && n < |ins|
    ensures var t, t' := h[n], h[n + 1];
            var leaves := ins[n].outAvail && Reached(t) > |t.delivered|;
            && (leaves ==> |t.delivered| < |t.departed|)
            && t'.delivered == t.delivered + (if leaves then [t.departed[|t.delivered|]] else [])
  {
    HistoryFaithful(cfg, ins, h, n);
    DataKnown(cfg, ins, h, n);
    assert h[n].delivered + h[n].st.rx + L.Payloads(h[n].st.inflight) == h[n].departed;
  }

  /**
   * A packet reaches the receive stage in cycle `n + 1` exactly if there is room there and the oldest packet in
   * the pipe entered it at least `max(latency, 1)` cycles before.
   */
  lemma ReachesIff(cfg: SafConfig, ins: seq<SafInputs>, h: seq<Trace>, n: nat)
    requires History(cfg, ins, h) && n < |ins|
    ensures var l := if cfg.latency > 0 then cfg.latency else 1;
            var due := n + 1 >= l && |h[n + 1 - l].departed| > Reached(h[n]);
            Reached(h[n + 1])
            == Reached(h[n]) + if due && Reached(h[n]) - |h[n + 1].delivered| < cfg.rxDepth then 1 else 0
  {
    DataKnown(cfg, ins, h, n);
    ReachesStep(h[n], cfg, ins[n], Departures(h[..n + 1]), SentIn(h[n].st, cfg, n + 1, ins[n]), h[n + 1]);
  }

  lemma ReachesStep(t: Trace, cfg: SafConfig, inp: SafInputs, dep: seq<int>, gone: Option<Packet>, t': Trace)
    requires Stamped(t.st.inflight, dep, Reached(t), cfg.latency)
    requires DataMoves(t, inp, gone, t') && PipeMoves(t.st, cfg, |dep|, inp, gone, t'.st)
    ensures var l := if cfg.latency > 0 then cfg.latency else 1;
            var due := |dep| >= l && dep[|dep| - l] > Reached(t);
            Reached(t') == Reached(t) + if due && Reached(t) - |t'.delivered| < cfg.rxDepth then 1 else 0
  {
    HeadDue(t.st.inflight, dep, Reached(t), cfg.latency);
  }

  /**
   * A packet enters the pipe in cycle `n + 1` exactly if the group grants it, a memory flit or a packet of a whole flow
   * waits, the pipe has room, and neither the port's rate nor the link's is exceeded in any window. Memory flits go
   * first; either kind goes in its own order.
   */
  lemma DepartsIff(cfg: SafConfig, ins: seq<SafInputs>, h: seq<Trace>, n: nat)
    requires History(cfg, ins, h) && n < |ins|
    ensures var t, t', outs := h[n], h[n + 1], Departures(h[..n + 1]);
            var departs :=
              && ins[n].granted && (MemWaits(t) || FlowWaits(t))
              && |t.departed| - Reached(t') < cfg.inflightDepth
              && Affordable(cfg.portRate, outs) && Affordable(cfg.rate, outs);
            t'.departed == t.departed + (if departs then [NextOut(t)] else [])
  {
    HistoryFaithful(cfg, ins, h, n);
    DataKnown(cfg, ins, h, n);
    SentIff(h[n], cfg, ins[n], Departures(h[..n + 1]));
  }

  /** A control packet is handed on in cycle `n + 1` exactly if the router is ready for it and one is due. */
  lemma CtrlHandedOnIff(cfg: SafConfig, ins: seq<SafInputs>, h: seq<Trace>, n: nat)
    requires History(cfg, ins, h) && n < |ins|
    ensures var l := if cfg.latency > 0 then cfg.latency else 1;
            var t, t', arrived := h[n], h[n + 1], CtrlArrivals(ins[..n]);
            var leaves := ins[n].outCtrlAvail && n + 1 >= l && |CtrlArrivals(ins[..n + 1 - l])| > |t.answered|;
            && (leaves ==> |t.answered| < |arrived|)
            && t'.answered == t.answered + (if leaves then [arrived[|t.answered|]] else [])
  {
    ControlKnown(cfg, ins, h, n);
    CtrlStep(h[n], cfg, ins[n], CtrlArrivals(ins[..n]), Arrived(ins, n), CtrlOut(h[n].st, n + 1, ins[n].outCtrlAvail),
             h[n + 1]);
  }

  lemma CtrlStep(t: Trace, cfg: SafConfig, inp: SafInputs, arrived: seq<Packet>, ctrl: seq<int>, out: Option<Packet>,
          t': Trace)
    requires ControlHolds(cfg, t, arrived, ctrl) && CtrlMoves(t, cfg, |ctrl|, inp, out, t')
    ensures var l := if cfg.latency > 0 then cfg.latency else 1;
            var leaves := inp.outCtrlAvail && |ctrl| >= l && ctrl[|ctrl| - l] > |t.answered|;
            && (leaves ==> |t.answered| < |arrived|)
            && t'.answered == t.answered + (if leaves then [arrived[|t.answered|]] else [])
  {
    HeadDue(t.st.ctrl, ctrl, |t.answered|, cfg.latency);
  }

  /** No packet reaches the receive stage before its latency is up. */
  lemma {:induction false} LatencyKept(cfg: SafConfig, ins: seq<SafInputs>, h: seq<Trace>, n: nat)
    requires History(cfg, ins, h) && n < |h|
    ensures var l := if cfg.latency > 0 then cfg.latency else 1;
            Reached(h[n]) <= if n >= l then |h[n - l].departed| else 0
  {
    if n > 0 {
      LatencyKept(cfg, ins, h, n - 1);
      ReachesIff(cfg, ins, h, n - 1);
      var l := if cfg.latency > 0 then cfg.latency else 1;
      if n > l {
        DepartsIff(cfg, ins, h, n - 1 - l);
      }
    }
  }

  /** In no window does the link send more than one packet above either rate. */
  lemma WindowsBounded(cfg: SafConfig, ins: seq<SafInputs>, h: seq<Trace>, m: nat, n: nat)
    requires History(cfg, ins, h) && m <= n < |h| && cfg.portRate.Valid() && cfg.rate.Valid()
    ensures Allows(cfg.portRate, |h[n].departed| - |h[m].departed|, n - m, m == 0)
    ensures Allows(cfg.rate, |h[n].departed| - |h[m].departed|, n - m, m == 0)
  {
    var outs := Departures(h);
    forall k | 0 <= k < |outs| - 1
      ensures Paced(cfg.portRate, outs, k) && Paced(cfg.rate, outs, k)
    {
      DepartsIff(cfg, ins, h, k);
      assert outs[..k + 1] == Departures(h[..k + 1]);
    }
    PacedWindow(cfg.portRate, outs, m, n);
    PacedWindow(cfg.rate, outs, m, n);
  }

  /**
   * The link's outputs in cycle `n + 1`: what it hands on is what leaves, and it asks for more exactly while its stage,
   * or its control queue, holds fewer packets than it may.
   */
  lemma OutputsShow(cfg: SafConfig, ins: seq<SafInputs>, h: seq<Trace>, n: nat)
    requires History(cfg, ins, h) && n < |ins|
    ensures var t, t', o := h[n], h[n + 1], SafOuts(h[n].st, cfg, n + 1, ins[n], h[n + 1].st);
            && t'.delivered == t.delivered + L.OnWire(o.data) && t'.answered == t.answered + L.OnWire(o.ctrl)
            && (o.inAvail <==> |t'.captured| - |t'.departed| < cfg.safDepth)
            && (o.inCtrlAvail <==> |CtrlArrivals(ins[..n + 1])| - |t'.answered| < cfg.ctrlDepth)
  {
    DataKnown(cfg, ins, h, n);
    ControlKnown(cfg, ins, h, n);
    HistoryKnown(cfg, ins, h, n + 1);
  }

  predicate EndsWith(f: Flow, p: Packet) {
    p.Msg? && f.key == p.key && f.packets != [] && f.packets[|f.packets| - 1] == p
  }

  /** What comes in is taken in, and a flow is whole exactly when its tail is. */
  lemma CompletesAtTail(cfg: SafConfig, ins: seq<SafInputs>, h: seq<Trace>, n: nat)
    requires History(cfg, ins, h) && n < |ins|
    ensures var t, t', p := h[n], h[n + 1], ins[n].data;
            var tail := p.Some? && p.value.Msg? && p.value.isEnd;
            && t'.captured == t.captured + L.OnWire(p)
            && t.completed <= t'.completed
            && |t'.completed| == |t.completed| + (if tail then 1 else 0)
            && (tail ==> EndsWith(t'.completed[|t.completed|], p.value))
  {
    assert StepAt(cfg, ins, h, n);
    StepCompletes(h[n], cfg, n + 1, ins[n], h[n + 1]);
  }

  lemma StepCompletes(t: Trace, cfg: SafConfig, cyc: int, inp: SafInputs, t': Trace)
    requires TraceStep(t, cfg, cyc, inp) == Running(t')
    ensures t'.captured == t.captured + L.OnWire(inp.data) && t.completed <= t'.completed
    ensures var p := inp.data;
            var tail := p.Some? && p.value.Msg? && p.value.isEnd;
            && |t'.completed| == |t.completed| + (if tail then 1 else 0)
            && (tail ==> EndsWith(t'.completed[|t.completed|], p.value))
  {
  }

  /** A flow's claim, as announced, goes back in the cycle the last of its packets enters the pipe, and in no other. */
  lemma ReturnsAtTail(t: Trace, cfg: SafConfig, cyc: int, inp: SafInputs)
    requires Faithful(t)
    ensures var gone, drained := SentIn(t.st, cfg, cyc, inp), Drained(Gate(t.st, cfg, cyc, inp), cfg, inp.granted);
            && (drained.Some? <==> gone.Some? && gone.value.Msg? && |Held(t.st.flows, gone.value.key)| == 1)
            && (drained.Some? ==>
                  gone.value.key in t.st.expected && drained.value == (gone.value.key, t.st.expected[gone.value.key]))
  {
    GateFields(t.st, cfg, cyc, inp);
    if t.st.ready != [] {
      ReadyHeadUsable(t.st);
      assert BufferOk(t.st, t.st.ready[0]);
    }
  }

  // ---- Errors ---------------------------------------------------------------------------------

  /** A control packet fits if its queue has room; a request must also claim a fitting size for a key not in use. */
  ghost predicate ControlFits(cfg: SafConfig, expected: map<FlowKey, int>, queued: int, p: Packet) {
    && queued < cfg.ctrlDepth
    && (p.Msg? && p.kind == Request ==> 0 < p.flowPackets <= cfg.safDepth && p.key !in expected)
  }

  /** Data fits if the stage has room and it is the next packet of an announced flow, the tail in its numbered place. */
  ghost predicate DataFits(cfg: SafConfig, expected: map<FlowKey, int>, stored: int, whole: bool, have: int,
          p: Packet)
  {
    && stored < cfg.safDepth
    && (p.Msg? ==>
          && p.kind == Data && p.key in expected && !whole
          && (if p.isEnd then have + 1 == expected[p.key] == p.seqId else have + 1 <= expected[p.key]))
  }

  /** The announced sizes after the cycle's departure and its request, if one came. */
  function Announced(st: SafState, ctrl: Option<Packet>): map<FlowKey, int> {
    if ctrl.Some? && ctrl.value.Msg? && ctrl.value.kind == Request
    then st.expected[ctrl.value.key := ctrl.value.flowPackets]
    else st.expected
  }

  /**
   * A cycle goes through exactly if its arrivals fit; what the link does about departures can never stop it. `d` is the
   * link after the cycle's departure.
   */
  lemma GoesThroughIff(t: Trace, cfg: SafConfig, cyc: int, inp: SafInputs, d: SafState)
    requires Faithful(t) && Depart(Gate(t.st, cfg, cyc, inp), cfg, cyc, inp.granted) == Fine(d)
    ensures var queued := |t.st.ctrl| - |L.OnWire(CtrlOut(t.st, cyc, inp.outCtrlAvail))|;
            TraceStep(t, cfg, cyc, inp).Running? <==>
            && (inp.ctrl.Some? ==> ControlFits(cfg, d.expected, queued, inp.ctrl.value))
            && (inp.data.Some? ==>
                  var k := if inp.data.value.Msg? then inp.data.value.key else FlowKey(0, 0, 0);
                  DataFits(cfg, Announced(d, inp.ctrl), Occupancy(d), k in d.ready, |Held(d.flows, k)|, inp.data.value))
  {
    RunsOn(t, cfg, cyc, inp, d);
    ControlFitsIff(d, cfg, cyc, inp);
    if SafContent.Settled(d, cfg, cyc, inp).Fine? && inp.data.Some? {
      SettledFitsIff(d, cfg, cyc, inp, inp.data.value);
    }
  }

  lemma RunsOn(t: Trace, cfg: SafConfig, cyc: int, inp: SafInputs, d: SafState)
    requires Faithful(t) && Depart(Gate(t.st, cfg, cyc, inp), cfg, cyc, inp.granted) == Fine(d)
    ensures BuffersOk(d) && d.ctrl == t.st.ctrl
    ensures TraceStep(t, cfg, cyc, inp).Running? <==>
            && SafContent.Settled(d, cfg, cyc, inp).Fine?
            && Capture(SafContent.Settled(d, cfg, cyc, inp).st, cfg, inp.data).Fine?
  {
    DepartureFaithful(t, cfg, cyc, inp);
    GateKeepsCtrl(t.st, cfg, cyc, inp);
  }

  lemma SettledFitsIff(d: SafState, cfg: SafConfig, cyc: int, inp: SafInputs, p: Packet)
    requires BuffersOk(d) && SafContent.Settled(d, cfg, cyc, inp).Fine?
    ensures var k := if p.Msg? then p.key else FlowKey(0, 0, 0);
            Capture(SafContent.Settled(d, cfg, cyc, inp).st, cfg, Some(p)).Fine? <==>
            DataFits(cfg, Announced(d, inp.ctrl), Occupancy(d), k in d.ready, |Held(d.flows, k)|, p)
  {
    var c := SafContent.Settled(d, cfg, cyc, inp).st;
    ControlFitsIff(d, cfg, cyc, inp);
    SettledFields(d, cfg, cyc, inp, c);
    SettleMoves(d, cfg, cyc, inp);
    DeclaredMore(d, c, inp.ctrl);
    DataFitsIff(d, c, cfg, p);
  }

  lemma ControlFitsIff(d: SafState, cfg: SafConfig, cyc: int, inp: SafInputs)
    requires BuffersOk(d)
    ensures var queued := |d.ctrl| - |L.OnWire(CtrlOut(d, cyc, inp.outCtrlAvail))|;
            SafContent.Settled(d, cfg, cyc, inp).Fine? <==>
            (inp.ctrl.Some? ==> ControlFits(cfg, d.expected, queued, inp.ctrl.value))
    ensures SafContent.Settled(d, cfg, cyc, inp).Fine? ==>
              SafContent.Settled(d, cfg, cyc, inp).st.expected == Announced(d, inp.ctrl)
  {
    if inp.ctrl.Some? && inp.ctrl.value.Msg? {
      assert BufferOk(d, inp.ctrl.value.key);
    }
  }

  lemma DeclaredMore(d: SafState, c: SafState, request: Option<Packet>)
    requires BuffersOk(d) && Declares(d, c.expected, request)
    ensures forall k :: k in d.expected ==> k in c.expected && c.expected[k] == d.expected[k]
    ensures forall k :: k in c.expected ==> c.expected[k] > 0
  {
    forall k | k in c.expected
      ensures c.expected[k] > 0
    {
      assert BufferOk(d, k);
    }
  }

  lemma DataFitsIff(d: SafState, c: SafState, cfg: SafConfig, p: Packet)
    requires BuffersOk(d) && c.flows == d.flows && c.ready == d.ready && Occupancy(c) == Occupancy(d)
    requires forall k :: k in d.expected ==> k in c.expected && c.expected[k] == d.expected[k]
    requires forall k :: k in c.expected ==> c.expected[k] > 0
    ensures var k := if p.Msg? then p.key else FlowKey(0, 0, 0);
            Capture(c, cfg, Some(p)).Fine? <==>
            DataFits(cfg, c.expected, Occupancy(d), k in d.ready, |Held(d.flows, k)|, p)
  {
    if p.Msg? {
      assert BufferOk(d, p.key);
      assert p.key in d.ready <==> p.key in multiset(d.ready);
    }
  }

  /** Which error a control packet meets: `queued` packets are left in the queue when it comes. */
  lemma ControlErrors(d: SafState, cfg: SafConfig, cyc: int, inp: SafInputs, p: Packet)
    requires BuffersOk(d) && inp.ctrl == Some(p)
    ensures var r := SafContent.Settled(d, cfg, cyc, inp);
            var queued := |d.ctrl| - |L.OnWire(CtrlOut(d, cyc, inp.outCtrlAvail))|;
            var request, sized := p.Msg? && p.kind == Request, p.Msg? && 0 < p.flowPackets <= cfg.safDepth;
            && (r == Fault(CtrlOverflow) <==> queued >= cfg.ctrlDepth)
            && (r == Fault(BadFlowPackets) <==> queued < cfg.ctrlDepth && request && !sized)
            && (r == Fault(DuplicateRequest) <==> queued < cfg.ctrlDepth && request && sized && p.key in d.expected)
  {
    if p.Msg? {
      assert BufferOk(d, p.key);
    }
  }

  /** Which error a data packet meets. */
  lemma DataErrors(c: SafState, cfg: SafConfig, p: Packet)
    requires BuffersOk(c)
    ensures var r, room := Capture(c, cfg, Some(p)), Occupancy(c) < cfg.safDepth;
            && (r == Fault(SafOverflow) <==> !room)
            && (r == Fault(NotData) <==> room && p.Msg? && p.kind != Data)
            && (p.Msg? && p.kind == Data ==>
                  var known, whole, have := p.key in c.expected, p.key in c.ready, |Held(c.flows, p.key)|;
                  && (r == Fault(DataBeforeRequest) <==> room && !known)
                  && (r == Fault(DataAfterTail) <==> room && known && whole)
                  && (r == Fault(TooManyPackets) <==> room && known && !whole && have == c.expected[p.key])
                  && (r == Fault(TailMismatch) <==>
                       && room && known && !whole && have < c.expected[p.key] && p.isEnd
                       && !(have + 1 == p.seqId == c.expected[p.key])))
  {
    if p.Msg? {
      assert BufferOk(c, p.key);
      assert p.key in c.ready <==> p.key in multiset(c.ready);
    }
  }
}
