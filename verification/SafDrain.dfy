/**
 * A whole flow at the head of an open link leaves in time: no stage can hold it back for longer than the pace allows.
 */
module SafDrain {
  import opened Basics
  import opened Rates
  import opened FlowLedger
  import opened SafRuntime
  import opened BoundedLink
  import opened CreditLoop
  import opened SafLink
  import opened SafSafety
  import opened SafProgress
  import C = SafContent

  // ---- How long a departure can be held up ----------------------------------------------------

  predicate Capable(cfg: SafConfig) {
    cfg.portRate.Valid() && cfg.rate.Valid() && cfg.inflightDepth >= 1 && cfg.rxDepth >= 1 && cfg.safDepth >= 0
  }

  /** `pace` cycles refill either bucket from empty, and carry a packet across the pipe. */
  predicate Pace(cfg: SafConfig, pace: int) {
    && pace >= 1 && pace >= cfg.latency
    && pace * cfg.portRate.num >= cfg.portRate.den && pace * cfg.rate.num >= cfg.rate.den
  }

  /** What every reachable state keeps: bounded buckets and stages, and stamps no further ahead than the latency. */
  predicate Bounded(st: SafState, cfg: SafConfig, cyc: int) {
    && 0 <= st.portTokens <= cfg.portRate.den && 0 <= st.tokens <= cfg.rate.den
    && |st.rx| <= cfg.rxDepth && |st.inflight| <= cfg.inflightDepth
    && (forall i :: 0 <= i < |st.inflight| ==> st.inflight[i].0 <= cyc + cfg.latency)
  }

  predicate RoomBy(st: SafState, cfg: SafConfig, latest: int) {
    |st.inflight| < cfg.inflightDepth || (st.inflight != [] && st.inflight[0].0 <= latest)
  }

  /** A bucket holding `tokens` is full enough for a packet after at most `n` refills. */
  predicate Fills(tokens: int, rate: Rate, n: int)
    decreases n
  {
    tokens >= rate.den || (n > 0 && Fills(tokens + rate.num, rate, n - 1))
  }

  lemma {:induction false} FillsBy(tokens: int, rate: Rate, n: nat)
    requires tokens + n * rate.num >= rate.den
    ensures Fills(tokens, rate, n)
    decreases n
  {
    if n > 0 {
      OneMore(n - 1, rate.num);
      FillsBy(tokens + rate.num, rate, n - 1);
    }
  }

  /** After cycle `cyc`, a ready packet finds tokens and room within `wait` cycles beyond the next. */
  predicate Soon(st: SafState, cfg: SafConfig, cyc: int, wait: int) {
    && Fills(st.portTokens + cfg.portRate.num, cfg.portRate, wait) && Fills(st.tokens + cfg.rate.num, cfg.rate, wait)
    && RoomBy(st, cfg, cyc + 1 + wait)
  }

  lemma BoundedSoon(st: SafState, cfg: SafConfig, cyc: int, pace: int)
    requires Capable(cfg) && Pace(cfg, pace) && Bounded(st, cfg, cyc)
    ensures Soon(st, cfg, cyc, pace - 1)
  {
    OneMore(pace - 1, cfg.portRate.num);
    OneMore(pace - 1, cfg.rate.num);
    FillsBy(st.portTokens + cfg.portRate.num, cfg.portRate, pace - 1);
    FillsBy(st.tokens + cfg.rate.num, cfg.rate, pace - 1);
  }

  /** The state at the departure decision of cycle `cyc`, whose buckets are not yet capped. */
  predicate GateBounded(st: SafState, cfg: SafConfig, cyc: int) {
    && 0 <= st.portTokens && 0 <= st.tokens
    && |st.rx| <= cfg.rxDepth && |st.inflight| <= cfg.inflightDepth
    && (forall i :: 0 <= i < |st.inflight| ==> st.inflight[i].0 <= cyc + cfg.latency)
  }

  lemma GateKeepsBounds(st: SafState, cfg: SafConfig, cyc: int, inp: SafInputs)
    requires Capable(cfg) && Bounded(st, cfg, cyc - 1)
    ensures GateBounded(Gate(st, cfg, cyc, inp), cfg, cyc)
  {
  }

  lemma DepartKeepsBounds(st: SafState, cfg: SafConfig, cyc: int, granted: bool)
    requires GateBounded(st, cfg, cyc) && Depart(st, cfg, cyc, granted).Fine?
    ensures GateBounded(Depart(st, cfg, cyc, granted).st, cfg, cyc)
  {
  }

  /** Control traffic and captures touch neither the pipe nor the receive stage, and only cap the buckets. */
  lemma FinishPipe(st: SafState, cfg: SafConfig, cyc: int, inp: SafInputs, st': SafState)
    requires Finish(st, cfg, cyc, inp) == Fine(st')
    ensures st'.inflight == st.inflight && st'.rx == st.rx
    ensures st'.portTokens == (if st.portTokens > cfg.portRate.den then cfg.portRate.den else st.portTokens)
    ensures st'.tokens == (if st.tokens > cfg.rate.den then cfg.rate.den else st.tokens)
  {
    var c := C.Settled(st, cfg, cyc, inp);
    C.SettledFields(st, cfg, cyc, inp, c.st);
    SettledTokens(st, cfg, cyc, inp, c.st);
    CaptureTokens(c.st, cfg, inp.data, st');
  }

  lemma SettledTokens(st: SafState, cfg: SafConfig, cyc: int, inp: SafInputs, st': SafState)
    requires C.Settled(st, cfg, cyc, inp) == Fine(st')
    ensures st'.portTokens == CapTokens(st, cfg).portTokens && st'.tokens == CapTokens(st, cfg).tokens
  {
  }

  lemma CaptureTokens(st: SafState, cfg: SafConfig, arrival: Option<Packet>, st': SafState)
    requires Capture(st, cfg, arrival) == Fine(st')
    ensures st'.portTokens == st.portTokens && st'.tokens == st.tokens && st'.inflight == st.inflight && st'.rx == st.rx
  {
  }

  lemma CycleKeepsBounds(st: SafState, cfg: SafConfig, cyc: int, inp: SafInputs, st': SafState)
    requires Capable(cfg) && Bounded(st, cfg, cyc - 1) && Cycle(st, cfg, cyc, inp) == Fine(st')
    ensures Bounded(st', cfg, cyc)
  {
    var gate := Gate(st, cfg, cyc, inp);
    GateKeepsBounds(st, cfg, cyc, inp);
    DepartKeepsBounds(gate, cfg, cyc, inp.granted);
    FinishPipe(Depart(gate, cfg, cyc, inp.granted).st, cfg, cyc, inp, st');
  }

  /** At the next decision the waiting time has run down by one, if the remote router takes packets. */
  predicate GateSoon(st: SafState, cfg: SafConfig, cyc: int, wait: int) {
    && Fills(st.portTokens, cfg.portRate, wait) && Fills(st.tokens, cfg.rate, wait)
    && RoomBy(st, cfg, cyc + wait)
    && (wait == 0 ==> |st.inflight| < cfg.inflightDepth)
  }

  lemma GateNearer(st: SafState, cfg: SafConfig, cyc: int, inp: SafInputs, wait: nat)
    requires Capable(cfg) && Bounded(st, cfg, cyc - 1) && Soon(st, cfg, cyc - 1, wait) && inp.outAvail
    ensures GateSoon(Gate(st, cfg, cyc, inp), cfg, cyc, wait)
  {
    PipeNearer(Emit(Refill(st, cfg), inp.outAvail), cfg, cyc, wait);
  }

  lemma PipeNearer(st: SafState, cfg: SafConfig, cyc: int, wait: nat)
    requires |st.rx| < cfg.rxDepth && |st.inflight| <= cfg.inflightDepth && cfg.inflightDepth >= 1
    requires RoomBy(st, cfg, cyc + wait)
    ensures var st' := Arrive(st, cfg, cyc);
            && RoomBy(st', cfg, cyc + wait)
            && (wait == 0 ==> |st'.inflight| < cfg.inflightDepth)
  {
  }

  /** A cycle without a departure leaves the waiting time one shorter. */
  lemma WaitRunsDown(gate: SafState, cfg: SafConfig, cyc: int, inp: SafInputs, st': SafState, wait: int)
    requires Capable(cfg) && wait > 0 && GateSoon(gate, cfg, cyc, wait) && Finish(gate, cfg, cyc, inp) == Fine(st')
    ensures Soon(st', cfg, cyc, wait - 1)
  {
    FinishPipe(gate, cfg, cyc, inp, st');
  }

  lemma ReadyRequests(gate: SafState, cfg: SafConfig, cyc: int)
    requires GateSoon(gate, cfg, cyc, 0) && gate.ready != []
    ensures Requests(gate, cfg)
  {
  }

  // ---- How many packets are ahead -------------------------------------------------------------

  /** Packets that leave before the flow `key` has drained. */
  function Ahead(sizes: map<FlowKey, int>, ready: seq<FlowKey>, key: FlowKey): int {
    if ready == [] then 0
    else
      (if ready[0] in sizes then sizes[ready[0]] else 0)
      + if ready[0] == key then 0 else Ahead(sizes, ready[1..], key)
  }

  /** New arrivals queue up behind. */
  lemma {:induction false} AheadKept(sizes: map<FlowKey, int>, sizes': map<FlowKey, int>, ready: seq<FlowKey>,
          more: seq<FlowKey>, key: FlowKey)
    requires key in ready
    requires forall k :: k in ready ==> k in sizes && k in sizes' && sizes'[k] == sizes[k]
    ensures Ahead(sizes', ready + more, key) == Ahead(sizes, ready, key)
  {
    assert (ready + more)[0] == ready[0];
    if ready[0] != key {
      assert (ready + more)[1..] == ready[1..] + more;
      assert forall k :: k in ready[1..] ==> k in ready;
      AheadKept(sizes, sizes', ready[1..], more, key);
    }
  }

  /** A departure from the head brings every later flow one packet nearer. */
  lemma AheadFalls(sizes: map<FlowKey, int>, ready: seq<FlowKey>, key: FlowKey)
    requires key in ready && ready[0] in sizes && sizes[ready[0]] > 0
    requires forall k :: k in ready[1..] ==> k != ready[0] && k in sizes
    ensures sizes[ready[0]] > 1 ==>
              Ahead(sizes[ready[0] := sizes[ready[0]] - 1], ready, key) == Ahead(sizes, ready, key) - 1
    ensures sizes[ready[0]] == 1 && ready[0] != key ==>
              key in ready[1..] && Ahead(sizes - {ready[0]}, ready[1..], key) == Ahead(sizes, ready, key) - 1
  {
    if ready[0] != key {
      assert key in ready[1..];
      AheadKept(sizes, sizes[ready[0] := sizes[ready[0]] - 1], ready[1..], [], key);
      AheadKept(sizes, sizes - {ready[0]}, ready[1..], [], key);
      Unit(ready[1..]);
    }
  }

  lemma {:induction false} AheadBelowSum(sizes: map<FlowKey, int>, ready: seq<FlowKey>, key: FlowKey)
    requires forall k :: k in sizes ==> sizes[k] >= 0
    requires forall i, j :: 0 <= i < j < |ready| ==> ready[i] != ready[j]
    ensures 0 <= Ahead(sizes, ready, key) <= Sum(sizes)
  {
    if ready == [] {
      SumDominated(map[], sizes);
    } else {
      var r := ready[0];
      AheadBelowSum(sizes - {r}, ready[1..], key);
      AheadWithout(sizes, ready[1..], key, r);
      if r in sizes {
        SumRemove(sizes, r);
        AheadBelowSum(sizes - {r}, [], key);
      } else {
        assert sizes - {r} == sizes;
      }
    }
  }

  lemma {:induction false} AheadWithout(sizes: map<FlowKey, int>, ready: seq<FlowKey>, key: FlowKey, r: FlowKey)
    requires forall i :: 0 <= i < |ready| ==> ready[i] != r
    ensures Ahead(sizes - {r}, ready, key) == Ahead(sizes, ready, key)
  {
    if ready != [] && ready[0] != key {
      AheadWithout(sizes, ready[1..], key, r);
    }
  }

  // ---- One cycle ------------------------------------------------------------------------------

  ghost predicate Queued(st: SafState) {
    && (forall k :: k in st.ready ==> k in st.flows && st.flows[k].complete && st.flows[k].packets != [])
    && (forall i, j :: 0 <= i < j < |st.ready| ==> st.ready[i] != st.ready[j])
  }

  lemma BuffersQueued(st: SafState)
    requires C.BuffersOk(st)
    ensures Queued(st)
  {
    forall k | k in st.ready
      ensures k in st.flows && st.flows[k].complete && st.flows[k].packets != []
    {
      assert C.BufferOk(st, k);
      assert multiset(st.ready)[k] > 0;
    }
    forall i, j | 0 <= i < j < |st.ready|
      ensures st.ready[i] != st.ready[j]
    {
      assert C.BufferOk(st, st.ready[j]);
      assert st.ready == st.ready[..j] + [st.ready[j]] + st.ready[j + 1..];
      assert st.ready[i] in st.ready[..j];
      assert multiset(st.ready) == multiset(st.ready[..j]) + multiset([st.ready[j]]) + multiset(st.ready[j + 1..]);
    }
  }

  function Left(st: SafState, key: FlowKey): int {
    Ahead(Sizes(st.flows), st.ready, key)
  }

  predicate Drains(gate: SafState, cfg: SafConfig, granted: bool, key: FlowKey) {
    Drained(gate, cfg, granted).Some? && Drained(gate, cfg, granted).value.0 == key
  }

  lemma DepartShape(gate: SafState, cfg: SafConfig, cyc: int, st': SafState)
    requires gate.mem == [] && Requests(gate, cfg) && HeadUsable(gate) && Depart(gate, cfg, cyc, true) == Fine(st')
    ensures var r := gate.ready[0];
            var flow := gate.flows[r];
            if |flow.packets| > 1 then
              st'.ready == gate.ready && st'.flows == gate.flows[r := flow.(packets := flow.packets[1..])]
            else
              st'.ready == gate.ready[1..] && st'.flows == gate.flows - {r} && Drains(gate, cfg, true, r)
  {
  }

  lemma HeadPops(flows: map<FlowKey, FlowBuffer>, ready: seq<FlowKey>, key: FlowKey, flow: FlowBuffer)
    requires key in ready && ready[0] in flows && |flows[ready[0]].packets| > 1
    requires flow == flows[ready[0]].(packets := flows[ready[0]].packets[1..])
    requires forall k :: k in ready[1..] ==> k != ready[0] && k in flows
    ensures Ahead(Sizes(flows[ready[0] := flow]), ready, key) == Ahead(Sizes(flows), ready, key) - 1
  {
    AheadFalls(Sizes(flows), ready, key);
    assert Sizes(flows[ready[0] := flow]) == Sizes(flows)[ready[0] := Sizes(flows)[ready[0]] - 1];
  }

  lemma HeadGoes(flows: map<FlowKey, FlowBuffer>, ready: seq<FlowKey>, key: FlowKey)
    requires key in ready && ready[0] in flows && ready[0] != key
    requires |flows[ready[0]].packets| == 1 && forall k :: k in ready[1..] ==> k != ready[0] && k in flows
    ensures key in ready[1..]
              && Ahead(Sizes(flows - {ready[0]}), ready[1..], key) == Ahead(Sizes(flows), ready, key) - 1
  {
    AheadFalls(Sizes(flows), ready, key);
    assert Sizes(flows - {ready[0]}) == Sizes(flows) - {ready[0]};
  }

  lemma TailQueued(st: SafState)
    requires Queued(st) && st.ready != []
    ensures forall k :: k in st.ready[1..] ==> k != st.ready[0] && k in st.flows && st.flows[k].complete
  {
    forall k | k in st.ready[1..]
      ensures k != st.ready[0] && k in st.flows && st.flows[k].complete
    {
      var i :| 0 <= i < |st.ready| - 1 && st.ready[1..][i] == k;
      assert st.ready[i + 1] == k;
    }
  }

  lemma DepartNearer(gate: SafState, cfg: SafConfig, cyc: int, key: FlowKey, st': SafState)
    requires Queued(gate) && gate.mem == [] && key in gate.ready && Requests(gate, cfg)
    requires Depart(gate, cfg, cyc, true) == Fine(st') && !Drains(gate, cfg, true, key)
    ensures key in st'.ready && Left(st', key) == Left(gate, key) - 1
    ensures forall k :: k in st'.ready ==> k in st'.flows && st'.flows[k].complete
  {
    var r := gate.ready[0];
    assert r in gate.ready;
    TailQueued(gate);
    DepartShape(gate, cfg, cyc, st');
    if |gate.flows[r].packets| > 1 {
      HeadPops(gate.flows, gate.ready, key, st'.flows[r]);
    } else {
      HeadGoes(gate.flows, gate.ready, key);
    }
  }

  lemma CaptureBehind(st: SafState, cfg: SafConfig, arrival: Option<Packet>, key: FlowKey, st': SafState)
    requires Capture(st, cfg, arrival) == Fine(st') && key in st.ready
    requires forall k :: k in st.ready ==> k in st.flows && st.flows[k].complete
    ensures key in st'.ready && Left(st', key) == Left(st, key)
  {
    if arrival.Some? && arrival.value.Msg? {
      var p := arrival.value;
      Unit(st.ready);
      AheadKept(Sizes(st.flows), Sizes(st'.flows), st.ready, if p.isEnd then [p.key] else [], key);
    }
  }

  lemma FinishBehind(st: SafState, cfg: SafConfig, cyc: int, inp: SafInputs, key: FlowKey, st': SafState)
    requires Finish(st, cfg, cyc, inp) == Fine(st') && key in st.ready
    requires forall k :: k in st.ready ==> k in st.flows && st.flows[k].complete
    ensures key in st'.ready && Left(st', key) == Left(st, key)
  {
    var c := C.Settled(st, cfg, cyc, inp);
    C.SettledFields(st, cfg, cyc, inp, c.st);
    CaptureBehind(c.st, cfg, inp.data, key, st');
  }

  /** Everything the drain argument needs of a state between cycles. */
  ghost predicate Poised(st: SafState, cfg: SafConfig, cyc: int, key: FlowKey, wait: int) {
    && Queued(st) && st.mem == [] && key in st.ready && Bounded(st, cfg, cyc) && wait >= 0 && Soon(st, cfg, cyc, wait)
  }

  lemma LeavingNearer(gate: SafState, cfg: SafConfig, cyc: int, inp: SafInputs, key: FlowKey, st': SafState)
    requires Queued(gate) && gate.mem == [] && key in gate.ready && Requests(gate, cfg) && !Drains(gate, cfg, true, key)
    requires Depart(gate, cfg, cyc, true).Fine? && Finish(Depart(gate, cfg, cyc, true).st, cfg, cyc, inp) == Fine(st')
    ensures key in st'.ready && Left(st', key) == Left(gate, key) - 1
  {
    var d := Depart(gate, cfg, cyc, true).st;
    DepartNearer(gate, cfg, cyc, key, d);
    FinishBehind(d, cfg, cyc, inp, key, st');
  }

  lemma WaitingNearer(gate: SafState, cfg: SafConfig, cyc: int, inp: SafInputs, key: FlowKey, wait: int, st': SafState)
    requires Capable(cfg) && Queued(gate) && key in gate.ready && !Requests(gate, cfg) && wait >= 0
               && GateSoon(gate, cfg, cyc, wait)
    requires Finish(gate, cfg, cyc, inp) == Fine(st')
    ensures wait > 0 && Soon(st', cfg, cyc, wait - 1) && key in st'.ready && Left(st', key) == Left(gate, key)
  {
    if wait == 0 {
      ReadyRequests(gate, cfg, cyc);
    }
    WaitRunsDown(gate, cfg, cyc, inp, st', wait);
    FinishBehind(gate, cfg, cyc, inp, key, st');
  }

  lemma CycleParts(st: SafState, cfg: SafConfig, cyc: int, inp: SafInputs, gate: SafState, st': SafState)
    requires inp.granted && gate == Gate(st, cfg, cyc, inp) && Cycle(st, cfg, cyc, inp) == Fine(st')
    ensures Depart(gate, cfg, cyc, true).Fine? && Finish(Depart(gate, cfg, cyc, true).st, cfg, cyc, inp) == Fine(st')
    ensures !Requests(gate, cfg) ==> Finish(gate, cfg, cyc, inp) == Fine(st')
  {
  }

  lemma GateQueued(st: SafState, cfg: SafConfig, cyc: int, inp: SafInputs, key: FlowKey, gate: SafState)
    requires gate == Gate(st, cfg, cyc, inp) && Queued(st)
    ensures Queued(gate) && gate.mem == st.mem && gate.ready == st.ready && Left(gate, key) == Left(st, key)
  {
    C.GateFields(st, cfg, cyc, inp);
  }

  /** One packet fewer is ahead, or one cycle less is to wait. */
  predicate Closer(left: int, wait: int, left': int, wait': int, pace: int) {
    || (left' == left - 1 && wait' == pace - 1)
    || (left' == left && wait' == wait - 1)
  }

  lemma CloserIsNearer(left: int, wait: int, left': int, wait': int, pace: int)
    requires wait >= 0 && Closer(left, wait, left', wait', pace)
    ensures left' * pace + wait' < left * pace + wait
  {
    OneMore(left - 1, pace);
  }

  lemma CycleSoon(st: SafState, cfg: SafConfig, cyc: int, inp: SafInputs, pace: int, st': SafState)
    requires Capable(cfg) && Pace(cfg, pace) && Bounded(st, cfg, cyc - 1) && Cycle(st, cfg, cyc, inp) == Fine(st')
    ensures pace >= 1 && Soon(st', cfg, cyc, pace - 1)
  {
    CycleKeepsBounds(st, cfg, cyc, inp, st');
    BoundedSoon(st', cfg, cyc, pace);
  }

  /** In a cycle with everything open the flow drains, or comes nearer to draining. */
  lemma CycleNearer(st: SafState, cfg: SafConfig, cyc: int, inp: SafInputs, key: FlowKey, pace: int, wait: int,
          st': SafState, gate: SafState)
    returns (wait': int)
    requires Capable(cfg) && Pace(cfg, pace) && Poised(st, cfg, cyc - 1, key, wait)
    requires inp.outAvail && inp.granted && Cycle(st, cfg, cyc, inp) == Fine(st')
    requires gate == Gate(st, cfg, cyc, inp) && !Drains(gate, cfg, true, key)
    ensures key in st'.ready && wait' >= 0 && Soon(st', cfg, cyc, wait')
    ensures Closer(Left(st, key), wait, Left(st', key), wait', pace)
  {
    GateQueued(st, cfg, cyc, inp, key, gate);
    CycleParts(st, cfg, cyc, inp, gate, st');
    CycleSoon(st, cfg, cyc, inp, pace, st');
    GateNearer(st, cfg, cyc, inp, wait);
    wait' := GateTurn(gate, cfg, cyc, inp, key, pace, wait, st');
  }

  lemma GateTurn(gate: SafState, cfg: SafConfig, cyc: int, inp: SafInputs, key: FlowKey, pace: int, wait: int,
          st': SafState)
    returns (wait': int)
    requires Capable(cfg) && Queued(gate) && gate.mem == [] && key in gate.ready && !Drains(gate, cfg, true, key)
    requires pace >= 1 && Soon(st', cfg, cyc, pace - 1) && wait >= 0 && GateSoon(gate, cfg, cyc, wait)
    requires Depart(gate, cfg, cyc, true).Fine? && Finish(Depart(gate, cfg, cyc, true).st, cfg, cyc, inp) == Fine(st')
    requires !Requests(gate, cfg) ==> Finish(gate, cfg, cyc, inp) == Fine(st')
    ensures key in st'.ready && wait' >= 0 && Soon(st', cfg, cyc, wait')
    ensures Closer(Left(gate, key), wait, Left(st', key), wait', pace)
  {
    if Requests(gate, cfg) {
      LeavingNearer(gate, cfg, cyc, inp, key, st');
      wait' := pace - 1;
    } else {
      WaitingNearer(gate, cfg, cyc, inp, key, wait, st');
      wait' := wait - 1;
    }
  }

  // ---- Runs -----------------------------------------------------------------------------------

  /** The remote router takes packets and the group, if any, always grants. */
  predicate Open(run: seq<SafEnv>) {
    forall i :: 0 <= i < |run| ==> run[i].outAvail && run[i].granted
  }

  lemma {:induction false} AlwaysBounded(s: Site, envs: seq<SafEnv>)
    requires s.Valid() && AllForeign(s, envs) && Capable(s.cfg)
    ensures LoopAfter(s, envs).Good? && Bounded(LoopAfter(s, envs).loop.st, s.cfg, |envs|)
  {
    if envs != [] {
      var before, e := envs[..|envs| - 1], envs[|envs| - 1];
      assert envs == before + [e];
      AfterSnoc(s, before, e);
      AlwaysBounded(s, before);
      var l := LoopAfter(s, before).loop;
      LinkPartIsCycle(s, l, |envs|, e);
      CycleKeepsBounds(l.st, s.cfg, |envs|, LinkInput(l, e), LoopAfter(s, envs).loop.st);
    }
  }

  /** The flow `key` drains in the last cycle of the run, giving its claim back. */
  ghost predicate DrainsAt(s: Site, envs: seq<SafEnv>, key: FlowKey)
    requires s.Valid() && AllForeign(s, envs)
  {
    && envs != []
    && AllForeign(s, envs[..|envs| - 1]) && LoopAfter(s, envs[..|envs| - 1]).Good?
    && var d := DrainedIn(s, LoopAfter(s, envs[..|envs| - 1]).loop, |envs|, envs[|envs| - 1]);
       d.Some? && d.value.0 == key
  }

  ghost predicate Standing(s: Site, envs: seq<SafEnv>, key: FlowKey, wait: int)
    requires s.Valid() && AllForeign(s, envs)
  {
    && MessagesOnly(envs) && LoopAfter(s, envs).Good?
    && var st := LoopAfter(s, envs).loop.st;
    && key in st.ready && wait >= 0 && Soon(st, s.cfg, |envs|, wait)
  }

  /** How long it can still take the flow to drain. */
  ghost function Distance(s: Site, envs: seq<SafEnv>, key: FlowKey, pace: int, wait: int): int
    requires s.Valid() && AllForeign(s, envs) && LoopAfter(s, envs).Good?
  {
    Left(LoopAfter(s, envs).loop.st, key) * pace + wait
  }

  lemma StandingPoised(s: Site, envs: seq<SafEnv>, key: FlowKey, wait: int)
    requires s.Valid() && AllForeign(s, envs) && Capable(s.cfg) && Standing(s, envs, key, wait)
    ensures Poised(LoopAfter(s, envs).loop.st, s.cfg, |envs|, key, wait)
  {
    NoErrorReachable(s, envs);
    AlwaysBounded(s, envs);
    MemoryNever(s, envs);
    BuffersQueued(LoopAfter(s, envs).loop.st);
  }

  lemma OneMoreStanding(s: Site, envs: seq<SafEnv>, e: SafEnv, key: FlowKey, pace: int, wait: int) returns (wait': int)
    requires s.Valid() && AllForeign(s, envs) && AllForeign(s, envs + [e]) && MessagesOnly(envs + [e]) && Capable(s.cfg)
    requires Pace(s.cfg, pace) && Standing(s, envs, key, wait) && e.outAvail && e.granted
    requires !DrainsAt(s, envs + [e], key)
    ensures Standing(s, envs + [e], key, wait')
    ensures Distance(s, envs + [e], key, pace, wait') < Distance(s, envs, key, pace, wait)
  {
    AfterSnoc(s, envs, e);
    StandingPoised(s, envs, key, wait);
    assert (envs + [e])[..|envs|] == envs;
    var l, l' := LoopAfter(s, envs).loop, LoopAfter(s, envs + [e]).loop;
    LinkPartIsCycle(s, l, |envs| + 1, e);
    wait' := CycleNearer(l.st, s.cfg, |envs| + 1, LinkInput(l, e), key, pace, wait, l'.st,
                          Gate(l.st, s.cfg, |envs| + 1, LinkInput(l, e)));
    CloserIsNearer(Left(l.st, key), wait, Left(l'.st, key), wait', pace);
  }

  /** A flow in the queue drains once as many open cycles have passed as its distance. */
  lemma {:induction false} DrainsWithin(s: Site, envs: seq<SafEnv>, run: seq<SafEnv>, key: FlowKey, pace: int,
          wait: int)
    returns (k: nat)
    requires s.Valid() && AllForeign(s, envs) && AllForeign(s, envs + run) && MessagesOnly(envs + run) && Capable(s.cfg)
    requires Pace(s.cfg, pace) && Standing(s, envs, key, wait) && Open(run)
    requires |run| > Distance(s, envs, key, pace, wait)
    ensures k <= |run| && AllForeign(s, envs + run[..k]) && DrainsAt(s, envs + run[..k], key)
    decreases |run|
  {
    StandingFar(s, envs, key, pace, wait);
    var e, rest := run[0], run[1..];
    assert run == [e] + rest && run[..1] == [e];
    Assoc(envs, [e], rest);
    PartsForeign(s, envs + [e], rest);
    PartsMessages(envs + [e], rest);
    if DrainsAt(s, envs + [e], key) {
      k := 1;
    } else {
      var wait' := OneMoreStanding(s, envs, e, key, pace, wait);
      var j := DrainsWithin(s, envs + [e], rest, key, pace, wait');
      k := j + 1;
      assert run[..k] == [e] + rest[..j];
      Assoc(envs, [e], rest[..j]);
    }
  }

  lemma StandingFar(s: Site, envs: seq<SafEnv>, key: FlowKey, pace: int, wait: int)
    requires s.Valid() && AllForeign(s, envs) && Capable(s.cfg) && Pace(s.cfg, pace) && Standing(s, envs, key, wait)
    ensures Distance(s, envs, key, pace, wait) >= 0
    ensures wait < pace ==> Distance(s, envs, key, pace, wait) < (s.cfg.safDepth + 1) * pace
  {
    NoErrorReachable(s, envs);
    StandingPoised(s, envs, key, wait);
    var l := LoopAfter(s, envs).loop;
    AheadBelowSum(Sizes(l.st.flows), l.st.ready, key);
    OccupancyBelowClaims(s, envs);
    MulMono(0, Left(l.st, key), pace);
    MulMono(Left(l.st, key), s.cfg.safDepth, pace);
    OneMore(s.cfg.safDepth, pace);
  }

  /** Once the upstream has sent a whole flow and its tail is off the wire, the flow is in the queue. */
  lemma SentIsQueued(s: Site, l: SafLoop, key: FlowKey)
    requires Safe(s, l) && key in l.sent && key in Claims(s, l.rt) && l.sent[key] == Claims(s, l.rt)[key]
               && !Carries(l.wire, key)
    ensures key in l.st.ready
  {
    assert KeyOk(Claims(s, l.rt), l.st.expected, l.st.flows, l.wire, l.ctrlWire, l.sent, key);
    assert C.BufferOk(l.st, key);
    ClaimBelowDepth(l.rt.books.links[s.link], key);
  }

  /** While its tail is on the wire a flow does not drain, and afterwards nothing more of it is sent. */
  lemma TailStep(s: Site, l: SafLoop, cyc: int, e: SafEnv, key: FlowKey, total: int)
    requires Safe(s, l) && Foreign(s, e.ops) && Carries(l.wire, key)
    requires key in l.sent && key in Claims(s, l.rt) && l.sent[key] == Claims(s, l.rt)[key] == total
    ensures LoopStep(s, l, cyc, e).Good?
    ensures var l' := LoopStep(s, l, cyc, e).loop;
            && !Carries(l'.wire, key) && key in l'.sent && l'.sent[key] == total
            && key in Claims(s, l'.rt) && Claims(s, l'.rt)[key] == total
  {
    TailStays(s, l, cyc, e, key);
    LinkPartSafe(s, l, cyc, e);
    LinkPartKeeps(s, l, cyc, e, key);
    NothingMore(s, LinkPart(s, l, cyc, e).loop, e, key, total);
  }

  lemma TailIsCaptured(s: Site, envs: seq<SafEnv>, e: SafEnv, key: FlowKey, total: int)
    requires s.Valid() && AllForeign(s, envs) && AllForeign(s, envs + [e])
    requires HasSent(s, envs, key, total, total) && Carries(LoopAfter(s, envs).loop.wire, key)
    ensures HasSent(s, envs + [e], key, total, total) && !Carries(LoopAfter(s, envs + [e]).loop.wire, key)
  {
    AfterSnoc(s, envs, e);
    TailStep(s, LoopAfter(s, envs).loop, |envs| + 1, e, key, total);
  }

  lemma TailStays(s: Site, l: SafLoop, cyc: int, e: SafEnv, key: FlowKey)
    requires Safe(s, l) && Carries(l.wire, key)
    ensures DrainedIn(s, l, cyc, e).Some? ==> DrainedIn(s, l, cyc, e).value.0 != key
  {
    C.GateFields(l.st, s.cfg, cyc, LinkInput(l, e));
    assert C.BufferOk(l.st, key);
    assert KeyOk(Claims(s, l.rt), l.st.expected, l.st.flows, l.wire, l.ctrlWire, l.sent, key);
  }

  lemma NothingMore(s: Site, l: SafLoop, e: SafEnv, key: FlowKey, total: int)
    requires Safe(s, l) && Foreign(s, e.ops) && key in l.sent && key in Claims(s, l.rt)
               && l.sent[key] == Claims(s, l.rt)[key] == total
    ensures Shaped(s.topo, OutsidePart(s, l, e).rt.books)
    ensures var l' := OutsidePart(s, l, e);
            && !Carries(l'.wire, key) && key in l'.sent && l'.sent[key] == total
            && key in Claims(s, l'.rt) && Claims(s, l'.rt)[key] == total
  {
    ApplyKeepsClaims(s, l.rt, e.ops, key);
  }

  lemma QueuedDrains(s: Site, envs: seq<SafEnv>, run: seq<SafEnv>, key: FlowKey, total: int, pace: int) returns (k: nat)
    requires s.Valid() && AllForeign(s, envs) && AllForeign(s, envs + run) && MessagesOnly(envs + run) && Capable(s.cfg)
    requires Pace(s.cfg, pace) && HasSent(s, envs, key, total, total) && !Carries(LoopAfter(s, envs).loop.wire, key)
    requires Open(run) && |run| >= (s.cfg.safDepth + 1) * pace
    ensures k <= |run| && AllForeign(s, envs + run[..k]) && DrainsAt(s, envs + run[..k], key)
  {
    NoErrorReachable(s, envs);
    AlwaysBounded(s, envs);
    PartsMessages(envs, run);
    SentIsQueued(s, LoopAfter(s, envs).loop, key);
    BoundedSoon(LoopAfter(s, envs).loop.st, s.cfg, |envs|, pace);
    StandingFar(s, envs, key, pace, pace - 1);
    k := DrainsWithin(s, envs, run, key, pace, pace - 1);
  }

  lemma TailDrains(s: Site, envs: seq<SafEnv>, run: seq<SafEnv>, e: SafEnv, rest: seq<SafEnv>, key: FlowKey, total: int,
          pace: int)
    returns (j: nat)
    requires s.Valid() && AllForeign(s, envs) && AllForeign(s, envs + run) && MessagesOnly(envs + run) && Capable(s.cfg)
    requires Pace(s.cfg, pace) && HasSent(s, envs, key, total, total) && Carries(LoopAfter(s, envs).loop.wire, key)
    requires Open(run) && run == [e] + rest && |rest| >= (s.cfg.safDepth + 1) * pace
    ensures j <= |rest| && AllForeign(s, envs + run[..j + 1]) && DrainsAt(s, envs + run[..j + 1], key)
  {
    Assoc(envs, [e], rest);
    PartsForeign(s, envs + [e], rest);
    TailIsCaptured(s, envs, e, key, total);
    assert forall i :: 0 <= i < |rest| ==> rest[i] == run[i + 1];
    j := QueuedDrains(s, envs + [e], rest, key, total, pace);
    assert run[..j + 1] == [e] + rest[..j];
    Assoc(envs, [e], rest[..j]);
  }

  lemma SentDrains(s: Site, envs: seq<SafEnv>, run: seq<SafEnv>, key: FlowKey, total: int, pace: int) returns (k: nat)
    requires s.Valid() && AllForeign(s, envs) && AllForeign(s, envs + run) && MessagesOnly(envs + run) && Capable(s.cfg)
    requires Pace(s.cfg, pace) && HasSent(s, envs, key, total, total)
    requires Open(run) && |run| > (s.cfg.safDepth + 1) * pace
    ensures k <= |run| && AllForeign(s, envs + run[..k]) && DrainsAt(s, envs + run[..k], key)
  {
    if Carries(LoopAfter(s, envs).loop.wire, key) {
      MulMono(0, s.cfg.safDepth + 1, pace);
      var j := TailDrains(s, envs, run, run[0], run[1..], key, total, pace);
      k := j + 1;
    } else {
      k := QueuedDrains(s, envs, run, key, total, pace);
    }
  }

  /**
   * No starvation: from any reachable state, a flow announced earlier whose remaining packets are offered one
   * a cycle is through the link, its claim returned, within those cycles, one more, and `depth + 1` times the pace
   * of the open link. Other flows can come, go and fill every slot they reserve.
   */
  lemma ReservedFlowDrains(s: Site, envs: seq<SafEnv>, offers: seq<SafEnv>, run: seq<SafEnv>, key: FlowKey, total: int,
          pace: int)
    returns (k: nat)
    requires s.Valid() && AllForeign(s, envs) && AllForeign(s, envs + offers + run) && MessagesOnly(envs + offers + run)
    requires Capable(s.cfg) && Pace(s.cfg, pace)
    requires HasSent(s, envs, key, total - |offers|, total) && Offered(offers, key, total - |offers|, total)
    requires Open(run) && |run| > (s.cfg.safDepth + 1) * pace
    ensures k <= |run| && AllForeign(s, envs + offers + run[..k]) && DrainsAt(s, envs + offers + run[..k], key)
  {
    PartsForeign(s, envs + offers, run);
    PartsMessages(envs + offers, run);
    SentAtFullRate(s, envs, offers, key, total - |offers|, total);
    k := SentDrains(s, envs + offers, run, key, total, pace);
  }
}
