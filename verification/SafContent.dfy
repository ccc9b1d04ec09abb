/** What the production link carries: whole flows, in the order their tails arrived, complete and unchanged. */
module SafContent {
  import opened Basics
  import opened FlowLedger
  import opened BoundedLink
  import opened CreditLoop
  import opened SafLink

  /** A flow whose tail has been captured, with the size its request declared. */
  datatype Flow = Flow(key: FlowKey, declared: int, packets: seq<Packet>)

  /**
   * The link and its history: data-channel packets taken in, flows completed, packets that entered the pipe, packets
   * out, and control packets out.
   */
  datatype Trace = Trace(st: SafState, captured: seq<Packet>, completed: seq<Flow>, departed: seq<Packet>,
                         delivered: seq<Packet>, answered: seq<Packet>)

  datatype Run = Stopped(error: Error) | Running(trace: Trace)

  predicate IsTail(arrival: Option<Packet>) {
    arrival.Some? && arrival.value.Msg? && arrival.value.kind == Data && arrival.value.isEnd
  }

  function Completes(st: SafState, arrival: Option<Packet>): seq<Flow> {
    if IsTail(arrival) && arrival.value.key in st.expected
    then [Flow(arrival.value.key, st.expected[arrival.value.key], Grown(st, arrival.value).packets)]
    else []
  }

  // A cycle in steps, each moving packets between the history and the state.

  function Gated(t: Trace, cfg: SafConfig, cyc: int, inp: SafInputs): Trace {
    t.(st := Gate(t.st, cfg, cyc, inp), delivered := t.delivered + OnWire(Emitted(t.st, inp.outAvail)))
  }

  function Departed(t: Trace, cfg: SafConfig, cyc: int, granted: bool): Run {
    var d := Depart(t.st, cfg, cyc, granted);
    if d.Fault? then Stopped(d.error)
    else Running(t.(st := d.st, departed := t.departed + OnWire(Departing(t.st, cfg, granted))))
  }

  function Settled(st: SafState, cfg: SafConfig, cyc: int, inp: SafInputs): Result {
    AcceptCtrl(DeliverCtrl(CapTokens(st, cfg), cyc, inp.outCtrlAvail), cfg, cyc, inp.ctrl)
  }

  function Controlled(t: Trace, cfg: SafConfig, cyc: int, inp: SafInputs): Run {
    var c := Settled(t.st, cfg, cyc, inp);
    if c.Fault? then Stopped(c.error)
    else Running(t.(st := c.st, answered := t.answered + OnWire(CtrlOut(t.st, cyc, inp.outCtrlAvail))))
  }

  ghost function Captured(t: Trace, cfg: SafConfig, arrival: Option<Packet>): Run {
    var c := Capture(t.st, cfg, arrival);
    if c.Fault? then Stopped(c.error)
    else Running(t.(st := c.st, captured := t.captured + OnWire(arrival),
        completed := t.completed + Completes(t.st, arrival)))
  }

  ghost function ArrivalStep(t: Trace, cfg: SafConfig, cyc: int, inp: SafInputs): Run {
    var c := Controlled(t, cfg, cyc, inp);
    if c.Stopped? then c else Captured(c.trace, cfg, inp.data)
  }

  ghost function TraceStep(t: Trace, cfg: SafConfig, cyc: int, inp: SafInputs): Run {
    var d := Departed(Gated(t, cfg, cyc, inp), cfg, cyc, inp.granted);
    if d.Stopped? then d else ArrivalStep(d.trace, cfg, cyc, inp)
  }

  /** The steps are the link's cycle. */
  lemma TraceIsCycle(t: Trace, cfg: SafConfig, cyc: int, inp: SafInputs)
    ensures var next, result := TraceStep(t, cfg, cyc, inp), Cycle(t.st, cfg, cyc, inp);
            && (next.Stopped? <==> result.Fault?)
            && (next.Stopped? ==> result == Fault(next.error))
            && (next.Running? ==> result == Fine(next.trace.st))
  {
  }

  /** The link after these cycles from reset, unless one of them stopped the simulation. */
  ghost function Traced(cfg: SafConfig, ins: seq<SafInputs>): Run {
    if ins == [] then Running(Trace(Reset(), [], [], [], [], []))
    else
      var before := Traced(cfg, ins[..|ins| - 1]);
      if before.Stopped? then before else TraceStep(before.trace, cfg, |ins|, ins[|ins| - 1])
  }

  // ---- Views of a packet sequence -------------------------------------------------------------

  function Mems(s: seq<Packet>): seq<Packet> {
    if s == [] then [] else Mems(s[..|s| - 1]) + if s[|s| - 1].Mem? then [s[|s| - 1]] else []
  }

  function Msgs(s: seq<Packet>): seq<Packet> {
    if s == [] then [] else Msgs(s[..|s| - 1]) + if s[|s| - 1].Msg? then [s[|s| - 1]] else []
  }

  function OfFlow(s: seq<Packet>, k: FlowKey): seq<Packet> {
    if s == [] then []
    else OfFlow(s[..|s| - 1], k) + if s[|s| - 1].Msg? && s[|s| - 1].key == k then [s[|s| - 1]] else []
  }

  function Concat(fs: seq<Flow>): seq<Packet> {
    if fs == [] then [] else Concat(fs[..|fs| - 1]) + fs[|fs| - 1].packets
  }

  lemma ViewsSnoc(s: seq<Packet>, p: Packet, k: FlowKey)
    ensures Mems(s + [p]) == Mems(s) + if p.Mem? then [p] else []
    ensures Msgs(s + [p]) == Msgs(s) + if p.Msg? then [p] else []
    ensures OfFlow(s + [p], k) == OfFlow(s, k) + if p.Msg? && p.key == k then [p] else []
  {
    assert (s + [p])[..|s|] == s;
  }

  lemma {:induction false} OfFlowConcat(a: seq<Packet>, b: seq<Packet>, k: FlowKey)
    ensures OfFlow(a + b, k) == OfFlow(a, k) + OfFlow(b, k)
  {
    if b == [] {
      assert a + b == a;
    } else {
      var p := b[|b| - 1];
      assert a + b == (a + b[..|b| - 1]) + [p];
      ViewsSnoc(a + b[..|b| - 1], p, k);
      OfFlowConcat(a, b[..|b| - 1], k);
    }
  }

  lemma {:induction false} OfFlowUniform(s: seq<Packet>, key: FlowKey, k: FlowKey)
    requires DataOf(s, key)
    ensures OfFlow(s, k) == if k == key then s else []
  {
    if s != [] {
      OfFlowUniform(s[..|s| - 1], key, k);
      assert s == s[..|s| - 1] + [s[|s| - 1]];
    }
  }

  // ---- The invariant --------------------------------------------------------------------------

  predicate DataOf(s: seq<Packet>, key: FlowKey) {
    forall i :: 0 <= i < |s| ==> s[i].Msg? && s[i].kind == Data && s[i].key == key
  }

  /** One key, the declared number of packets, and the only tail in last place, numbered with that count. */
  predicate Whole(f: Flow) {
    && DataOf(f.packets, f.key)
    && |f.packets| == f.declared > 0
    && (forall i :: 0 <= i < |f.packets| ==> (f.packets[i].isEnd <==> i == |f.packets| - 1))
    && f.packets[|f.packets| - 1].seqId == f.declared
  }

  predicate Wholes(fs: seq<Flow>) {
    forall i :: 0 <= i < |fs| ==> Whole(fs[i])
  }

  /** A buffer's declared size is its request's; a flow is complete exactly when it is queued, once, to leave. */
  predicate BufferOk(st: SafState, k: FlowKey) {
    && (k in st.flows ==>
          && k in st.expected && st.flows[k].expected == st.expected[k]
          && st.flows[k].packets != [] && DataOf(st.flows[k].packets, k)
          && |st.flows[k].packets| <= st.expected[k])
    && (k in st.flows && !st.flows[k].complete ==>
          forall i :: 0 <= i < |st.flows[k].packets| ==> !st.flows[k].packets[i].isEnd)
    && multiset(st.ready)[k] == (if k in st.flows && st.flows[k].complete then 1 else 0)
    && (k in st.expected ==> st.expected[k] > 0)
  }

  ghost predicate BuffersOk(st: SafState) {
    forall k :: BufferOk(st, k)
  }

  function Held(flows: map<FlowKey, FlowBuffer>, k: FlowKey): seq<Packet> {
    if k in flows then flows[k].packets else []
  }

  /** Packets of whole flows still to leave, in the order they will. */
  function Remaining(flows: map<FlowKey, FlowBuffer>, ready: seq<FlowKey>): seq<Packet> {
    if ready == [] then [] else Held(flows, ready[0]) + Remaining(flows, ready[1..])
  }

  function Partial(flows: map<FlowKey, FlowBuffer>, k: FlowKey): seq<Packet> {
    if k in flows && !flows[k].complete then flows[k].packets else []
  }

  ghost predicate FlowAccount(flows: map<FlowKey, FlowBuffer>, captured: seq<Packet>, completed: seq<Flow>,
          k: FlowKey)
  {
    OfFlow(captured, k) == OfFlow(Concat(completed), k) + Partial(flows, k)
  }

  ghost predicate FlowAccounts(flows: map<FlowKey, FlowBuffer>, captured: seq<Packet>, completed: seq<Flow>) {
    forall k :: FlowAccount(flows, captured, completed, k)
  }

  ghost predicate InPipe(st: SafState, departed: seq<Packet>, delivered: seq<Packet>) {
    delivered + st.rx + Payloads(st.inflight) == departed
  }

  ghost predicate Ordered(st: SafState, completed: seq<Flow>, departed: seq<Packet>) {
    Msgs(departed) + Remaining(st.flows, st.ready) == Concat(completed)
  }

  ghost predicate MemsOrdered(st: SafState, captured: seq<Packet>, departed: seq<Packet>) {
    Mems(captured) == Mems(departed) + st.mem
  }

  ghost predicate Faithful(t: Trace) {
    && BuffersOk(t.st)
    && InPipe(t.st, t.departed, t.delivered)
    && Ordered(t.st, t.completed, t.departed)
    && MemsOrdered(t.st, t.captured, t.departed)
    && FlowAccounts(t.st.flows, t.captured, t.completed)
    && Wholes(t.completed)
    && AllMem(t.st.mem)
  }

  // ---- Each stage keeps it --------------------------------------------------------------------

  lemma GateFaithful(t: Trace, cfg: SafConfig, cyc: int, inp: SafInputs)
    requires Faithful(t)
    ensures Faithful(Gated(t, cfg, cyc, inp))
  {
    EmitPipe(t.st, cfg, inp.outAvail, t.departed, t.delivered);
    ArrivePipe(Emit(Refill(t.st, cfg), inp.outAvail), cfg, cyc, t.departed,
        t.delivered + OnWire(Emitted(t.st, inp.outAvail)));
    GateFields(t.st, cfg, cyc, inp);
    SameBuffers(t.st, Gate(t.st, cfg, cyc, inp));
  }

  lemma EmitPipe(st: SafState, cfg: SafConfig, avail: bool, departed: seq<Packet>, delivered: seq<Packet>)
    requires InPipe(st, departed, delivered)
    ensures InPipe(Emit(Refill(st, cfg), avail), departed, delivered + OnWire(Emitted(st, avail)))
  {
    if st.rx != [] {
      assert st.rx == [st.rx[0]] + st.rx[1..];
      Assoc(delivered, [st.rx[0]], st.rx[1..]);
    }
  }

  lemma GateFields(st: SafState, cfg: SafConfig, cyc: int, inp: SafInputs)
    ensures var st' := Gate(st, cfg, cyc, inp);
            st'.flows == st.flows && st'.ready == st.ready && st'.expected == st.expected && st'.mem == st.mem
            && st'.toggle == st.toggle && st'.ctrl == st.ctrl && st'.ctrlToggle == st.ctrlToggle
  {
  }

  lemma ArrivePipe(st: SafState, cfg: SafConfig, cyc: int, departed: seq<Packet>, delivered: seq<Packet>)
    requires InPipe(st, departed, delivered)
    ensures InPipe(Arrive(st, cfg, cyc), departed, delivered)
  {
    if st.inflight != [] {
      PayloadsTail(st.inflight);
    }
  }

  lemma SameBuffers(st: SafState, st': SafState)
    requires BuffersOk(st) && st'.flows == st.flows && st'.ready == st.ready && st'.expected == st.expected
    ensures BuffersOk(st')
  {
    forall k
      ensures BufferOk(st', k)
    {
      assert BufferOk(st, k);
    }
  }

  lemma {:induction false} RemainingFrame(flows: map<FlowKey, FlowBuffer>, flows': map<FlowKey, FlowBuffer>,
          ready: seq<FlowKey>)
    requires forall k :: k in ready ==> Held(flows', k) == Held(flows, k)
    ensures Remaining(flows', ready) == Remaining(flows, ready)
  {
    if ready != [] {
      assert ready == [ready[0]] + ready[1..];
      RemainingFrame(flows, flows', ready[1..]);
    }
  }

  lemma {:induction false} RemainingSnoc(flows: map<FlowKey, FlowBuffer>, ready: seq<FlowKey>, k: FlowKey)
    ensures Remaining(flows, ready + [k]) == Remaining(flows, ready) + Held(flows, k)
  {
    if ready == [] {
      assert ([k])[1..] == [];
    } else {
      assert (ready + [k])[1..] == ready[1..] + [k];
      RemainingSnoc(flows, ready[1..], k);
    }
  }

  lemma HeadOnce(ready: seq<FlowKey>)
    requires ready != [] && multiset(ready)[ready[0]] <= 1
    ensures ready[0] !in ready[1..]
    ensures forall k :: multiset(ready[1..])[k] == multiset(ready)[k] - if k == ready[0] then 1 else 0
  {
    assert ready == [ready[0]] + ready[1..];
  }

  /** The mismatch the source guards against at the head of the ready queue cannot occur. */
  lemma ReadyHeadUsable(st: SafState)
    requires BuffersOk(st) && st.ready != []
    ensures HeadUsable(st)
  {
    assert BufferOk(st, st.ready[0]);
    assert st.ready[0] in multiset(st.ready);
  }

  lemma DepartBuffers(st: SafState, cfg: SafConfig, cyc: int, granted: bool)
    requires BuffersOk(st)
    ensures Depart(st, cfg, cyc, granted).Fine? && BuffersOk(Depart(st, cfg, cyc, granted).st)
  {
    if st.ready != [] {
      ReadyHeadUsable(st);
      HeadOnceReady(st);
    }
    forall k
      ensures BufferOk(Depart(st, cfg, cyc, granted).st, k)
    {
      DepartBuffer(st, cfg, cyc, granted, k);
    }
  }

  lemma HeadOnceReady(st: SafState)
    requires BuffersOk(st) && st.ready != []
    ensures st.ready[0] !in st.ready[1..]
    ensures forall k :: multiset(st.ready[1..])[k] == multiset(st.ready)[k] - if k == st.ready[0] then 1 else 0
  {
    assert BufferOk(st, st.ready[0]);
    HeadOnce(st.ready);
  }

  lemma DepartBuffer(st: SafState, cfg: SafConfig, cyc: int, granted: bool, k: FlowKey)
    requires BufferOk(st, k) && Depart(st, cfg, cyc, granted).Fine?
    requires st.ready != [] ==> multiset(st.ready[1..])[k] == multiset(st.ready)[k] - if k == st.ready[0] then 1 else 0
    ensures BufferOk(Depart(st, cfg, cyc, granted).st, k)
  {
    if Requests(st, cfg) && granted && st.mem == [] && k in st.flows {
      var packets := st.flows[k].packets;
      assert forall i :: 0 <= i < |packets| - 1 ==> packets[1..][i] == packets[i + 1];
    }
  }

  predicate AllMem(s: seq<Packet>) {
    forall i :: 0 <= i < |s| ==> s[i].Mem?
  }

  lemma DepartOrdered(st: SafState, cfg: SafConfig, cyc: int, granted: bool, completed: seq<Flow>,
          departed: seq<Packet>)
    requires BuffersOk(st) && Ordered(st, completed, departed) && AllMem(st.mem)
    requires Depart(st, cfg, cyc, granted).Fine?
    ensures Ordered(Depart(st, cfg, cyc, granted).st, completed, departed + OnWire(Departing(st, cfg, granted)))
  {
    var gone, st' := Departing(st, cfg, granted), Depart(st, cfg, cyc, granted).st;
    DepartShape(st, cfg, cyc, granted, st');
    if gone.Some? && gone.value.Mem? {
      MemLeaves(departed, gone.value);
    } else if gone.Some? {
      MsgLeaves(departed, gone.value, Remaining(st.flows, st.ready), Remaining(st'.flows, st'.ready),
          Concat(completed));
    } else {
      assert departed + [] == departed;
    }
  }

  /** What a departure does: nothing, or the first memory flit leaves, or the first packet of the first whole flow. */
  lemma DepartShape(st: SafState, cfg: SafConfig, cyc: int, granted: bool, st': SafState)
    requires BuffersOk(st) && AllMem(st.mem) && Depart(st, cfg, cyc, granted) == Fine(st')
    ensures var gone := Departing(st, cfg, granted);
            && (gone.None? ==> st' == st)
            && (gone.Some? && gone.value.Mem? ==>
                  st.mem == [gone.value] + st'.mem && st'.flows == st.flows && st'.ready == st.ready)
            && (gone.Some? && gone.value.Msg? ==>
                  st'.mem == st.mem && Remaining(st.flows, st.ready) == [gone.value] + Remaining(st'.flows, st'.ready))
  {
    if st.ready != [] {
      ReadyHeadUsable(st);
    }
    if Requests(st, cfg) && granted && st.mem == [] {
      HeadOnceReady(st);
      assert BufferOk(st, st.ready[0]);
      assert st.flows[st.ready[0]].packets[0].Msg?;
      FlowLeaves(st, cfg, cyc, st');
    }
  }

  lemma FlowLeaves(st: SafState, cfg: SafConfig, cyc: int, st': SafState)
    requires Requests(st, cfg) && st.mem == [] && HeadUsable(st) && st.ready[0] !in st.ready[1..]
    requires Depart(st, cfg, cyc, true) == Fine(st')
    ensures Remaining(st.flows, st.ready) == [st.flows[st.ready[0]].packets[0]] + Remaining(st'.flows, st'.ready)
  {
    var packets := st.flows[st.ready[0]].packets;
    if |packets| > 1 {
      HeadShrinks(st.flows, st'.flows, st.ready, packets);
    } else {
      HeadDrains(st.flows, st'.flows, st.ready, packets);
    }
  }

  lemma HeadShrinks(flows: map<FlowKey, FlowBuffer>, flows': map<FlowKey, FlowBuffer>, ready: seq<FlowKey>,
          packets: seq<Packet>)
    requires ready != [] && ready[0] !in ready[1..] && packets != []
    requires Held(flows, ready[0]) == packets && Held(flows', ready[0]) == packets[1..]
    requires forall k :: k != ready[0] ==> Held(flows', k) == Held(flows, k)
    ensures Remaining(flows, ready) == [packets[0]] + Remaining(flows', ready)
  {
    RemainingFrame(flows, flows', ready[1..]);
    assert packets == [packets[0]] + packets[1..];
    Assoc([packets[0]], packets[1..], Remaining(flows, ready[1..]));
  }

  lemma HeadDrains(flows: map<FlowKey, FlowBuffer>, flows': map<FlowKey, FlowBuffer>, ready: seq<FlowKey>,
          packets: seq<Packet>)
    requires ready != [] && ready[0] !in ready[1..] && |packets| == 1
    requires Held(flows, ready[0]) == packets
    requires forall k :: k != ready[0] ==> Held(flows', k) == Held(flows, k)
    ensures Remaining(flows, ready) == [packets[0]] + Remaining(flows', ready[1..])
  {
    RemainingFrame(flows, flows', ready[1..]);
    assert packets == [packets[0]];
  }

  lemma MemLeaves(departed: seq<Packet>, gone: Packet)
    requires gone.Mem?
    ensures Msgs(departed + [gone]) == Msgs(departed) && Mems(departed + [gone]) == Mems(departed) + [gone]
  {
    ViewsSnoc(departed, gone, FlowKey(0, 0, 0));
  }

  lemma MsgLeaves(departed: seq<Packet>, gone: Packet, remaining: seq<Packet>, remaining': seq<Packet>,
          all: seq<Packet>)
    requires gone.Msg? && Msgs(departed) + remaining == all && remaining == [gone] + remaining'
    ensures Msgs(departed + [gone]) + remaining' == all && Mems(departed + [gone]) == Mems(departed)
  {
    ViewsSnoc(departed, gone, FlowKey(0, 0, 0));
    Assoc(Msgs(departed), [gone], remaining');
  }

  lemma DepartPipe(st: SafState, cfg: SafConfig, cyc: int, granted: bool, departed: seq<Packet>, delivered: seq<Packet>)
    requires InPipe(st, departed, delivered) && Depart(st, cfg, cyc, granted).Fine?
    ensures InPipe(Depart(st, cfg, cyc, granted).st, departed + OnWire(Departing(st, cfg, granted)), delivered)
  {
    var gone := Departing(st, cfg, granted);
    if gone.Some? {
      PayloadsSnoc(st.inflight, (cyc + cfg.latency, gone.value));
    }
  }

  lemma DepartMems(st: SafState, cfg: SafConfig, cyc: int, granted: bool, captured: seq<Packet>, departed: seq<Packet>)
    requires BuffersOk(st) && AllMem(st.mem) && Depart(st, cfg, cyc, granted).Fine?
    requires MemsOrdered(st, captured, departed)
    ensures MemsOrdered(Depart(st, cfg, cyc, granted).st, captured, departed + OnWire(Departing(st, cfg, granted)))
  {
    var gone, st' := Departing(st, cfg, granted), Depart(st, cfg, cyc, granted).st;
    DepartShape(st, cfg, cyc, granted, st');
    if gone.Some? && gone.value.Mem? {
      MemLeaves(departed, gone.value);
      Assoc(Mems(departed), [gone.value], st'.mem);
    } else if gone.Some? {
      ViewsSnoc(departed, gone.value, FlowKey(0, 0, 0));
    } else {
      assert departed + [] == departed;
    }
  }

  lemma DepartAccounts(st: SafState, cfg: SafConfig, cyc: int, granted: bool, captured: seq<Packet>,
          completed: seq<Flow>)
    requires FlowAccounts(st.flows, captured, completed) && Depart(st, cfg, cyc, granted).Fine?
    ensures FlowAccounts(Depart(st, cfg, cyc, granted).st.flows, captured, completed)
  {
    forall k
      ensures FlowAccount(Depart(st, cfg, cyc, granted).st.flows, captured, completed, k)
    {
      assert FlowAccount(st.flows, captured, completed, k);
    }
  }

  lemma DepartFaithful(t: Trace, cfg: SafConfig, cyc: int, granted: bool)
    requires Faithful(t)
    ensures Departed(t, cfg, cyc, granted).Running? && Faithful(Departed(t, cfg, cyc, granted).trace)
  {
    DepartBuffers(t.st, cfg, cyc, granted);
    DepartOrdered(t.st, cfg, cyc, granted, t.completed, t.departed);
    DepartPipe(t.st, cfg, cyc, granted, t.departed, t.delivered);
    DepartMems(t.st, cfg, cyc, granted, t.captured, t.departed);
    DepartAccounts(t.st, cfg, cyc, granted, t.captured, t.completed);
    DepartMem(t.st, cfg, cyc, granted);
  }

  lemma DepartMem(st: SafState, cfg: SafConfig, cyc: int, granted: bool)
    requires AllMem(st.mem) && Depart(st, cfg, cyc, granted).Fine?
    ensures AllMem(Depart(st, cfg, cyc, granted).st.mem)
  {
  }

  /** A control cycle leaves the data path alone, except that a request may declare one new flow. */
  predicate Declares(st: SafState, expected: map<FlowKey, int>, request: Option<Packet>) {
    || expected == st.expected
    || (request.Some? && request.value.Msg? && request.value.key !in st.expected && request.value.key !in st.flows
        && request.value.flowPackets > 0 && expected == st.expected[request.value.key := request.value.flowPackets])
  }

  lemma SettledFields(st: SafState, cfg: SafConfig, cyc: int, inp: SafInputs, st': SafState)
    requires Settled(st, cfg, cyc, inp) == Fine(st')
    ensures st'.flows == st.flows && st'.ready == st.ready && st'.mem == st.mem
    ensures st'.inflight == st.inflight && st'.rx == st.rx && st'.toggle == st.toggle
    ensures Declares(st, st'.expected, inp.ctrl)
  {
  }

  lemma CtrlBuffers(st: SafState, st': SafState, request: Option<Packet>)
    requires BuffersOk(st) && st'.flows == st.flows && st'.ready == st.ready && Declares(st, st'.expected, request)
    ensures BuffersOk(st')
  {
    forall k
      ensures BufferOk(st', k)
    {
      assert BufferOk(st, k);
    }
  }

  lemma CtrlFaithful(t: Trace, cfg: SafConfig, cyc: int, inp: SafInputs)
    requires Faithful(t) && Controlled(t, cfg, cyc, inp).Running?
    ensures Faithful(Controlled(t, cfg, cyc, inp).trace)
  {
    var st' := Settled(t.st, cfg, cyc, inp).st;
    SettledFields(t.st, cfg, cyc, inp, st');
    CtrlBuffers(t.st, st', inp.ctrl);
    SameRest(t, st');
  }

  lemma SameRest(t: Trace, st': SafState)
    requires Faithful(t) && BuffersOk(st')
    requires st'.flows == t.st.flows && st'.ready == t.st.ready && st'.mem == t.st.mem
    requires st'.inflight == t.st.inflight && st'.rx == t.st.rx
    ensures forall answered :: Faithful(t.(st := st', answered := answered))
  {
  }

  lemma CaptureBuffers(st: SafState, p: Packet)
    requires BuffersOk(st) && CaptureRoom(st, p).Fine?
    ensures BuffersOk(CaptureRoom(st, p).st)
  {
    var st' := CaptureRoom(st, p).st;
    forall k
      ensures BufferOk(st', k)
    {
      assert BufferOk(st, k);
      if p.Msg? && k == p.key && k in st.flows {
        assert st'.flows[k].packets == st.flows[k].packets + [p];
      }
    }
  }

  /** What a capture does: a memory flit queues up, a flow grows, or its tail makes it whole and ready. */
  lemma CaptureShape(st: SafState, p: Packet, st': SafState)
    requires BuffersOk(st) && CaptureRoom(st, p) == Fine(st')
    ensures st'.inflight == st.inflight && st'.rx == st.rx && st'.expected == st.expected
    ensures p.Mem? ==> st'.mem == st.mem + [p] && st'.flows == st.flows && st'.ready == st.ready
    ensures p.Msg? ==>
              && st'.mem == st.mem && p.kind == Data && p.key in st'.flows
              && (forall k :: k != p.key ==>
                  Held(st'.flows, k) == Held(st.flows, k) && Partial(st'.flows, k) == Partial(st.flows, k))
              && p.key !in st.ready
              && Held(st'.flows, p.key) == Partial(st.flows, p.key) + [p]
              && (p.isEnd <==> st'.flows[p.key].complete)
              && st'.ready == (if p.isEnd then st.ready + [p.key] else st.ready)
    ensures Completes(st, Some(p)) ==
              if p.Msg? && p.isEnd then [Flow(p.key, st.expected[p.key], Held(st'.flows, p.key))] else []
  {
    if p.Msg? {
      assert BufferOk(st, p.key);
      assert p.key in st.ready <==> p.key in multiset(st.ready);
    }
  }

  lemma CaptureOrdered(st: SafState, p: Packet, completed: seq<Flow>, departed: seq<Packet>)
    requires BuffersOk(st) && CaptureRoom(st, p).Fine? && Ordered(st, completed, departed)
    ensures Ordered(CaptureRoom(st, p).st, completed + Completes(st, Some(p)), departed)
  {
    var st' := CaptureRoom(st, p).st;
    CaptureShape(st, p, st');
    RemainingFrame(st.flows, st'.flows, st.ready);
    if p.Msg? && p.isEnd {
      var f := Completes(st, Some(p))[0];
      RemainingSnoc(st'.flows, st.ready, p.key);
      ConcatSnoc(completed, f);
      Assoc(Msgs(departed), Remaining(st.flows, st.ready), f.packets);
    } else {
      assert completed + [] == completed;
    }
  }

  lemma ConcatSnoc(fs: seq<Flow>, f: Flow)
    ensures Concat(fs + [f]) == Concat(fs) + f.packets
  {
    assert (fs + [f])[..|fs|] == fs;
  }

  lemma CaptureWhole(st: SafState, p: Packet)
    requires BuffersOk(st) && CaptureRoom(st, p).Fine? && IsTail(Some(p))
    ensures Completes(st, Some(p)) != [] && Whole(Completes(st, Some(p))[0])
  {
    assert BufferOk(st, p.key);
  }

  lemma CaptureAccount(st: SafState, p: Packet, captured: seq<Packet>, completed: seq<Flow>, k: FlowKey)
    requires BuffersOk(st) && CaptureRoom(st, p).Fine? && FlowAccounts(st.flows, captured, completed)
    ensures FlowAccount(CaptureRoom(st, p).st.flows, captured + [p], completed + Completes(st, Some(p)), k)
  {
    var st' := CaptureRoom(st, p).st;
    assert FlowAccount(st.flows, captured, completed, k);
    CaptureShape(st, p, st');
    if IsTail(Some(p)) {
      CaptureWhole(st, p);
      TailAccount(st.flows, st'.flows, p, captured, completed, Completes(st, Some(p))[0], k);
    } else {
      assert completed + [] == completed;
      BodyAccount(st.flows, st'.flows, p, captured, completed, k);
    }
  }

  lemma BodyAccount(flows: map<FlowKey, FlowBuffer>, flows': map<FlowKey, FlowBuffer>, p: Packet,
                    captured: seq<Packet>, completed: seq<Flow>, k: FlowKey)
    requires FlowAccount(flows, captured, completed, k)
    requires Partial(flows', k) == Partial(flows, k) + if p.Msg? && p.key == k then [p] else []
    ensures FlowAccount(flows', captured + [p], completed, k)
  {
    ViewsSnoc(captured, p, k);
    if p.Msg? && p.key == k {
      Assoc(OfFlow(Concat(completed), k), Partial(flows, k), [p]);
    } else {
      assert Partial(flows, k) + [] == Partial(flows, k);
      assert OfFlow(captured, k) + [] == OfFlow(captured, k);
    }
  }

  lemma TailAccount(flows: map<FlowKey, FlowBuffer>, flows': map<FlowKey, FlowBuffer>, p: Packet,
                    captured: seq<Packet>, completed: seq<Flow>, f: Flow, k: FlowKey)
    requires FlowAccount(flows, captured, completed, k)
    requires p.Msg? && DataOf(f.packets, p.key) && f.packets == Partial(flows, p.key) + [p]
    requires p.key in flows' && flows'[p.key].complete
    requires k != p.key ==> Partial(flows', k) == Partial(flows, k)
    ensures FlowAccount(flows', captured + [p], completed + [f], k)
  {
    ViewsSnoc(captured, p, k);
    ConcatSnoc(completed, f);
    OfFlowConcat(Concat(completed), f.packets, k);
    OfFlowUniform(f.packets, p.key, k);
    var done := OfFlow(Concat(completed), k);
    Unit(OfFlow(captured, k));
    Unit(done);
    Unit(done + f.packets);
    Assoc(done, Partial(flows, k), [p]);
  }

  lemma CaptureMems(st: SafState, p: Packet, captured: seq<Packet>, departed: seq<Packet>)
    requires BuffersOk(st) && CaptureRoom(st, p).Fine? && MemsOrdered(st, captured, departed) && AllMem(st.mem)
    ensures MemsOrdered(CaptureRoom(st, p).st, captured + [p], departed) && AllMem(CaptureRoom(st, p).st.mem)
  {
    CaptureShape(st, p, CaptureRoom(st, p).st);
    ViewsSnoc(captured, p, FlowKey(0, 0, 0));
    if p.Mem? {
      Assoc(Mems(departed), st.mem, [p]);
    } else {
      assert Mems(captured) + [] == Mems(captured);
    }
  }

  lemma CapturePipe(st: SafState, p: Packet, departed: seq<Packet>, delivered: seq<Packet>)
    requires BuffersOk(st) && CaptureRoom(st, p).Fine? && InPipe(st, departed, delivered)
    ensures InPipe(CaptureRoom(st, p).st, departed, delivered)
  {
    CaptureShape(st, p, CaptureRoom(st, p).st);
  }

  lemma CaptureFaithful(t: Trace, cfg: SafConfig, arrival: Option<Packet>)
    requires Faithful(t) && Captured(t, cfg, arrival).Running?
    ensures Faithful(Captured(t, cfg, arrival).trace)
  {
    if arrival.None? {
      assert t.captured + [] == t.captured && t.completed + [] == t.completed;
    } else {
      var p := arrival.value;
      PacketFaithful(t, p);
    }
  }

  lemma PacketFaithful(t: Trace, p: Packet)
    requires Faithful(t) && CaptureRoom(t.st, p).Fine?
    ensures Faithful(t.(st := CaptureRoom(t.st, p).st, captured := t.captured + [p],
              completed := t.completed + Completes(t.st, Some(p))))
  {
    CaptureBuffers(t.st, p);
    CaptureOrdered(t.st, p, t.completed, t.departed);
    CaptureMems(t.st, p, t.captured, t.departed);
    CapturePipe(t.st, p, t.departed, t.delivered);
    forall k
      ensures FlowAccount(CaptureRoom(t.st, p).st.flows, t.captured + [p], t.completed + Completes(t.st, Some(p)), k)
    {
      CaptureAccount(t.st, p, t.captured, t.completed, k);
    }
    CaptureWholes(t.st, p, t.completed);
  }

  lemma CaptureWholes(st: SafState, p: Packet, completed: seq<Flow>)
    requires BuffersOk(st) && CaptureRoom(st, p).Fine? && Wholes(completed)
    ensures Wholes(completed + Completes(st, Some(p)))
  {
    if IsTail(Some(p)) {
      CaptureWhole(st, p);
    }
  }

  lemma ArrivalFaithful(t: Trace, cfg: SafConfig, cyc: int, inp: SafInputs)
    requires Faithful(t)
    ensures ArrivalStep(t, cfg, cyc, inp).Running? ==> Faithful(ArrivalStep(t, cfg, cyc, inp).trace)
  {
    if Controlled(t, cfg, cyc, inp).Running? {
      CtrlFaithful(t, cfg, cyc, inp);
      var c := Controlled(t, cfg, cyc, inp).trace;
      if Captured(c, cfg, inp.data).Running? {
        CaptureFaithful(c, cfg, inp.data);
      }
    }
  }

  lemma DepartureFaithful(t: Trace, cfg: SafConfig, cyc: int, inp: SafInputs)
    requires Faithful(t)
    ensures var d := Departed(Gated(t, cfg, cyc, inp), cfg, cyc, inp.granted); d.Running? && Faithful(d.trace)
  {
    GateFaithful(t, cfg, cyc, inp);
    DepartFaithful(Gated(t, cfg, cyc, inp), cfg, cyc, inp.granted);
  }

  lemma StepFaithful(t: Trace, cfg: SafConfig, cyc: int, inp: SafInputs)
    requires Faithful(t)
    ensures TraceStep(t, cfg, cyc, inp).Running? ==> Faithful(TraceStep(t, cfg, cyc, inp).trace)
    ensures TraceStep(t, cfg, cyc, inp) != Stopped(ReadyMismatch)
  {
    DepartureFaithful(t, cfg, cyc, inp);
    var d := Departed(Gated(t, cfg, cyc, inp), cfg, cyc, inp.granted).trace;
    ArrivalFaithful(d, cfg, cyc, inp);
    OtherErrors(d, cfg, cyc, inp);
  }

  lemma OtherErrors(t: Trace, cfg: SafConfig, cyc: int, inp: SafInputs)
    ensures ArrivalStep(t, cfg, cyc, inp) != Stopped(ReadyMismatch)
  {
  }

  // ---- Main result ----------------------------------------------------------------------------

  /**
   * On every run, whatever the neighbours do, until an error stops it: what left the link, then what its
   * stages hold, is exactly what entered the pipe; memory flits apart, that is a prefix of the completed
   * flows laid end to end, so nothing of a flow leaves before its tail is in; each completed flow has the
   * declared number of packets; and for every key what was captured is what completed, then what waits.
   */
  lemma {:induction false} CarriesWholeFlows(cfg: SafConfig, ins: seq<SafInputs>)
    ensures Traced(cfg, ins) != Stopped(ReadyMismatch)
    ensures Traced(cfg, ins).Running? ==>
              var t := Traced(cfg, ins).trace;
              && t.delivered + t.st.rx + Payloads(t.st.inflight) == t.departed
              && Msgs(t.departed) <= Concat(t.completed)
              && Mems(t.departed) + t.st.mem == Mems(t.captured)
              && Wholes(t.completed)
              && (forall k :: OfFlow(t.captured, k) == OfFlow(Concat(t.completed), k) + Partial(t.st.flows, k))
              && Faithful(t)
  {
    if ins == [] {
      assert forall k :: FlowAccount(map[], [], [], k);
    } else {
      CarriesWholeFlows(cfg, ins[..|ins| - 1]);
      var before := Traced(cfg, ins[..|ins| - 1]);
      if before.Running? {
        StepFaithful(before.trace, cfg, |ins|, ins[|ins| - 1]);
      }
    }
    if Traced(cfg, ins).Running? {
      var t := Traced(cfg, ins).trace;
      assert Ordered(t.st, t.completed, t.departed);
      forall k
        ensures OfFlow(t.captured, k) == OfFlow(Concat(t.completed), k) + Partial(t.st.flows, k)
      {
        assert FlowAccount(t.st.flows, t.captured, t.completed, k);
      }
    }
  }
}
