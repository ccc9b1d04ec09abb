/**
 * One cycle of the production link: packets are collected into whole flows, leave through two token
 * buckets into a finite latency pipe, and reach the remote router through a finite receive stage.
 */
module SafLink {
  import opened Rates
  import opened FlowLedger
  import opened SafRuntime
  import opened SafAgreement
  import opened SafReservation
  import opened SafRuntimeUnit
  import opened BoundedLink

  datatype Kind = Request | Data | OtherKind

  /** A memory flit, or a message of a flow. `flowPackets` matters on a request, `seqId` and `isEnd` on data. */
  datatype Packet = Mem(body: int)
                  | Msg(kind: Kind, key: FlowKey, flowPackets: int, seqId: int, isEnd: bool, body: int)

  datatype SafConfig = SafConfig(latency: nat, inflightDepth: int, ctrlDepth: int, safDepth: int, rxDepth: int,
                                 portRate: Rate, rate: Rate)

  datatype FlowBuffer = FlowBuffer(expected: int, complete: bool, packets: seq<Packet>)

  datatype SafState = SafState(portTokens: int, tokens: int,
                               expected: map<FlowKey, int>, flows: map<FlowKey, FlowBuffer>, ready: seq<FlowKey>,
                               mem: seq<Packet>, inflight: seq<(int, Packet)>, rx: seq<Packet>,
                               ctrl: seq<(int, Packet)>, toggle: bool, ctrlToggle: bool)

  function Reset(): SafState {
    SafState(0, 0, map[], map[], [], [], [], [], [], false, false)
  }

  /** The errors the source throws; each ends the simulation. */
  datatype Error = ReadyMismatch | ReleaseRefused(why: ReleaseOutcome)
                 | CtrlOverflow | BadFlowPackets | DuplicateRequest
                 | SafOverflow | NotData | DataBeforeRequest | DataAfterTail | TooManyPackets | TailMismatch

  datatype Result = Fine(st: SafState) | Fault(error: Error)

  /** Wires read in a cycle; `granted` is the link-group arbiter's answer to this link's request. */
  datatype SafInputs = SafInputs(data: Option<Packet>, ctrl: Option<Packet>, outAvail: bool, outCtrlAvail: bool,
      granted: bool)

  datatype SafOutputs = SafOutputs(data: Option<Packet>, ctrl: Option<Packet>, inAvail: bool, inCtrlAvail: bool)

  // ---- The stages, in the order of the cycle --------------------------------------------------

  function Refill(st: SafState, cfg: SafConfig): SafState {
    st.(portTokens := st.portTokens + cfg.portRate.num, tokens := st.tokens + cfg.rate.num)
  }

  function Emitted(st: SafState, avail: bool): Option<Packet> {
    if st.rx != [] && avail then Some(st.rx[0]) else None
  }

  function Emit(st: SafState, avail: bool): SafState {
    if st.rx != [] && avail then st.(rx := st.rx[1..]) else st
  }

  function Arrive(st: SafState, cfg: SafConfig, cyc: int): SafState {
    if st.inflight != [] && st.inflight[0].0 <= cyc && |st.rx| < cfg.rxDepth
    then st.(inflight := st.inflight[1..], rx := st.rx + [st.inflight[0].1])
    else st
  }

  /** What the link asks of its group: something may leave, both buckets hold a packet, and the pipe has room. */
  predicate Requests(st: SafState, cfg: SafConfig) {
    && (st.mem != [] || st.ready != [])
    && st.portTokens >= cfg.portRate.den && st.tokens >= cfg.rate.den
    && |st.inflight| < cfg.inflightDepth
  }

  function Launch(st: SafState, cfg: SafConfig, cyc: int, p: Packet): SafState {
    st.(inflight := st.inflight + [(cyc + cfg.latency, p)],
        portTokens := st.portTokens - cfg.portRate.den, tokens := st.tokens - cfg.rate.den,
        toggle := !st.toggle)
  }

  predicate HeadUsable(st: SafState)
    requires st.ready != []
  {
    st.ready[0] in st.flows && st.flows[st.ready[0]].complete && st.flows[st.ready[0]].packets != []
  }

  /** The packet that leaves the store-and-forward stage: memory flits first, then the oldest whole flow. */
  function Departing(st: SafState, cfg: SafConfig, granted: bool): Option<Packet> {
    if !Requests(st, cfg) || !granted then None
    else if st.mem != [] then Some(st.mem[0])
    else if HeadUsable(st) then Some(st.flows[st.ready[0]].packets[0])
    else None
  }

  function Depart(st: SafState, cfg: SafConfig, cyc: int, granted: bool): Result {
    if !Requests(st, cfg) || !granted then Fine(st)
    else if st.mem != [] then Fine(Launch(st.(mem := st.mem[1..]), cfg, cyc, st.mem[0]))
    else if !HeadUsable(st) then Fault(ReadyMismatch)
    else
      var key := st.ready[0];
      var flow := st.flows[key];
      var left := if |flow.packets| > 1
                  then st.(flows := st.flows[key := flow.(packets := flow.packets[1..])])
                  else st.(flows := st.flows - {key}, expected := st.expected - {key}, ready := st.ready[1..]);
      Fine(Launch(left, cfg, cyc, flow.packets[0]))
  }

  /** The flow whose last packet leaves, with its declared size: its claim on this link is due back. */
  function Drained(st: SafState, cfg: SafConfig, granted: bool): Option<(FlowKey, int)> {
    if Requests(st, cfg) && granted && st.mem == [] && HeadUsable(st) && |st.flows[st.ready[0]].packets| == 1
    then Some((st.ready[0], st.flows[st.ready[0]].expected))
    else None
  }

  function CapTokens(st: SafState, cfg: SafConfig): SafState {
    st.(portTokens := if st.portTokens > cfg.portRate.den then cfg.portRate.den else st.portTokens,
        tokens := if st.tokens > cfg.rate.den then cfg.rate.den else st.tokens)
  }

  function CtrlOut(st: SafState, cyc: int, avail: bool): Option<Packet> {
    if st.ctrl != [] && st.ctrl[0].0 <= cyc && avail then Some(st.ctrl[0].1) else None
  }

  function DeliverCtrl(st: SafState, cyc: int, avail: bool): SafState {
    if st.ctrl != [] && st.ctrl[0].0 <= cyc && avail
    then st.(ctrl := st.ctrl[1..], ctrlToggle := !st.ctrlToggle)
    else st
  }

  function AcceptCtrl(st: SafState, cfg: SafConfig, cyc: int, arrival: Option<Packet>): Result {
    if arrival.None? then Fine(st)
    else if |st.ctrl| >= cfg.ctrlDepth then Fault(CtrlOverflow)
    else
      var p := arrival.value;
      var st' := st.(ctrl := st.ctrl + [(cyc + cfg.latency, p)]);
      if p.Mem? || p.kind != Request then Fine(st')
      else if p.flowPackets <= 0 || p.flowPackets > cfg.safDepth then Fault(BadFlowPackets)
      else if p.key in st.expected || p.key in st.flows then Fault(DuplicateRequest)
      else Fine(st'.(expected := st.expected[p.key := p.flowPackets]))
  }

  function Sizes(flows: map<FlowKey, FlowBuffer>): map<FlowKey, int> {
    map k | k in flows :: |flows[k].packets|
  }

  /** Slots of the store-and-forward stage in use. */
  ghost function Occupancy(st: SafState): int {
    Sum(Sizes(st.flows)) + |st.mem|
  }

  /** The flow's buffer with one more packet; the declared size is copied when the flow's first packet arrives. */
  function Grown(st: SafState, p: Packet): FlowBuffer
    requires p.Msg? && p.key in st.expected
  {
    var flow := if p.key in st.flows then st.flows[p.key] else FlowBuffer(0, false, []);
    FlowBuffer(if flow.expected == 0 then st.expected[p.key] else flow.expected, flow.complete, flow.packets + [p])
  }

  ghost function Capture(st: SafState, cfg: SafConfig, arrival: Option<Packet>): Result {
    if arrival.None? then Fine(st)
    else if Occupancy(st) >= cfg.safDepth then Fault(SafOverflow)
    else CaptureRoom(st, arrival.value)
  }

  function CaptureRoom(st: SafState, p: Packet): Result {
    if p.Mem? then Fine(st.(mem := st.mem + [p]))
    else if p.kind != Data then Fault(NotData)
    else if p.key !in st.expected then Fault(DataBeforeRequest)
    else if p.key in st.flows && st.flows[p.key].complete then Fault(DataAfterTail)
    else
      var flow := Grown(st, p);
      if |flow.packets| > flow.expected then Fault(TooManyPackets)
      else if !p.isEnd then Fine(st.(flows := st.flows[p.key := flow]))
      else if |flow.packets| != flow.expected || p.seqId != flow.expected then Fault(TailMismatch)
      else Fine(st.(flows := st.flows[p.key := flow.(complete := true)], ready := st.ready + [p.key]))
  }

  // ---- A whole cycle --------------------------------------------------------------------------

  /** The state in which the departure decision is taken. */
  function Gate(st: SafState, cfg: SafConfig, cyc: int, inp: SafInputs): SafState {
    Arrive(Emit(Refill(st, cfg), inp.outAvail), cfg, cyc)
  }

  /** After a departure: the buckets are capped, a mature control packet leaves, the arrivals are taken in. */
  ghost function Finish(st: SafState, cfg: SafConfig, cyc: int, inp: SafInputs): Result {
    var c := AcceptCtrl(DeliverCtrl(CapTokens(st, cfg), cyc, inp.outCtrlAvail), cfg, cyc, inp.ctrl);
    if c.Fault? then c else Capture(c.st, cfg, inp.data)
  }

  /** The cycle as the link sees it, were every claim it returns accepted. */
  ghost function Cycle(st: SafState, cfg: SafConfig, cyc: int, inp: SafInputs): Result {
    var d := Depart(Gate(st, cfg, cyc, inp), cfg, cyc, inp.granted);
    if d.Fault? then d else Finish(d.st, cfg, cyc, inp)
  }

  ghost predicate Refused(topo: Topology, rt: Runtime, link: int, drained: Option<(FlowKey, int)>)
    requires Shaped(topo, rt.books) && 0 <= link < |topo|
  {
    drained.Some? && ReleaseCheck(topo, rt, link, drained.value.0, drained.value.1) != Released
  }

  /** The reservations after the cycle's departure. */
  ghost function Returned(topo: Topology, rt: Runtime, link: int, drained: Option<(FlowKey, int)>): Runtime
    requires Shaped(topo, rt.books) && 0 <= link < |topo|
  {
    if drained.Some? then Release(topo, rt, link, drained.value.0, drained.value.1) else rt
  }

  /** The departure of link `link`, with the drained flow's claim handed back to the shared reservations. */
  ghost function DepartWith(topo: Topology, rt: Runtime, link: int, st: SafState, cfg: SafConfig, cyc: int,
          granted: bool): Result
    requires Shaped(topo, rt.books) && 0 <= link < |topo|
  {
    var drained := Drained(st, cfg, granted);
    if Refused(topo, rt, link, drained)
    then Fault(ReleaseRefused(ReleaseCheck(topo, rt, link, drained.value.0, drained.value.1)))
    else Depart(st, cfg, cyc, granted)
  }

  /** The cycle of link `link` against the shared reservations. */
  ghost function Forward(topo: Topology, rt: Runtime, link: int, st: SafState, cfg: SafConfig, cyc: int,
          inp: SafInputs): Result
    requires Shaped(topo, rt.books) && 0 <= link < |topo|
  {
    var d := DepartWith(topo, rt, link, Gate(st, cfg, cyc, inp), cfg, cyc, inp.granted);
    if d.Fault? then d else Finish(d.st, cfg, cyc, inp)
  }

  ghost function SafOuts(st: SafState, cfg: SafConfig, cyc: int, inp: SafInputs, st': SafState): SafOutputs {
    SafOutputs(Emitted(st, inp.outAvail), CtrlOut(st, cyc, inp.outCtrlAvail),
               Occupancy(st') < cfg.safDepth, |st'.ctrl| < cfg.ctrlDepth)
  }

  // ---- The unit -------------------------------------------------------------------------------

  class SafLinkUnit {
    const cfg: SafConfig
    const linkIdx: int
    const runtime: Unit
    var portTokens: int
    var tokens: int
    var safExpected: map<FlowKey, int>
    var safFlows: map<FlowKey, FlowBuffer>
    var safReady: seq<FlowKey>
    var memSafFifo: seq<Packet>
    var fifo: seq<(int, Packet)>
    var rxFifo: seq<Packet>
    var cfifo: seq<(int, Packet)>
    var dataCreditToggle: bool
    var ctrlCreditToggle: bool

    ghost function Abs(): SafState
      reads this
    {
      SafState(portTokens, tokens, safExpected, safFlows, safReady, memSafFifo, fifo, rxFifo, cfifo, dataCreditToggle,
          ctrlCreditToggle)
    }

    /** The link belongs to its runtime's table, whose ledgers are sound. */
    ghost predicate Valid()
      reads runtime
    {
      0 <= linkIdx < |runtime.topo| && Shaped(runtime.topo, runtime.Ledgers()) && EachSound(runtime.Ledgers())
    }

    constructor (c: SafConfig, link: int, rt: Unit)
      requires 0 <= link < |rt.topo| && Shaped(rt.topo, rt.Ledgers()) && EachSound(rt.Ledgers())
      ensures cfg == c && linkIdx == link && runtime == rt && Valid() && Abs() == Reset()
    {
      cfg, linkIdx, runtime := c, link, rt;
      portTokens, tokens, safExpected, safFlows, safReady, memSafFifo := 0, 0, map[], map[], [], [];
      fifo, rxFifo, cfifo, dataCreditToggle, ctrlCreditToggle := [], [], [], false, false;
    }

    method EmitRx(avail: bool) returns (out: Option<Packet>)
      modifies this`rxFifo
      ensures Abs() == Emit(old(Abs()), avail) && out == Emitted(old(Abs()), avail)
    {
      out := None;
      if rxFifo != [] && avail {
        out := Some(rxFifo[0]);
        rxFifo := rxFifo[1..];
      }
    }

    method ArriveRx(cyc: int)
      modifies this`fifo, this`rxFifo
      ensures Abs() == Arrive(old(Abs()), cfg, cyc)
    {
      if fifo != [] && fifo[0].0 <= cyc && |rxFifo| < cfg.rxDepth {
        var payload := fifo[0].1;
        fifo := fifo[1..];
        rxFifo := rxFifo + [payload];
      }
    }

    method LaunchPacket(cyc: int, payload: Packet)
      modifies this`fifo, this`portTokens, this`tokens, this`dataCreditToggle
      ensures Abs() == Launch(old(Abs()), cfg, cyc, payload)
    {
      fifo := fifo + [(cyc + cfg.latency, payload)];
      portTokens, tokens := portTokens - cfg.portRate.den, tokens - cfg.rate.den;
      dataCreditToggle := !dataCreditToggle;
    }

    /** A departure that drains its flow gives the flow's claim on this link back. */
    method DepartSaf(cyc: int, granted: bool) returns (error: Option<Error>)
      requires Valid()
      modifies this, runtime
      ensures Valid()
      ensures error.Some? ==>
                DepartWith(runtime.topo, old(runtime.Abs()), linkIdx, old(Abs()), cfg, cyc, granted)
                == Fault(error.value)
      ensures error.None? ==>
                DepartWith(runtime.topo, old(runtime.Abs()), linkIdx, old(Abs()), cfg, cyc, granted) == Fine(Abs())
      ensures error.None? ==>
                runtime.Abs() == Returned(runtime.topo, old(runtime.Abs()), linkIdx, Drained(old(Abs()), cfg, granted))
    {
      error := None;
      var ready := memSafFifo != [] || safReady != [];
      var groupRequest := ready && portTokens >= cfg.portRate.den && tokens >= cfg.rate.den
          && |fifo| < cfg.inflightDepth;
      if groupRequest && granted {
        if memSafFifo != [] {
          var payload := memSafFifo[0];
          memSafFifo := memSafFifo[1..];
          LaunchPacket(cyc, payload);
        } else {
          error := DepartFlow(cyc);
        }
      }
    }

    method DepartFlow(cyc: int) returns (error: Option<Error>)
      requires Valid() && Requests(Abs(), cfg) && memSafFifo == []
      modifies this, runtime
      ensures Valid()
      ensures error.Some? ==>
                DepartWith(runtime.topo, old(runtime.Abs()), linkIdx, old(Abs()), cfg, cyc, true) == Fault(error.value)
      ensures error.None? ==>
                DepartWith(runtime.topo, old(runtime.Abs()), linkIdx, old(Abs()), cfg, cyc, true) == Fine(Abs())
      ensures error.None? ==>
                runtime.Abs() == Returned(runtime.topo, old(runtime.Abs()), linkIdx, Drained(old(Abs()), cfg, true))
    {
      var key := safReady[0];
      if key !in safFlows || !safFlows[key].complete || safFlows[key].packets == [] {
        return Some(ReadyMismatch);
      }
      var flow := safFlows[key];
      if |flow.packets| > 1 {
        safFlows := safFlows[key := flow.(packets := flow.packets[1..])];
      } else {
        var outcome := runtime.ReleaseWholeFlowSafLink(linkIdx, key, flow.expected);
        if outcome != Released {
          return Some(ReleaseRefused(outcome));
        }
        safFlows, safExpected, safReady := safFlows - {key}, safExpected - {key}, safReady[1..];
      }
      LaunchPacket(cyc, flow.packets[0]);
      error := None;
    }

    method DeliverCtrlOut(cyc: int, avail: bool) returns (out: Option<Packet>)
      modifies this`cfifo, this`ctrlCreditToggle
      ensures Abs() == DeliverCtrl(old(Abs()), cyc, avail) && out == CtrlOut(old(Abs()), cyc, avail)
    {
      out := None;
      if cfifo != [] && cfifo[0].0 <= cyc && avail {
        out := Some(cfifo[0].1);
        cfifo := cfifo[1..];
        ctrlCreditToggle := !ctrlCreditToggle;
      }
    }

    method AcceptCtrlIn(cyc: int, arrival: Option<Packet>) returns (error: Option<Error>)
      modifies this`cfifo, this`safExpected
      ensures error.None? ==> AcceptCtrl(old(Abs()), cfg, cyc, arrival) == Fine(Abs())
      ensures error.Some? ==> AcceptCtrl(old(Abs()), cfg, cyc, arrival) == Fault(error.value)
    {
      error := None;
      if arrival.Some? {
        if |cfifo| >= cfg.ctrlDepth {
          return Some(CtrlOverflow);
        }
        var p := arrival.value;
        if p.Msg? && p.kind == Request {
          if p.flowPackets <= 0 || p.flowPackets > cfg.safDepth {
            return Some(BadFlowPackets);
          }
          if p.key in safExpected || p.key in safFlows {
            return Some(DuplicateRequest);
          }
          safExpected := safExpected[p.key := p.flowPackets];
        }
        cfifo := cfifo + [(cyc + cfg.latency, p)];
      }
    }

    method Occupied() returns (occupied: int)
      ensures occupied == Occupancy(Abs())
    {
      ghost var sizes := Sizes(safFlows);
      var todo := safFlows.Keys;
      occupied := 0;
      assert sizes - todo == map[];
      while todo != {}
        invariant todo <= safFlows.Keys && occupied == Sum(sizes - todo)
      {
        var k :| k in todo;
        assert sizes - (todo - {k}) == (sizes - todo)[k := |safFlows[k].packets|];
        SumAdd(sizes - todo, k, |safFlows[k].packets|);
        occupied := occupied + |safFlows[k].packets|;
        todo := todo - {k};
      }
      assert sizes - {} == sizes;
      occupied := occupied + |memSafFifo|;
    }

    method CaptureIn(arrival: Option<Packet>) returns (error: Option<Error>)
      modifies this`memSafFifo, this`safFlows, this`safReady
      ensures error.None? ==> Capture(old(Abs()), cfg, arrival) == Fine(Abs())
      ensures error.Some? ==> Capture(old(Abs()), cfg, arrival) == Fault(error.value)
    {
      error := None;
      if arrival.Some? {
        var occupied := Occupied();
        if occupied >= cfg.safDepth {
          return Some(SafOverflow);
        }
        var p := arrival.value;
        if p.Mem? {
          memSafFifo := memSafFifo + [p];
        } else {
          error := CaptureData(p);
        }
      }
    }

    method CaptureData(p: Packet) returns (error: Option<Error>)
      requires p.Msg?
      modifies this`safFlows, this`safReady
      ensures error.None? ==> CaptureRoom(old(Abs()), p) == Fine(Abs())
      ensures error.Some? ==> CaptureRoom(old(Abs()), p) == Fault(error.value)
    {
      if p.kind != Data {
        return Some(NotData);
      }
      if p.key !in safExpected {
        return Some(DataBeforeRequest);
      }
      var flow := if p.key in safFlows then safFlows[p.key] else FlowBuffer(0, false, []);
      if flow.expected == 0 {
        flow := flow.(expected := safExpected[p.key]);
      }
      if flow.complete {
        return Some(DataAfterTail);
      }
      flow := flow.(packets := flow.packets + [p]);
      if |flow.packets| > flow.expected {
        return Some(TooManyPackets);
      }
      if p.isEnd {
        if |flow.packets| != flow.expected || p.seqId != flow.expected {
          return Some(TailMismatch);
        }
        flow := flow.(complete := true);
        safReady := safReady + [p.key];
      }
      safFlows := safFlows[p.key := flow];
      error := None;
    }

    /** One cycle. An error is the one the specification names; without one, state, books and wires are as specified. */
    method ForwardBoundedSaf(cyc: int, inp: SafInputs) returns (error: Option<Error>, out: SafOutputs)
      requires Valid()
      modifies this, runtime
      ensures Valid()
      ensures error.Some? ==>
                Forward(runtime.topo, old(runtime.Abs()), linkIdx, old(Abs()), cfg, cyc, inp) == Fault(error.value)
      ensures error.None? ==>
                Forward(runtime.topo, old(runtime.Abs()), linkIdx, old(Abs()), cfg, cyc, inp) == Fine(Abs())
      ensures error.None? ==> out == SafOuts(old(Abs()), cfg, cyc, inp, Abs())
      ensures error.None? ==> runtime.Abs() == Returned(runtime.topo, old(runtime.Abs()), linkIdx,
                                                        Drained(Gate(old(Abs()), cfg, cyc, inp), cfg, inp.granted))
    {
      out := SafOutputs(None, None, false, false);
      var dataOut := FillGate(cyc, inp);
      error := DepartSaf(cyc, inp.granted);
      if error.Some? {
        return;
      }
      var ctrlOut;
      error, ctrlOut := Settle(cyc, inp);
      if error.Some? {
        return;
      }
      GateKeepsCtrl(old(Abs()), cfg, cyc, inp);
      var occupied := Occupied();
      out := SafOutputs(dataOut, ctrlOut, occupied < cfg.safDepth, |cfifo| < cfg.ctrlDepth);
    }

    method FillGate(cyc: int, inp: SafInputs) returns (out: Option<Packet>)
      modifies this
      ensures Abs() == Gate(old(Abs()), cfg, cyc, inp) && out == Emitted(old(Abs()), inp.outAvail)
    {
      portTokens := portTokens + cfg.portRate.num;
      tokens := tokens + cfg.rate.num;
      out := EmitRx(inp.outAvail);
      ArriveRx(cyc);
    }

    method Settle(cyc: int, inp: SafInputs) returns (error: Option<Error>, ctrlOut: Option<Packet>)
      modifies this
      ensures error.Some? ==> Finish(old(Abs()), cfg, cyc, inp) == Fault(error.value)
      ensures error.None? ==> Finish(old(Abs()), cfg, cyc, inp) == Fine(Abs())
      ensures ctrlOut == CtrlOut(old(Abs()), cyc, inp.outCtrlAvail)
    {
      if portTokens > cfg.portRate.den {
        portTokens := cfg.portRate.den;
      }
      if tokens > cfg.rate.den {
        tokens := cfg.rate.den;
      }
      ctrlOut := DeliverCtrlOut(cyc, inp.outCtrlAvail);
      error := AcceptCtrlIn(cyc, inp.ctrl);
      if error.None? {
        error := CaptureIn(inp.data);
      }
    }
  }

  lemma GateKeepsCtrl(st: SafState, cfg: SafConfig, cyc: int, inp: SafInputs)
    ensures Gate(st, cfg, cyc, inp).ctrl == st.ctrl
    ensures var d := Depart(Gate(st, cfg, cyc, inp), cfg, cyc, inp.granted); d.Fine? ==> d.st.ctrl == st.ctrl
  {
    DepartKeepsCtrl(Gate(st, cfg, cyc, inp), cfg, cyc, inp.granted);
  }

  lemma DepartKeepsCtrl(st: SafState, cfg: SafConfig, cyc: int, granted: bool)
    ensures var d := Depart(st, cfg, cyc, granted); d.Fine? ==> d.st.ctrl == st.ctrl && d.st.ctrlToggle == st.ctrlToggle
  {
  }
}
