/**
 * The production link closed by an upstream that keeps the whole-flow protocol, against shared reservations
 * that other links and other flows change at will: no error the link or the ledger can raise is reachable.
 */
module SafSafety {
  import opened FlowLedger
  import opened SafRuntime
  import opened SafAgreement
  import opened SafReservation
  import opened BoundedLink
  import opened CreditLoop
  import opened SafLink
  import C = SafContent

  /**
   * The link, the reservations, the upstream's credits and last sampled credit events, the two wires, and
   * how many data packets the upstream has sent for each flow it has announced under its present claim.
   */
  datatype SafLoop = SafLoop(st: SafState, rt: Runtime, credit: int, ctrlCredit: int, seen: bool, ctrlSeen: bool,
                             wire: Option<Packet>, ctrlWire: Option<Packet>, sent: map<FlowKey, int>)

  /**
   * What the outside does in a cycle: what the upstream would like to send, who is ready, and the other claims made
   * and returned.
   */
  datatype SafEnv = SafEnv(data: Option<Packet>, ctrl: Option<Packet>, outAvail: bool, outCtrlAvail: bool,
      granted: bool, ops: seq<Op>)

  datatype LoopRun = Broken(error: Error) | Good(loop: SafLoop)

  datatype Site = Site(topo: Topology, link: int, cfg: SafConfig) {
    predicate Valid() {
      0 <= link < |topo| && cfg.safDepth >= 0 && cfg.ctrlDepth >= 0
    }
  }

  /** Others reserve whole paths, this link included, but only this link gives its own claims back. */
  ghost predicate Foreign(s: Site, ops: seq<Op>) {
    OpsOnTopology(s.topo, ops) && forall i :: 0 <= i < |ops| && ops[i].DoRelease? ==> ops[i].link != s.link
  }

  // ---- The upstream ---------------------------------------------------------------------------

  /** A credit event is a change of the toggle since it was last sampled. */
  function Sample(l: SafLoop): SafLoop {
    l.(credit := l.credit + if l.st.toggle != l.seen then 1 else 0, seen := l.st.toggle,
       ctrlCredit := l.ctrlCredit + if l.st.ctrlToggle != l.ctrlSeen then 1 else 0, ctrlSeen := l.st.ctrlToggle)
  }

  /** A flow is announced once per claim, with the claimed number of packets; other control packets are free. */
  predicate MayAnnounce(claims: map<FlowKey, int>, sent: map<FlowKey, int>, p: Packet) {
    p.Msg? && p.kind == Request ==> p.key in claims && p.flowPackets == claims[p.key] && p.key !in sent
  }

  /**
   * Data follows its announcement, numbered from one, the last of the claimed packets and only that one marked as
   * tail.
   */
  predicate MaySend(claims: map<FlowKey, int>, sent: map<FlowKey, int>, p: Packet) {
    p.Msg? ==>
      && p.kind == Data && p.key in sent && p.key in claims
      && sent[p.key] < claims[p.key] && p.seqId == sent[p.key] + 1
      && (p.isEnd <==> p.seqId == claims[p.key])
  }

  function SendCtrl(l: SafLoop, claims: map<FlowKey, int>, offer: Option<Packet>): SafLoop {
    if offer.Some? && l.ctrlCredit > 0 && MayAnnounce(claims, l.sent, offer.value) then
      l.(ctrlCredit := l.ctrlCredit - 1, ctrlWire := offer,
         sent := if offer.value.Msg? && offer.value.kind == Request then l.sent[offer.value.key := 0] else l.sent)
    else l.(ctrlWire := None)
  }

  function SendData(l: SafLoop, claims: map<FlowKey, int>, offer: Option<Packet>): SafLoop {
    if offer.Some? && l.credit > 0 && MaySend(claims, l.sent, offer.value) then
      l.(credit := l.credit - 1, wire := offer,
         sent := if offer.value.Msg? then l.sent[offer.value.key := offer.value.seqId] else l.sent)
    else l.(wire := None)
  }

  // ---- One cycle ------------------------------------------------------------------------------

  function LinkInput(l: SafLoop, e: SafEnv): SafInputs {
    SafInputs(l.wire, l.ctrlWire, e.outAvail, e.outCtrlAvail, e.granted)
  }

  ghost function Apply(topo: Topology, rt: Runtime, ops: seq<Op>): (r: Runtime)
    requires Shaped(topo, rt.books) && OpsOnTopology(topo, ops)
    ensures Shaped(topo, r.books)
  {
    if ops == [] then rt else Perform(topo, Apply(topo, rt, ops[..|ops| - 1]), ops[|ops| - 1])
  }

  function Forgotten(sent: map<FlowKey, int>, drained: Option<(FlowKey, int)>): map<FlowKey, int> {
    if drained.Some? then sent - {drained.value.0} else sent
  }

  function DrainedIn(s: Site, l: SafLoop, cyc: int, e: SafEnv): Option<(FlowKey, int)> {
    Drained(Gate(l.st, s.cfg, cyc, LinkInput(l, e)), s.cfg, e.granted)
  }

  /**
   * The upstream samples the credit events of the previous cycle, the link consumes both wires, a drained
   * flow's claim goes back and with it the upstream's record of that claim.
   */
  ghost function LinkPart(s: Site, l: SafLoop, cyc: int, e: SafEnv): LoopRun
    requires s.Valid() && Shaped(s.topo, l.rt.books)
  {
    var inp := LinkInput(l, e);
    var result := Forward(s.topo, l.rt, s.link, l.st, s.cfg, cyc, inp);
    var drained := DrainedIn(s, l, cyc, e);
    if result.Fault? then Broken(result.error)
    else Good(Sample(l).(st := result.st, rt := Returned(s.topo, l.rt, s.link, drained),
                         wire := None, ctrlWire := None, sent := Forgotten(l.sent, drained)))
  }

  function Claims(s: Site, rt: Runtime): map<FlowKey, int>
    requires 0 <= s.link < |rt.books.links|
  {
    rt.books.links[s.link].reservations
  }

  ghost function OutsidePart(s: Site, l: SafLoop, e: SafEnv): SafLoop
    requires s.Valid() && Shaped(s.topo, l.rt.books) && Foreign(s, e.ops)
  {
    var l' := l.(rt := Apply(s.topo, l.rt, e.ops));
    var claims := Claims(s, l'.rt);
    SendData(SendCtrl(l', claims, e.ctrl), claims, e.data)
  }

  ghost function LoopStep(s: Site, l: SafLoop, cyc: int, e: SafEnv): (r: LoopRun)
    requires s.Valid() && Shaped(s.topo, l.rt.books) && Foreign(s, e.ops)
    ensures r.Good? ==> Shaped(s.topo, r.loop.rt.books)
  {
    var l' := LinkPart(s, l, cyc, e);
    if l'.Broken? then l'
    else
      SendKeepsBooks(l'.loop.(rt := Apply(s.topo, l'.loop.rt, e.ops)), Claims(s, Apply(s.topo, l'.loop.rt, e.ops)), e);
      Good(OutsidePart(s, l'.loop, e))
  }

  lemma SendKeepsBooks(l: SafLoop, claims: map<FlowKey, int>, e: SafEnv)
    ensures SendData(SendCtrl(l, claims, e.ctrl), claims, e.data).rt == l.rt
  {
  }

  function StartLoop(s: Site): SafLoop {
    SafLoop(Reset(), Fresh(s.topo, s.cfg.safDepth), s.cfg.safDepth, s.cfg.ctrlDepth, false, false, None, None, map[])
  }

  ghost predicate AllForeign(s: Site, envs: seq<SafEnv>) {
    forall i :: 0 <= i < |envs| ==> Foreign(s, envs[i].ops)
  }

  ghost function LoopAfter(s: Site, envs: seq<SafEnv>): (r: LoopRun)
    requires s.Valid() && AllForeign(s, envs)
    ensures r.Good? ==> Shaped(s.topo, r.loop.rt.books)
  {
    if envs == [] then
      FreshAgrees(s.topo, s.cfg.safDepth);
      Good(StartLoop(s))
    else
      var before := LoopAfter(s, envs[..|envs| - 1]);
      if before.Broken? then before else LoopStep(s, before.loop, |envs|, envs[|envs| - 1])
  }

  // ---- The invariant --------------------------------------------------------------------------

  predicate Announces(w: Option<Packet>, k: FlowKey) {
    w.Some? && w.value.Msg? && w.value.kind == Request && w.value.key == k
  }

  predicate Carries(w: Option<Packet>, k: FlowKey) {
    w.Some? && w.value.Msg? && w.value.key == k
  }

  /** Packets of the flow the link has taken in under its present claim. */
  function Taken(expected: map<FlowKey, int>, flows: map<FlowKey, FlowBuffer>, k: FlowKey): int {
    if k !in flows then 0
    else if flows[k].complete && k in expected then expected[k]
    else |flows[k].packets|
  }

  /** One flow's claim, announcement and packets fit together. */
  predicate KeyOk(claims: map<FlowKey, int>, expected: map<FlowKey, int>, flows: map<FlowKey, FlowBuffer>,
                  wire: Option<Packet>, ctrlWire: Option<Packet>, sent: map<FlowKey, int>, k: FlowKey) {
    && (k in sent ==> k in claims && 0 <= sent[k] <= claims[k])
    && (k in expected ==> k in sent && expected[k] == claims[k])
    && (k in sent ==> k in expected || Announces(ctrlWire, k))
    && (Announces(ctrlWire, k) ==> k in sent && k !in expected && ctrlWire.value.flowPackets == claims[k])
    && (k in sent ==> Taken(expected, flows, k) + (if Carries(wire, k) then 1 else 0) == sent[k])
    && (k in flows && !flows[k].complete && k in expected ==> |flows[k].packets| < expected[k])
    && (Carries(wire, k) ==>
          && wire.value.kind == Data && k in sent && k in claims && wire.value.seqId == sent[k]
          && (wire.value.isEnd <==> sent[k] == claims[k]))
  }

  ghost predicate KeysOk(claims: map<FlowKey, int>, expected: map<FlowKey, int>, flows: map<FlowKey, FlowBuffer>,
                         wire: Option<Packet>, ctrlWire: Option<Packet>, sent: map<FlowKey, int>) {
    forall k :: KeyOk(claims, expected, flows, wire, ctrlWire, sent, k)
  }

  /** Every slot of either stage is a credit in hand, a packet on the wire, a packet held, or an event not yet seen. */
  ghost predicate CreditsOk(s: Site, l: SafLoop) {
    && l.credit >= 0 && l.ctrlCredit >= 0
    && l.credit + |OnWire(l.wire)| + Occupancy(l.st) + (if l.st.toggle != l.seen then 1 else 0) == s.cfg.safDepth
    && l.ctrlCredit + |OnWire(l.ctrlWire)| + |l.st.ctrl|
        + (if l.st.ctrlToggle != l.ctrlSeen then 1 else 0) == s.cfg.ctrlDepth
  }

  ghost predicate Safe(s: Site, l: SafLoop) {
    && s.Valid() && Agree(s.topo, s.cfg.safDepth, l.rt)
    && C.BuffersOk(l.st)
    && CreditsOk(s, l)
    && KeysOk(Claims(s, l.rt), l.st.expected, l.st.flows, l.wire, l.ctrlWire, l.sent)
  }

  // ---- Occupancy ------------------------------------------------------------------------------

  lemma DepartFrees(st: SafState, cfg: SafConfig, cyc: int, granted: bool)
    requires Depart(st, cfg, cyc, granted).Fine?
    ensures var st' := Depart(st, cfg, cyc, granted).st;
            Occupancy(st') + (if st'.toggle != st.toggle then 1 else 0) == Occupancy(st)
  {
    if Requests(st, cfg) && granted && st.mem == [] {
      HeadFrees(st.flows, Depart(st, cfg, cyc, granted).st.flows, st.ready[0]);
    }
  }

  /** A flow that loses one packet, and with its last packet its place, holds one slot less. */
  lemma HeadFrees(flows: map<FlowKey, FlowBuffer>, flows': map<FlowKey, FlowBuffer>, key: FlowKey)
    requires key in flows && flows[key].packets != []
    requires flows' ==
             if |flows[key].packets| > 1 then flows[key := flows[key].(packets := flows[key].packets[1..])]
             else flows - {key}
    ensures Sum(Sizes(flows')) == Sum(Sizes(flows)) - 1
  {
    var n := |flows[key].packets|;
    if n > 1 {
      SumUpdate(Sizes(flows), key, n - 1);
      assert Sizes(flows') == Sizes(flows)[key := n - 1];
    } else {
      SumRemove(Sizes(flows), key);
      assert Sizes(flows') == Sizes(flows) - {key};
    }
  }

  lemma CaptureFills(st: SafState, p: Packet)
    requires CaptureRoom(st, p).Fine?
    ensures Occupancy(CaptureRoom(st, p).st) == Occupancy(st) + 1
  {
    if p.Msg? {
      var st' := CaptureRoom(st, p).st;
      var n := |Grown(st, p).packets|;
      assert Sizes(st'.flows) == Sizes(st.flows)[p.key := n];
      if p.key in st.flows {
        SumUpdate(Sizes(st.flows), p.key, n);
      } else {
        SumAdd(Sizes(st.flows), p.key, n);
      }
    }
  }

  lemma ClaimBelowDepth(l: Ledger, k: FlowKey)
    requires l.Valid() && k in l.reservations
    ensures 0 < l.reservations[k] <= l.capacity
  {
    SumDominated(map[k := l.reservations[k]], l.reservations);
    SumAdd(map[], k, l.reservations[k]);
  }

  // ---- The link's part of a cycle -------------------------------------------------------------

  /** The two flows' buffers say the same about what has been taken in. */
  predicate SameProgress(flows: map<FlowKey, FlowBuffer>, flows': map<FlowKey, FlowBuffer>, k: FlowKey) {
    && (k in flows <==> k in flows')
    && (k in flows ==> flows[k].complete == flows'[k].complete)
    && (k in flows && !flows[k].complete ==> flows[k].packets == flows'[k].packets)
  }

  lemma DepartProgress(st: SafState, cfg: SafConfig, cyc: int, granted: bool, k: FlowKey)
    requires Depart(st, cfg, cyc, granted).Fine?
    ensures var st' := Depart(st, cfg, cyc, granted).st;
            var drained := Drained(st, cfg, granted);
            if drained.Some? && drained.value.0 == k
            then k in st.flows && st.flows[k].complete && st.flows[k].expected == drained.value.1
                 && k !in st'.flows && k !in st'.expected
            else (k in st'.expected <==> k in st.expected) && (k in st.expected ==> st'.expected[k] == st.expected[k])
                 && SameProgress(st.flows, st'.flows, k)
  {
  }

  lemma KeyFrame(claims: map<FlowKey, int>, claims': map<FlowKey, int>,
          expected: map<FlowKey, int>, expected': map<FlowKey, int>,
          flows: map<FlowKey, FlowBuffer>, flows': map<FlowKey, FlowBuffer>,
          wire: Option<Packet>, ctrlWire: Option<Packet>,
          sent: map<FlowKey, int>, sent': map<FlowKey, int>, k: FlowKey)
    requires KeyOk(claims, expected, flows, wire, ctrlWire, sent, k)
    requires k in claims ==> k in claims' && claims'[k] == claims[k]
    requires k in expected' <==> k in expected
    requires k in expected ==> expected'[k] == expected[k]
    requires SameProgress(flows, flows', k) && (k in flows ==> k in expected)
    requires k in sent' <==> k in sent
    requires k in sent ==> sent'[k] == sent[k]
    ensures KeyOk(claims', expected', flows', wire, ctrlWire, sent', k)
  {
  }

  /** A flow that has completed has nothing of its own on either wire. */
  lemma CompleteIsQuiet(claims: map<FlowKey, int>, expected: map<FlowKey, int>, flows: map<FlowKey, FlowBuffer>,
                        wire: Option<Packet>, ctrlWire: Option<Packet>, sent: map<FlowKey, int>, k: FlowKey)
    requires KeyOk(claims, expected, flows, wire, ctrlWire, sent, k) && k in expected && k in flows && flows[k].complete
    ensures !Carries(wire, k) && !Announces(ctrlWire, k)
  {
  }

  lemma DepartKeys(s: Site, l: SafLoop, cyc: int, granted: bool, gate: SafState)
    requires Safe(s, l)
    requires gate.flows == l.st.flows && gate.expected == l.st.expected && gate.ready == l.st.ready
    ensures Depart(gate, s.cfg, cyc, granted).Fine?
    ensures var drained := Drained(gate, s.cfg, granted);
            var st' := Depart(gate, s.cfg, cyc, granted).st;
            var rt' := Returned(s.topo, l.rt, s.link, drained);
            && !Refused(s.topo, l.rt, s.link, drained)
            && Agree(s.topo, s.cfg.safDepth, rt')
            && C.BuffersOk(st')
            && KeysOk(Claims(s, rt'), st'.expected, st'.flows, l.wire, l.ctrlWire, Forgotten(l.sent, drained))
  {
    C.SameBuffers(l.st, gate);
    C.DepartBuffers(gate, s.cfg, cyc, granted);
    var drained := Drained(gate, s.cfg, granted);
    var st' := Depart(gate, s.cfg, cyc, granted).st;
    var rt' := Returned(s.topo, l.rt, s.link, drained);
    if drained.Some? {
      DrainReturned(s, l, gate, granted);
    }
    forall k
      ensures KeyOk(Claims(s, rt'), st'.expected, st'.flows, l.wire, l.ctrlWire, Forgotten(l.sent, drained), k)
    {
      assert KeyOk(Claims(s, l.rt), gate.expected, gate.flows, l.wire, l.ctrlWire, l.sent, k);
      DepartProgress(gate, s.cfg, cyc, granted, k);
      if drained.Some? && drained.value.0 == k {
        assert C.BufferOk(gate, k);
        CompleteIsQuiet(Claims(s, l.rt), gate.expected, gate.flows, l.wire, l.ctrlWire, l.sent, k);
      } else {
        assert C.BufferOk(gate, k);
        KeyFrame(Claims(s, l.rt), Claims(s, rt'), gate.expected, st'.expected, gate.flows, st'.flows,
                 l.wire, l.ctrlWire, l.sent, Forgotten(l.sent, drained), k);
      }
    }
  }

  /** What a drained flow gives back is what it claimed, so the ledger takes it. */
  lemma DrainReturned(s: Site, l: SafLoop, gate: SafState, granted: bool)
    requires Safe(s, l) && C.BuffersOk(gate)
    requires gate.flows == l.st.flows && gate.expected == l.st.expected && gate.ready == l.st.ready
    requires Drained(gate, s.cfg, granted).Some?
    ensures var drained := Drained(gate, s.cfg, granted);
            var rt' := Returned(s.topo, l.rt, s.link, drained);
            && !Refused(s.topo, l.rt, s.link, drained)
            && Agree(s.topo, s.cfg.safDepth, rt')
            && Claims(s, rt') == Claims(s, l.rt) - {drained.value.0}
  {
    var (key, packets) := Drained(gate, s.cfg, granted).value;
    assert C.BufferOk(gate, key);
    assert KeyOk(Claims(s, l.rt), gate.expected, gate.flows, l.wire, l.ctrlWire, l.sent, key);
    assert Holds(l.rt.books, s.link, key);
    ReleaseIff(s.topo, s.cfg.safDepth, l.rt, s.link, key, packets);
    ReleaseAgrees(s.topo, s.cfg.safDepth, l.rt, s.link, key, packets);
  }

  predicate IsRequest(w: Option<Packet>) {
    w.Some? && w.value.Msg? && w.value.kind == Request
  }

  /** A protocol-keeping request is within the stage's capacity and names no flow the link already knows. */
  lemma SettledFine(cfg: SafConfig, cyc: int, inp: SafInputs, st: SafState, ledger: Ledger, wire: Option<Packet>,
          sent: map<FlowKey, int>)
    requires ledger.Valid() && ledger.capacity == cfg.safDepth
    requires C.BuffersOk(st) && KeysOk(ledger.reservations, st.expected, st.flows, wire, inp.ctrl, sent)
    requires inp.ctrl.Some? ==> |DeliverCtrl(st, cyc, inp.outCtrlAvail).ctrl| < cfg.ctrlDepth
    ensures C.Settled(st, cfg, cyc, inp).Fine?
  {
    if IsRequest(inp.ctrl) {
      var k := inp.ctrl.value.key;
      assert C.BufferOk(st, k);
      assert KeyOk(ledger.reservations, st.expected, st.flows, wire, inp.ctrl, sent, k);
      ClaimBelowDepth(ledger, k);
    }
  }

  /** Reading the control wire turns an announcement into an expectation. */
  lemma AnnouncedKey(claims: map<FlowKey, int>, expected: map<FlowKey, int>, flows: map<FlowKey, FlowBuffer>,
                     wire: Option<Packet>, ctrlWire: Option<Packet>, sent: map<FlowKey, int>, k: FlowKey)
    requires KeyOk(claims, expected, flows, wire, ctrlWire, sent, k) && (k in flows ==> k in expected)
    ensures KeyOk(claims, if IsRequest(ctrlWire) then expected[ctrlWire.value.key := ctrlWire.value.flowPackets]
              else expected,
                  flows, wire, None, sent, k)
  {
  }

  lemma SettledKeys(cfg: SafConfig, cyc: int, inp: SafInputs, st: SafState, claims: map<FlowKey, int>,
          wire: Option<Packet>, sent: map<FlowKey, int>, st': SafState)
    requires C.BuffersOk(st) && KeysOk(claims, st.expected, st.flows, wire, inp.ctrl, sent)
    requires C.Settled(st, cfg, cyc, inp) == Fine(st')
    ensures C.BuffersOk(st') && KeysOk(claims, st'.expected, st'.flows, wire, None, sent)
  {
    C.SettledFields(st, cfg, cyc, inp, st');
    C.CtrlBuffers(st, st', inp.ctrl);
    AnnouncementKept(st, cfg, cyc, inp);
    forall k
      ensures KeyOk(claims, st'.expected, st'.flows, wire, None, sent, k)
    {
      assert KeyOk(claims, st.expected, st.flows, wire, inp.ctrl, sent, k);
      assert C.BufferOk(st, k);
      AnnouncedKey(claims, st.expected, st.flows, wire, inp.ctrl, sent, k);
    }
  }

  lemma AnnouncementKept(st: SafState, cfg: SafConfig, cyc: int, inp: SafInputs)
    requires C.Settled(st, cfg, cyc, inp).Fine?
    ensures C.Settled(st, cfg, cyc, inp).st.expected ==
              if IsRequest(inp.ctrl)
              then st.expected[inp.ctrl.value.key := inp.ctrl.value.flowPackets]
              else st.expected
  {
  }

  /** Once both wires are read, every announced flow is known to the link, and its next packet fits. */
  lemma CaptureKeys(claims: map<FlowKey, int>, st: SafState, wire: Option<Packet>, sent: map<FlowKey, int>, p: Packet)
    requires C.BuffersOk(st) && KeysOk(claims, st.expected, st.flows, wire, None, sent) && wire == Some(p)
    ensures var c := CaptureRoom(st, p);
            && c.Fine? && C.BuffersOk(c.st)
            && KeysOk(claims, c.st.expected, c.st.flows, None, None, sent)
  {
    if p.Msg? {
      assert KeyOk(claims, st.expected, st.flows, wire, None, sent, p.key);
      assert C.BufferOk(st, p.key);
    }
    var c := CaptureRoom(st, p);
    C.CaptureBuffers(st, p);
    forall k
      ensures KeyOk(claims, c.st.expected, c.st.flows, None, None, sent, k)
    {
      assert KeyOk(claims, st.expected, st.flows, wire, None, sent, k);
    }
  }

  // ---- Credits through the link's part --------------------------------------------------------

  lemma FinishCredits(cfg: SafConfig, cyc: int, inp: SafInputs, st: SafState, st': SafState)
    requires Finish(st, cfg, cyc, inp) == Fine(st')
    ensures Occupancy(st') == Occupancy(st) + |OnWire(inp.data)|
    ensures st'.toggle == st.toggle
    ensures |st'.ctrl| + (if st'.ctrlToggle != st.ctrlToggle then 1 else 0) == |st.ctrl| + |OnWire(inp.ctrl)|
  {
    var c := C.Settled(st, cfg, cyc, inp);
    SettledCredits(cfg, cyc, inp, st, c.st);
    if inp.data.Some? {
      CaptureFills(c.st, inp.data.value);
      CaptureKeepsCtrl(c.st, inp.data.value);
    }
  }

  lemma SettledCredits(cfg: SafConfig, cyc: int, inp: SafInputs, st: SafState, st': SafState)
    requires C.Settled(st, cfg, cyc, inp) == Fine(st')
    ensures Occupancy(st') == Occupancy(st) && st'.toggle == st.toggle
    ensures |st'.ctrl| + (if st'.ctrlToggle != st.ctrlToggle then 1 else 0) == |st.ctrl| + |OnWire(inp.ctrl)|
  {
  }

  lemma CaptureKeepsCtrl(st: SafState, p: Packet)
    requires CaptureRoom(st, p).Fine?
    ensures var st' := CaptureRoom(st, p).st;
            st'.ctrl == st.ctrl && st'.ctrlToggle == st.ctrlToggle && st'.toggle == st.toggle
  {
  }

  lemma LinkPartSafe(s: Site, l: SafLoop, cyc: int, e: SafEnv)
    requires Safe(s, l)
    ensures LinkPart(s, l, cyc, e).Good? && Safe(s, LinkPart(s, l, cyc, e).loop)
    ensures var l' := LinkPart(s, l, cyc, e).loop; l'.wire == None && l'.ctrlWire == None
  {
    var inp := LinkInput(l, e);
    var gate := Gate(l.st, s.cfg, cyc, inp);
    C.GateFields(l.st, s.cfg, cyc, inp);
    DepartKeys(s, l, cyc, e.granted, gate);
    var st' := Depart(gate, s.cfg, cyc, e.granted).st;
    var drained := Drained(gate, s.cfg, e.granted);
    var rt' := Returned(s.topo, l.rt, s.link, drained);
    DepartCredits(s, l, cyc, e.granted, gate, st');
    ArrivalsSafe(s, cyc, inp, st', rt', Forgotten(l.sent, drained));
    var f := Finish(st', s.cfg, cyc, inp).st;
    CycleCredits(s, l, cyc, inp, st', f);
    LinkPartUnfolds(s, l, cyc, e, st', f);
    SampledSafe(s, l, f, rt', Forgotten(l.sent, drained));
  }

  lemma LinkPartUnfolds(s: Site, l: SafLoop, cyc: int, e: SafEnv, st: SafState, st': SafState)
    requires s.Valid() && Shaped(s.topo, l.rt.books)
    requires DepartWith(s.topo, l.rt, s.link, Gate(l.st, s.cfg, cyc, LinkInput(l, e)), s.cfg, cyc, e.granted)
               == Fine(st)
    requires Finish(st, s.cfg, cyc, LinkInput(l, e)) == Fine(st')
    ensures var drained := DrainedIn(s, l, cyc, e);
            LinkPart(s, l, cyc, e) == Good(Sample(l).(st := st', rt := Returned(s.topo, l.rt, s.link, drained),
                                                      wire := None, ctrlWire := None,
                                                      sent := Forgotten(l.sent, drained)))
  {
  }

  lemma SampledSafe(s: Site, l: SafLoop, st: SafState, rt: Runtime, sent: map<FlowKey, int>)
    requires s.Valid() && Agree(s.topo, s.cfg.safDepth, rt) && C.BuffersOk(st)
    requires KeysOk(Claims(s, rt), st.expected, st.flows, None, None, sent)
    requires CreditsOk(s, Sample(l).(st := st, wire := None, ctrlWire := None))
    ensures Safe(s, Sample(l).(st := st, rt := rt, wire := None, ctrlWire := None, sent := sent))
  {
  }

  lemma DepartCredits(s: Site, l: SafLoop, cyc: int, granted: bool, gate: SafState, st': SafState)
    requires CreditsOk(s, l) && Depart(gate, s.cfg, cyc, granted) == Fine(st')
    requires gate.flows == l.st.flows && gate.mem == l.st.mem && gate.toggle == l.st.toggle
    requires gate.ctrl == l.st.ctrl && gate.ctrlToggle == l.st.ctrlToggle
    ensures Occupancy(st') + (if st'.toggle != l.st.toggle then 1 else 0) == Occupancy(l.st)
    ensures st'.ctrl == l.st.ctrl && st'.ctrlToggle == l.st.ctrlToggle
    ensures l.ctrlWire.Some? ==> |st'.ctrl| < s.cfg.ctrlDepth
    ensures l.wire.Some? ==> Occupancy(st') < s.cfg.safDepth
  {
    DepartFrees(gate, s.cfg, cyc, granted);
    DepartKeepsCtrl(gate, s.cfg, cyc, granted);
  }

  /** Sampling clears the event a departure or delivery may set again in the same cycle, so no two returns merge. */
  lemma CycleCredits(s: Site, l: SafLoop, cyc: int, inp: SafInputs, st: SafState, st': SafState)
    requires CreditsOk(s, l) && Finish(st, s.cfg, cyc, inp) == Fine(st')
    requires inp.data == l.wire && inp.ctrl == l.ctrlWire
    requires Occupancy(st) + (if st.toggle != l.st.toggle then 1 else 0) == Occupancy(l.st)
    requires st.ctrl == l.st.ctrl && st.ctrlToggle == l.st.ctrlToggle
    ensures CreditsOk(s, Sample(l).(st := st', wire := None, ctrlWire := None))
  {
    FinishCredits(s.cfg, cyc, inp, st, st');
  }

  lemma ArrivalsSafe(s: Site, cyc: int, inp: SafInputs, st: SafState, rt: Runtime, sent: map<FlowKey, int>)
    requires s.Valid() && Agree(s.topo, s.cfg.safDepth, rt) && C.BuffersOk(st)
    requires KeysOk(Claims(s, rt), st.expected, st.flows, inp.data, inp.ctrl, sent)
    requires inp.ctrl.Some? ==> |st.ctrl| < s.cfg.ctrlDepth
    requires inp.data.Some? ==> Occupancy(st) < s.cfg.safDepth
    ensures var f := Finish(st, s.cfg, cyc, inp);
            f.Fine? && C.BuffersOk(f.st) && KeysOk(Claims(s, rt), f.st.expected, f.st.flows, None, None, sent)
  {
    SettledFine(s.cfg, cyc, inp, st, rt.books.links[s.link], inp.data, sent);
    var c := C.Settled(st, s.cfg, cyc, inp).st;
    SettledKeys(s.cfg, cyc, inp, st, Claims(s, rt), inp.data, sent, c);
    SettledCredits(s.cfg, cyc, inp, st, c);
    if inp.data.Some? {
      CaptureKeys(Claims(s, rt), c, inp.data, sent, inp.data.value);
    }
  }

  // ---- The outside's part ---------------------------------------------------------------------

  /** Whatever others reserve or return, what this link holds for a flow stays as it is. */
  lemma {:induction false} ApplyKeepsClaims(s: Site, rt: Runtime, ops: seq<Op>, k: FlowKey)
    requires s.Valid() && Agree(s.topo, s.cfg.safDepth, rt) && Foreign(s, ops)
    ensures var rt' := Apply(s.topo, rt, ops);
            && Agree(s.topo, s.cfg.safDepth, rt')
            && (k in Claims(s, rt) ==> k in Claims(s, rt') && Claims(s, rt')[k] == Claims(s, rt)[k])
  {
    if ops != [] {
      var before := Apply(s.topo, rt, ops[..|ops| - 1]);
      ApplyKeepsClaims(s, rt, ops[..|ops| - 1], k);
      PerformAgrees(s.topo, s.cfg.safDepth, before, ops[|ops| - 1]);
      if k in Claims(s, rt) {
        PerformKeepsClaim(s, before, ops[|ops| - 1], k);
      }
    }
  }

  lemma PerformKeepsClaim(s: Site, rt: Runtime, op: Op, k: FlowKey)
    requires s.Valid() && Agree(s.topo, s.cfg.safDepth, rt) && OpOnTopology(s.topo, op)
    requires op.DoRelease? ==> op.link != s.link
    requires k in Claims(s, rt)
    ensures Holds(Perform(s.topo, rt, op).books, s.link, k)
    ensures Perform(s.topo, rt, op).books.links[s.link].reservations[k] == Claims(s, rt)[k]
  {
    assert Holds(rt.books, s.link, k);
    match op
    case DoReserve(plans) =>
      if ReserveOutcome(s.topo, rt, plans) == Reserved {
        HopsOnTopology(s.topo, plans);
        AddHopsValue(s.topo, rt.books, Hops(plans), s.link, k);
      }
    case DoRelease(link, key, packets) =>
      ReleaseAgrees(s.topo, s.cfg.safDepth, rt, link, key, packets);
  }

  lemma SendCtrlSafe(s: Site, l: SafLoop, offer: Option<Packet>)
    requires Safe(s, l) && l.wire == None && l.ctrlWire == None
    ensures var l' := SendCtrl(l, Claims(s, l.rt), offer);
            Safe(s, l') && l'.wire == None && l'.rt == l.rt
  {
    var l' := SendCtrl(l, Claims(s, l.rt), offer);
    forall k
      ensures KeyOk(Claims(s, l.rt), l'.st.expected, l'.st.flows, l'.wire, l'.ctrlWire, l'.sent, k)
    {
      assert KeyOk(Claims(s, l.rt), l.st.expected, l.st.flows, l.wire, l.ctrlWire, l.sent, k);
      assert C.BufferOk(l.st, k);
      if k in Claims(s, l.rt) {
        ClaimBelowDepth(l.rt.books.links[s.link], k);
      }
    }
  }

  lemma SendDataSafe(s: Site, l: SafLoop, offer: Option<Packet>)
    requires Safe(s, l) && l.wire == None
    ensures Safe(s, SendData(l, Claims(s, l.rt), offer))
  {
    var l' := SendData(l, Claims(s, l.rt), offer);
    forall k
      ensures KeyOk(Claims(s, l.rt), l'.st.expected, l'.st.flows, l'.wire, l'.ctrlWire, l'.sent, k)
    {
      assert KeyOk(Claims(s, l.rt), l.st.expected, l.st.flows, l.wire, l.ctrlWire, l.sent, k);
    }
  }

  lemma OutsideSafe(s: Site, l: SafLoop, e: SafEnv)
    requires Safe(s, l) && l.wire == None && l.ctrlWire == None && Foreign(s, e.ops)
    ensures Safe(s, OutsidePart(s, l, e))
  {
    var rt' := Apply(s.topo, l.rt, e.ops);
    var l' := l.(rt := rt');
    ApplyKeepsClaims(s, l.rt, e.ops, FlowKey(0, 0, 0));
    forall k
      ensures KeyOk(Claims(s, rt'), l.st.expected, l.st.flows, None, None, l.sent, k)
    {
      ApplyKeepsClaims(s, l.rt, e.ops, k);
      assert KeyOk(Claims(s, l.rt), l.st.expected, l.st.flows, l.wire, l.ctrlWire, l.sent, k);
      assert C.BufferOk(l.st, k);
      KeyFrame(Claims(s, l.rt), Claims(s, rt'), l.st.expected, l.st.expected, l.st.flows, l.st.flows, None, None,
          l.sent, l.sent, k);
    }
    SendCtrlSafe(s, l', e.ctrl);
    SendDataSafe(s, SendCtrl(l', Claims(s, rt'), e.ctrl), e.data);
  }

  // ---- Main results ---------------------------------------------------------------------------

  /**
   * On every run no error is reachable: not one of the link's contract errors, nor a refused release. A
   * flow key may be claimed, drained and claimed again any number of times.
   */
  lemma {:induction false} NoErrorReachable(s: Site, envs: seq<SafEnv>)
    requires s.Valid() && AllForeign(s, envs)
    ensures LoopAfter(s, envs).Good? && Safe(s, LoopAfter(s, envs).loop)
  {
    if envs == [] {
      StartSafe(s);
    } else {
      var before := envs[..|envs| - 1];
      NoErrorReachable(s, before);
      var l, e := LoopAfter(s, before).loop, envs[|envs| - 1];
      LinkPartSafe(s, l, |envs|, e);
      OutsideSafe(s, LinkPart(s, l, |envs|, e).loop, e);
    }
  }

  lemma StartSafe(s: Site)
    requires s.Valid()
    ensures Safe(s, StartLoop(s))
  {
    FreshAgrees(s.topo, s.cfg.safDepth);
    assert Sizes(map[]) == map[];
  }

  /** What flows hold of the stage is at most what they claimed, which is at most the stage. */
  lemma OccupancyBelowClaims(s: Site, envs: seq<SafEnv>)
    requires s.Valid() && AllForeign(s, envs)
    ensures LoopAfter(s, envs).Good?
    ensures var l := LoopAfter(s, envs).loop;
            Sum(Sizes(l.st.flows)) <= l.rt.books.links[s.link].reserved <= s.cfg.safDepth
  {
    NoErrorReachable(s, envs);
    var l := LoopAfter(s, envs).loop;
    forall k | k in l.st.flows
      ensures k in Claims(s, l.rt) && Sizes(l.st.flows)[k] <= Claims(s, l.rt)[k]
    {
      assert C.BufferOk(l.st, k);
      assert KeyOk(Claims(s, l.rt), l.st.expected, l.st.flows, l.wire, l.ctrlWire, l.sent, k);
    }
    SumDominated(Sizes(l.st.flows), Claims(s, l.rt));
  }

  /**
   * A stage with nothing ready to leave is never full of partial flows: while an announced flow is unfinished a
   * credit is in hand, on its way back, or already spent on a packet on the wire.
   */
  lemma UnfinishedFlowHasCredit(s: Site, envs: seq<SafEnv>, key: FlowKey)
    requires s.Valid() && AllForeign(s, envs)
    ensures LoopAfter(s, envs).Good?
    ensures var l := LoopAfter(s, envs).loop;
            l.st.mem == [] && l.st.ready == [] && key in l.st.expected ==>
              l.credit + (if l.st.toggle != l.seen then 1 else 0) + |OnWire(l.wire)| > 0
  {
    NoErrorReachable(s, envs);
    var l := LoopAfter(s, envs).loop;
    if l.st.mem == [] && l.st.ready == [] && key in l.st.expected {
      var claims, sizes := Claims(s, l.rt), Sizes(l.st.flows);
      forall k
        ensures k in sizes ==> k in claims && sizes[k] < claims[k]
        ensures k in claims ==> claims[k] > 0
      {
        assert C.BufferOk(l.st, k);
        assert KeyOk(claims, l.st.expected, l.st.flows, l.wire, l.ctrlWire, l.sent, k);
      }
      assert KeyOk(claims, l.st.expected, l.st.flows, l.wire, l.ctrlWire, l.sent, key);
      SumStrict(sizes, claims, key);
    }
  }

  // ---- Content on protocol runs ---------------------------------------------------------------

  /** What the link read in each cycle of a run. */
  ghost function WiresRead(s: Site, envs: seq<SafEnv>): (r: seq<SafInputs>)
    requires s.Valid() && AllForeign(s, envs)
    ensures |r| == |envs|
  {
    if envs == [] then []
    else
      var before := envs[..|envs| - 1];
      NoErrorReachable(s, before);
      WiresRead(s, before) + [LinkInput(LoopAfter(s, before).loop, envs[|envs| - 1])]
  }

  lemma LinkPartIsCycle(s: Site, l: SafLoop, cyc: int, e: SafEnv)
    requires s.Valid() && Shaped(s.topo, l.rt.books) && Foreign(s, e.ops) && LoopStep(s, l, cyc, e).Good?
    ensures Cycle(l.st, s.cfg, cyc, LinkInput(l, e)) == Fine(LoopStep(s, l, cyc, e).loop.st)
  {
    var l' := LinkPart(s, l, cyc, e).loop;
    SendKeepsState(l'.(rt := Apply(s.topo, l'.rt, e.ops)), Claims(s, Apply(s.topo, l'.rt, e.ops)), e);
  }

  lemma SendKeepsState(l: SafLoop, claims: map<FlowKey, int>, e: SafEnv)
    ensures SendData(SendCtrl(l, claims, e.ctrl), claims, e.data).st == l.st
  {
  }

  lemma {:induction false} LoopIsTraced(s: Site, envs: seq<SafEnv>)
    requires s.Valid() && AllForeign(s, envs)
    ensures LoopAfter(s, envs).Good?
    ensures C.Traced(s.cfg, WiresRead(s, envs)).Running?
    ensures C.Traced(s.cfg, WiresRead(s, envs)).trace.st == LoopAfter(s, envs).loop.st
  {
    NoErrorReachable(s, envs);
    if envs != [] {
      var before := envs[..|envs| - 1];
      LoopIsTraced(s, before);
      var l, e := LoopAfter(s, before).loop, envs[|envs| - 1];
      assert WiresRead(s, envs)[..|envs| - 1] == WiresRead(s, before);
      LoopTraceStep(s, l, |envs|, e, C.Traced(s.cfg, WiresRead(s, before)).trace);
    }
  }

  lemma LoopTraceStep(s: Site, l: SafLoop, cyc: int, e: SafEnv, t: C.Trace)
    requires s.Valid() && Shaped(s.topo, l.rt.books) && Foreign(s, e.ops) && LoopStep(s, l, cyc, e).Good?
               && t.st == l.st
    ensures var next := C.TraceStep(t, s.cfg, cyc, LinkInput(l, e));
            next.Running? && next.trace.st == LoopStep(s, l, cyc, e).loop.st
  {
    LinkPartIsCycle(s, l, cyc, e);
    C.TraceIsCycle(t, s.cfg, cyc, LinkInput(l, e));
  }

  /** Under the protocol the link never stops, so what it carries is whole flows, in completion order, unchanged. */
  lemma ProtocolRunCarriesWholeFlows(s: Site, envs: seq<SafEnv>)
    requires s.Valid() && AllForeign(s, envs)
    ensures LoopAfter(s, envs).Good?
    ensures var run := C.Traced(s.cfg, WiresRead(s, envs));
            && run.Running? && run.trace.st == LoopAfter(s, envs).loop.st
            && run.trace.delivered + run.trace.st.rx + Payloads(run.trace.st.inflight) == run.trace.departed
            && C.Msgs(run.trace.departed) <= C.Concat(run.trace.completed)
            && C.Wholes(run.trace.completed)
  {
    LoopIsTraced(s, envs);
    C.CarriesWholeFlows(s.cfg, WiresRead(s, envs));
  }
}
