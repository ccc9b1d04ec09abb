/**
 * What reservation buys. A flow that holds its claim never waits for a credit, whatever the other flows do,
 * and once it is whole it leaves within a bound set by the slower of its token rates and the latency.
 */
module SafProgress {
  import opened Basics
  import opened FlowLedger
  import opened SafRuntime
  import opened SafAgreement
  import opened SafReservation
  import opened BoundedLink
  import opened CreditLoop
  import opened SafLink
  import opened SafSafety
  import C = SafContent

  // ---- No announced flow waits for a credit ---------------------------------------------------

  /** Announced in an earlier cycle, with packets still to send. */
  predicate Unfinished(s: Site, l: SafLoop, key: FlowKey)
    requires 0 <= s.link < |l.rt.books.links|
  {
    key in l.sent && key in Claims(s, l.rt) && l.sent[key] < Claims(s, l.rt)[key]
  }

  /** The data packet number `n` of a flow of `total` packets. */
  predicate IsPacket(offer: Option<Packet>, key: FlowKey, n: int, total: int) {
    && offer.Some? && offer.value.Msg? && offer.value.kind == Data && offer.value.key == key
    && offer.value.seqId == n && (offer.value.isEnd <==> n == total)
  }

  predicate OffersMessage(e: SafEnv) {
    e.data.Some? ==> e.data.value.Msg?
  }

  predicate MessagesOnly(envs: seq<SafEnv>) {
    forall i :: 0 <= i < |envs| ==> OffersMessage(envs[i])
  }

  predicate NoMemory(l: SafLoop) {
    l.st.mem == [] && (l.wire.Some? ==> l.wire.value.Msg?)
  }

  lemma DepartKeepsNoMemory(st: SafState, cfg: SafConfig, cyc: int, granted: bool)
    requires st.mem == [] && Depart(st, cfg, cyc, granted).Fine?
    ensures Depart(st, cfg, cyc, granted).st.mem == []
  {
  }

  lemma CaptureKeepsNoMemory(st: SafState, cfg: SafConfig, arrival: Option<Packet>)
    requires st.mem == [] && (arrival.Some? ==> arrival.value.Msg?) && Capture(st, cfg, arrival).Fine?
    ensures Capture(st, cfg, arrival).st.mem == []
  {
  }

  lemma CycleKeepsNoMemory(st: SafState, cfg: SafConfig, cyc: int, inp: SafInputs, st': SafState)
    requires Cycle(st, cfg, cyc, inp) == Fine(st') && st.mem == [] && (inp.data.Some? ==> inp.data.value.Msg?)
    ensures st'.mem == []
  {
    var gate := Gate(st, cfg, cyc, inp);
    C.GateFields(st, cfg, cyc, inp);
    DepartKeepsNoMemory(gate, cfg, cyc, inp.granted);
    var d := Depart(gate, cfg, cyc, inp.granted).st;
    var c := C.Settled(d, cfg, cyc, inp);
    C.SettledFields(d, cfg, cyc, inp, c.st);
    CaptureKeepsNoMemory(c.st, cfg, inp.data);
  }

  lemma StepKeepsNoMemory(s: Site, l: SafLoop, cyc: int, e: SafEnv)
    requires Safe(s, l) && Foreign(s, e.ops) && NoMemory(l) && OffersMessage(e) && LoopStep(s, l, cyc, e).Good?
    ensures NoMemory(LoopStep(s, l, cyc, e).loop)
  {
    LinkPartIsCycle(s, l, cyc, e);
    CycleKeepsNoMemory(l.st, s.cfg, cyc, LinkInput(l, e), LoopStep(s, l, cyc, e).loop.st);
  }

  /** Packets held and in transit, flow by flow. */
  function InHand(sizes: map<FlowKey, int>, wire: Option<Packet>): map<FlowKey, int> {
    if wire.Some? && wire.value.Msg? then
      sizes[wire.value.key := (if wire.value.key in sizes then sizes[wire.value.key] else 0) + 1]
    else sizes
  }

  lemma InHandSum(sizes: map<FlowKey, int>, wire: Option<Packet>)
    requires wire.Some? ==> wire.value.Msg?
    ensures Sum(InHand(sizes, wire)) == Sum(sizes) + |OnWire(wire)|
  {
    if wire.Some? {
      var k := wire.value.key;
      if k in sizes {
        SumUpdate(sizes, k, sizes[k] + 1);
      } else {
        SumAdd(sizes, k, 1);
      }
    }
  }

  /** No flow has more in hand than it has sent, nor sent more than it claims. */
  lemma InHandBelowSent(s: Site, l: SafLoop, k: FlowKey)
    requires Safe(s, l) && k in InHand(Sizes(l.st.flows), l.wire)
    ensures k in Claims(s, l.rt) && k in l.sent
              && InHand(Sizes(l.st.flows), l.wire)[k] <= l.sent[k] <= Claims(s, l.rt)[k]
  {
    assert KeyOk(Claims(s, l.rt), l.st.expected, l.st.flows, l.wire, l.ctrlWire, l.sent, k);
    assert C.BufferOk(l.st, k);
  }

  /** The claims of all flows fit the stage, so while one has packets to send the stage cannot be full. */
  lemma RoomForUnfinished(s: Site, l: SafLoop, key: FlowKey)
    requires Safe(s, l) && NoMemory(l) && Unfinished(s, l, key)
    ensures Occupancy(l.st) + |OnWire(l.wire)| < s.cfg.safDepth
  {
    var held, ledger := InHand(Sizes(l.st.flows), l.wire), l.rt.books.links[s.link];
    forall k | k in held
      ensures k in Claims(s, l.rt) && held[k] <= Claims(s, l.rt)[k] && (k == key ==> held[k] < Claims(s, l.rt)[k])
    {
      InHandBelowSent(s, l, k);
    }
    assert ledger.Valid() && ledger.capacity == s.cfg.safDepth;
    SumStrict(held, Claims(s, l.rt), key);
    InHandSum(Sizes(l.st.flows), l.wire);
  }

  /** A flow with packets still to send is not the one that drains. */
  lemma UnfinishedStays(s: Site, l: SafLoop, cyc: int, e: SafEnv, key: FlowKey)
    requires Safe(s, l) && Unfinished(s, l, key)
    ensures DrainedIn(s, l, cyc, e).Some? ==> DrainedIn(s, l, cyc, e).value.0 != key
  {
    C.GateFields(l.st, s.cfg, cyc, LinkInput(l, e));
    assert C.BufferOk(l.st, key);
    assert KeyOk(Claims(s, l.rt), l.st.expected, l.st.flows, l.wire, l.ctrlWire, l.sent, key);
  }

  /** A flow that does not drain keeps its claim and the upstream's count through the link's part of a cycle. */
  lemma LinkPartKeeps(s: Site, l: SafLoop, cyc: int, e: SafEnv, key: FlowKey)
    requires Safe(s, l) && key in l.sent && key in Claims(s, l.rt)
    requires DrainedIn(s, l, cyc, e).Some? ==> DrainedIn(s, l, cyc, e).value.0 != key
    ensures LinkPart(s, l, cyc, e).Good?
    ensures var l' := LinkPart(s, l, cyc, e).loop;
            && key in l'.sent && l'.sent[key] == l.sent[key]
            && key in Claims(s, l'.rt) && Claims(s, l'.rt)[key] == Claims(s, l.rt)[key]
            && l'.credit == l.credit + (if l.st.toggle != l.seen then 1 else 0)
  {
    LinkPartSafe(s, l, cyc, e);
    var gate := Gate(l.st, s.cfg, cyc, LinkInput(l, e));
    C.GateFields(l.st, s.cfg, cyc, LinkInput(l, e));
    C.SameBuffers(l.st, gate);
    if Drained(gate, s.cfg, e.granted).Some? {
      DrainReturned(s, l, gate, e.granted);
    }
  }

  /** So does the outside's part, which sends the offered packet if it is the flow's next and a credit is in hand. */
  lemma OutsideSends(s: Site, l: SafLoop, e: SafEnv, key: FlowKey)
    requires Safe(s, l) && Foreign(s, e.ops) && key in l.sent && key in Claims(s, l.rt) && l.credit > 0
    requires IsPacket(e.data, key, l.sent[key] + 1, Claims(s, l.rt)[key]) && l.sent[key] < Claims(s, l.rt)[key]
    ensures Shaped(s.topo, OutsidePart(s, l, e).rt.books)
    ensures var l' := OutsidePart(s, l, e);
            && l'.wire == e.data && key in l'.sent && l'.sent[key] == l.sent[key] + 1
            && key in Claims(s, l'.rt) && Claims(s, l'.rt)[key] == Claims(s, l.rt)[key]
  {
    ApplyKeepsClaims(s, l.rt, e.ops, key);
  }

  /**
   * An announced flow's next packet is sent in the cycle in which it is offered: other flows can neither
   * take its slots nor hold up its credits.
   */
  lemma NextIsSent(s: Site, l: SafLoop, cyc: int, e: SafEnv, key: FlowKey)
    requires Safe(s, l) && NoMemory(l) && Foreign(s, e.ops) && Unfinished(s, l, key)
    requires IsPacket(e.data, key, l.sent[key] + 1, Claims(s, l.rt)[key])
    ensures LoopStep(s, l, cyc, e).Good?
    ensures var l' := LoopStep(s, l, cyc, e).loop;
            && l'.wire == e.data && key in l'.sent && l'.sent[key] == l.sent[key] + 1
            && key in Claims(s, l'.rt) && Claims(s, l'.rt)[key] == Claims(s, l.rt)[key]
  {
    UnfinishedStays(s, l, cyc, e, key);
    LinkPartSafe(s, l, cyc, e);
    LinkPartKeeps(s, l, cyc, e, key);
    RoomForUnfinished(s, l, key);
    OutsideSends(s, LinkPart(s, l, cyc, e).loop, e, key);
  }

  lemma AfterSnoc(s: Site, envs: seq<SafEnv>, e: SafEnv)
    requires s.Valid() && AllForeign(s, envs + [e])
    ensures AllForeign(s, envs) && LoopAfter(s, envs).Good? && Foreign(s, e.ops)
    ensures Safe(s, LoopAfter(s, envs).loop)
    ensures LoopAfter(s, envs + [e]) == LoopStep(s, LoopAfter(s, envs).loop, |envs| + 1, e)
    ensures LoopAfter(s, envs + [e]).Good?
  {
    assert (envs + [e])[..|envs|] == envs;
    assert forall i :: 0 <= i < |envs| ==> envs[i] == (envs + [e])[i];
    assert (envs + [e])[|envs|] == e;
    NoErrorReachable(s, envs);
    NoErrorReachable(s, envs + [e]);
  }

  lemma {:induction false} MemoryNever(s: Site, envs: seq<SafEnv>)
    requires s.Valid() && AllForeign(s, envs) && MessagesOnly(envs)
    ensures LoopAfter(s, envs).Good? && NoMemory(LoopAfter(s, envs).loop)
  {
    if envs != [] {
      var before, e := envs[..|envs| - 1], envs[|envs| - 1];
      assert envs == before + [e];
      AfterSnoc(s, before, e);
      MemoryNever(s, before);
      StepKeepsNoMemory(s, LoopAfter(s, before).loop, |envs|, e);
    }
  }

  /** The flow's packets `from + 1`, `from + 2`, ... are offered, one in each cycle. */
  predicate Offered(run: seq<SafEnv>, key: FlowKey, from: int, total: int) {
    forall i :: 0 <= i < |run| ==> IsPacket(run[i].data, key, from + 1 + i, total)
  }

  ghost predicate HasSent(s: Site, envs: seq<SafEnv>, key: FlowKey, n: int, total: int)
    requires s.Valid() && AllForeign(s, envs)
  {
    && LoopAfter(s, envs).Good?
    && var l := LoopAfter(s, envs).loop;
    && key in l.sent && l.sent[key] == n && key in Claims(s, l.rt) && Claims(s, l.rt)[key] == total
  }

  lemma OneMoreSent(s: Site, envs: seq<SafEnv>, e: SafEnv, key: FlowKey, n: int, total: int)
    requires s.Valid() && AllForeign(s, envs) && AllForeign(s, envs + [e]) && MessagesOnly(envs)
    requires HasSent(s, envs, key, n, total) && n < total && IsPacket(e.data, key, n + 1, total)
    ensures HasSent(s, envs + [e], key, n + 1, total)
  {
    AfterSnoc(s, envs, e);
    MemoryNever(s, envs);
    NextIsSent(s, LoopAfter(s, envs).loop, |envs| + 1, e, key);
  }

  lemma PartsForeign(s: Site, a: seq<SafEnv>, b: seq<SafEnv>)
    requires AllForeign(s, a + b)
    ensures AllForeign(s, a) && AllForeign(s, b)
  {
    assert forall i :: 0 <= i < |a| ==> a[i] == (a + b)[i];
    assert forall i :: 0 <= i < |b| ==> b[i] == (a + b)[|a| + i];
  }

  lemma PartsMessages(a: seq<SafEnv>, b: seq<SafEnv>)
    requires MessagesOnly(a + b)
    ensures MessagesOnly(a) && MessagesOnly(b)
  {
    assert forall i :: 0 <= i < |a| ==> a[i] == (a + b)[i];
    assert forall i :: 0 <= i < |b| ==> b[i] == (a + b)[|a| + i];
  }

  /**
   * Full rate: from any reachable state, a flow announced earlier sends as many packets as cycles pass, however
   * many flows share the link and whatever they, the downstream and the arbiter do.
   */
  lemma {:induction false} SentAtFullRate(s: Site, envs: seq<SafEnv>, run: seq<SafEnv>, key: FlowKey, from: int,
          total: int)
    requires s.Valid() && AllForeign(s, envs) && AllForeign(s, envs + run) && MessagesOnly(envs + run)
    requires HasSent(s, envs, key, from, total) && from + |run| <= total && Offered(run, key, from, total)
    ensures HasSent(s, envs + run, key, from + |run|, total)
  {
    if run == [] {
      Unit(envs);
    } else {
      var before, e := run[..|run| - 1], run[|run| - 1];
      assert run == before + [e];
      Assoc(envs, before, [e]);
      PartsForeign(s, envs + before, [e]);
      PartsMessages(envs + before, [e]);
      SentAtFullRate(s, envs, before, key, from, total);
      OneMoreSent(s, envs + before, e, key, from + |before|, total);
    }
  }
}
