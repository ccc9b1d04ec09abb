/** A production link under its group's arbiter: a request persists until granted, so it is granted in turn. */
module SafGroup {
  import opened Basics
  import opened FlowLedger
  import opened BoundedLink
  import opened SafLink
  import opened GroupArbiter

  /** The rates are non-negative, as a valid configuration's are. */
  predicate Refills(cfg: SafConfig) {
    cfg.portRate.num >= 0 && cfg.rate.num >= 0
  }

  lemma GateRequest(st: SafState, cfg: SafConfig, cyc: int, inp: SafInputs)
    requires st.mem != [] || st.ready != []
    requires st.portTokens + cfg.portRate.num >= cfg.portRate.den && st.tokens + cfg.rate.num >= cfg.rate.den
    requires |st.inflight| < cfg.inflightDepth
    ensures Requests(Gate(st, cfg, cyc, inp), cfg)
  {
  }

  lemma CaptureKeepsRequest(st: SafState, cfg: SafConfig, arrival: Option<Packet>)
    requires Requests(st, cfg) && Capture(st, cfg, arrival).Fine?
    ensures Requests(Capture(st, cfg, arrival).st, cfg)
  {
  }

  lemma SettledKeepsRequest(st: SafState, cfg: SafConfig, cyc: int, inp: SafInputs)
    requires Requests(st, cfg)
    ensures var c := AcceptCtrl(DeliverCtrl(CapTokens(st, cfg), cyc, inp.outCtrlAvail), cfg, cyc, inp.ctrl);
            c.Fine? ==> Requests(c.st, cfg)
  {
  }

  lemma FinishKeepsRequest(st: SafState, cfg: SafConfig, cyc: int, inp: SafInputs)
    requires Requests(st, cfg) && Finish(st, cfg, cyc, inp).Fine?
    ensures Requests(Finish(st, cfg, cyc, inp).st, cfg)
  {
    SettledKeepsRequest(st, cfg, cyc, inp);
    CaptureKeepsRequest(AcceptCtrl(DeliverCtrl(CapTokens(st, cfg), cyc, inp.outCtrlAvail), cfg, cyc, inp.ctrl).st, cfg,
        inp.data);
  }

  /** A request that is not granted is made again in the next cycle, whatever arrives and whoever is ready. */
  lemma RequestPersists(st: SafState, cfg: SafConfig, cyc: int, inp: SafInputs, cyc': int, inp': SafInputs)
    requires Refills(cfg) && Requests(Gate(st, cfg, cyc, inp), cfg) && !inp.granted
    requires Cycle(st, cfg, cyc, inp).Fine?
    ensures Requests(Gate(Cycle(st, cfg, cyc, inp).st, cfg, cyc', inp'), cfg)
  {
    FinishKeepsRequest(Gate(st, cfg, cyc, inp), cfg, cyc, inp);
    GateRequest(Cycle(st, cfg, cyc, inp).st, cfg, cyc', inp');
  }

  /** One member link and the arbiter; in each cycle the other members ask as they please. */
  datatype Contest = Contest(st: SafState, arb: Arbiter)

  datatype Others = Others(inp: SafInputs, requests: set<int>)

  ghost predicate Asks(c: Contest, cfg: SafConfig, o: Others) {
    Requests(Gate(c.st, cfg, c.arb.cycle + 1, o.inp), cfg)
  }

  ghost predicate Wins(c: Contest, cfg: SafConfig, r: int, o: Others) {
    Granted(c.arb, r, c.arb.cycle + 1, Asks(c, cfg, o))
  }

  ghost function Turn(c: Contest, cfg: SafConfig, r: int, o: Others): Result {
    Cycle(c.st, cfg, c.arb.cycle + 1, o.inp.(granted := Wins(c, cfg, r, o)))
  }

  ghost function Advance(c: Contest, cfg: SafConfig, r: int, o: Others): Contest
    requires Turn(c, cfg, r, o).Fine?
  {
    Contest(Turn(c, cfg, r, o).st, GroupArbiter.Round(c.arb, o.requests + if Asks(c, cfg, o) then {r} else {}))
  }

  /** The link's request is with the arbiter, and it is still asking. */
  ghost predicate Waiting(c: Contest, cfg: SafConfig, r: int, o: Others) {
    r in c.arb.pending && Asks(c, cfg, o)
  }

  lemma StillWaiting(c: Contest, cfg: SafConfig, r: int, o: Others, o': Others)
    requires Refills(cfg) && Asks(c, cfg, o) && !Wins(c, cfg, r, o) && Turn(c, cfg, r, o).Fine?
    ensures Waiting(Advance(c, cfg, r, o), cfg, r, o')
  {
    var inp := o.inp.(granted := false);
    var cyc := c.arb.cycle + 1;
    assert o.inp.(granted := Wins(c, cfg, r, o)) == inp;
    GateIgnoresGrant(c.st, cfg, cyc, o.inp, false);
    AskedAgain(c, cfg, r, o, inp, Advance(c, cfg, r, o), o');
    Registered(c.arb, r, o.requests);
  }

  lemma AskedAgain(c: Contest, cfg: SafConfig, r: int, o: Others, inp: SafInputs, next: Contest, o': Others)
    requires Refills(cfg) && !inp.granted && Requests(Gate(c.st, cfg, c.arb.cycle + 1, inp), cfg)
    requires Cycle(c.st, cfg, c.arb.cycle + 1, inp) == Fine(next.st)
    ensures Asks(next, cfg, o')
  {
    RequestPersists(c.st, cfg, c.arb.cycle + 1, inp, next.arb.cycle + 1, o'.inp);
  }

  lemma GateIgnoresGrant(st: SafState, cfg: SafConfig, cyc: int, inp: SafInputs, granted: bool)
    ensures Gate(st, cfg, cyc, inp.(granted := granted)) == Gate(st, cfg, cyc, inp)
  {
  }

  lemma Registered(a: Arbiter, r: int, requests: set<int>)
    ensures r in GroupArbiter.Round(a, requests + {r}).pending
  {
  }

  /** The link runs through these cycles without an error and never wins. */
  ghost predicate Starved(c: Contest, cfg: SafConfig, r: int, others: seq<Others>)
    decreases |others|
  {
    others != [] ==>
      && !Wins(c, cfg, r, others[0])
      && Turn(c, cfg, r, others[0]).Fine?
      && Starved(Advance(c, cfg, r, others[0]), cfg, r, others[1..])
  }

  ghost predicate WithinGroup(members: set<int>, others: seq<Others>) {
    forall i :: 0 <= i < |others| ==> others[i].requests <= members
  }

  lemma {:induction false} NotStarved(members: set<int>, c: Contest, cfg: SafConfig, r: int, others: seq<Others>)
    requires Refills(cfg) && r in members && c.arb.pending <= members && WithinGroup(members, others)
    requires others != [] && Waiting(c, cfg, r, others[0])
    requires |others| > |Ahead(members, c.arb.lastWinner, r)|
    ensures !Starved(c, cfg, r, others)
    decreases |others|
  {
    if Starved(c, cfg, r, others) {
      var next := Advance(c, cfg, r, others[0]);
      RotationAdvances(members, c.arb.pending, c.arb.lastWinner, r);
      SubsetSize(Ahead(members, next.arb.lastWinner, r), Ahead(members, c.arb.lastWinner, r));
      StillWaiting(c, cfg, r, others[0], others[1]);
      assert WithinGroup(members, others[1..]);
      NotStarved(members, next, cfg, r, others[1..]);
    }
  }

  /**
   * A link of a group that starts asking in a cycle wins in that cycle or within as many further cycles as
   * the group has members, however the others ask, unless an error ends the simulation first.
   */
  lemma RequestIsServed(members: set<int>, c: Contest, cfg: SafConfig, r: int, others: seq<Others>)
    requires Refills(cfg) && r in members && c.arb.pending <= members && WithinGroup(members, others)
    requires |others| > |members| && Asks(c, cfg, others[0])
    ensures !Starved(c, cfg, r, others)
  {
    if Starved(c, cfg, r, others) {
      var next := Advance(c, cfg, r, others[0]);
      StillWaiting(c, cfg, r, others[0], others[1]);
      AheadSmaller(members, next.arb.lastWinner, r);
      assert WithinGroup(members, others[1..]);
      NotStarved(members, next, cfg, r, others[1..]);
    }
  }

  // ---- A whole group --------------------------------------------------------------------------

  /** All the links of one group and their arbiter. */
  datatype Ensemble = Ensemble(links: map<int, SafState>, arb: Arbiter)

  ghost predicate LinkAsks(e: Ensemble, cfg: SafConfig, ins: map<int, SafInputs>, i: int)
    requires i in e.links && i in ins
  {
    Requests(Gate(e.links[i], cfg, e.arb.cycle + 1, ins[i]), cfg)
  }

  ghost function Asking(e: Ensemble, cfg: SafConfig, ins: map<int, SafInputs>): set<int>
    requires ins.Keys == e.links.Keys
  {
    set i | i in e.links && LinkAsks(e, cfg, ins, i)
  }

  /** What link `i` reads: its wires, and the arbiter's own answer. */
  ghost function Reads(e: Ensemble, cfg: SafConfig, ins: map<int, SafInputs>, i: int): SafInputs
    requires i in e.links && i in ins
  {
    ins[i].(granted := Granted(e.arb, i, e.arb.cycle + 1, LinkAsks(e, cfg, ins, i)))
  }

  ghost function LinkCycle(e: Ensemble, cfg: SafConfig, ins: map<int, SafInputs>, i: int): Result
    requires i in e.links && i in ins
  {
    Cycle(e.links[i], cfg, e.arb.cycle + 1, Reads(e, cfg, ins, i))
  }

  /** No link of the group meets an error in this cycle. */
  ghost predicate AllFine(e: Ensemble, cfg: SafConfig, ins: map<int, SafInputs>) {
    ins.Keys == e.links.Keys && forall i :: i in e.links ==> LinkCycle(e, cfg, ins, i).Fine?
  }

  ghost function GroupCycle(e: Ensemble, cfg: SafConfig, ins: map<int, SafInputs>): Ensemble
    requires AllFine(e, cfg, ins)
  {
    Ensemble(map i | i in e.links :: LinkCycle(e, cfg, ins, i).st, GroupArbiter.Round(e.arb, Asking(e, cfg, ins)))
  }

  /** The packet link `i` sends into its physical link in this cycle, if any. */
  ghost function Sends(e: Ensemble, cfg: SafConfig, ins: map<int, SafInputs>, i: int): Option<Packet>
    requires i in e.links && i in ins
  {
    var inp := Reads(e, cfg, ins, i);
    Departing(Gate(e.links[i], cfg, e.arb.cycle + 1, inp), cfg, inp.granted)
  }

  /** The group runs through these cycles, no link meeting an error, and link `r` never sends a packet. */
  ghost predicate Silent(e: Ensemble, cfg: SafConfig, r: int, run: seq<map<int, SafInputs>>)
    requires r in e.links
    decreases |run|
  {
    run != [] ==>
      AllFine(e, cfg, run[0]) && Sends(e, cfg, run[0], r).None?
      && Silent(GroupCycle(e, cfg, run[0]), cfg, r, run[1..])
  }

  /** The calls of a cycle: each link of the group once or more, with its request. */
  ghost predicate CallsOf(e: Ensemble, cfg: SafConfig, ins: map<int, SafInputs>, calls: seq<(int, bool)>)
    requires ins.Keys == e.links.Keys
  {
    && (forall k :: 0 <= k < |calls| ==> calls[k].0 in e.links && (calls[k].1 <==> LinkAsks(e, cfg, ins, calls[k].0)))
    && (forall i :: i in Asking(e, cfg, ins) ==> (i, true) in calls)
  }

  lemma AskersRequest(e: Ensemble, cfg: SafConfig, ins: map<int, SafInputs>, calls: seq<(int, bool)>)
    requires ins.Keys == e.links.Keys && CallsOf(e, cfg, ins, calls)
    ensures Requesters(calls) == Asking(e, cfg, ins)
  {
    forall i | i in Requesters(calls)
      ensures i in Asking(e, cfg, ins)
    {
      var k :| 0 <= k < |calls| && calls[k].1 && calls[k].0 == i;
      assert LinkAsks(e, cfg, ins, calls[k].0);
    }
    forall i | i in Asking(e, cfg, ins)
      ensures i in Requesters(calls)
    {
      assert (i, true) in calls;
    }
  }

  /** The group's round is what its links' calls to the arbiter come to, in any order. */
  lemma GroupCycleIsCalls(e: Ensemble, cfg: SafConfig, ins: map<int, SafInputs>, calls: seq<(int, bool)>)
    requires AllFine(e, cfg, ins) && calls != [] && CallsOf(e, cfg, ins, calls)
    ensures GroupCycle(e, cfg, ins).arb == Calls(e.arb, e.arb.cycle + 1, calls)
  {
    AskersRequest(e, cfg, ins, calls);
    RoundIsCalls(e.arb, calls);
  }

  /** And what each link reads is the answer to its call. */
  lemma GroupReadsAnswers(e: Ensemble, cfg: SafConfig, ins: map<int, SafInputs>, calls: seq<(int, bool)>, k: nat)
    requires ins.Keys == e.links.Keys && CallsOf(e, cfg, ins, calls) && k < |calls|
    ensures calls[k].0 in e.links
    ensures Reads(e, cfg, ins, calls[k].0).granted <==> Answered(e.arb, e.arb.cycle + 1, calls, k)
  {
    CycleAnswer(e.arb, e.arb.cycle + 1, calls, k);
    assert calls[k].1 <==> LinkAsks(e, cfg, ins, calls[k].0);
  }

  /** Seen from one link, the rest of the group is some other requests. */
  ghost function Rest(e: Ensemble, cfg: SafConfig, r: int, run: seq<map<int, SafInputs>>): (others: seq<Others>)
    requires r in e.links && Silent(e, cfg, r, run)
    ensures |others| == |run|
    decreases |run|
  {
    if run == [] then []
    else [Others(run[0][r], Asking(e, cfg, run[0]) - {r})] + Rest(GroupCycle(e, cfg, run[0]), cfg, r, run[1..])
  }

  /** A granted request sends a packet, or stops the simulation. */
  lemma GrantSends(e: Ensemble, cfg: SafConfig, ins: map<int, SafInputs>, r: int)
    requires r in e.links && AllFine(e, cfg, ins) && Granted(e.arb, r, e.arb.cycle + 1, LinkAsks(e, cfg, ins, r))
    ensures Sends(e, cfg, ins, r).Some?
  {
    var inp := Reads(e, cfg, ins, r);
    GateIgnoresGrant(e.links[r], cfg, e.arb.cycle + 1, ins[r], inp.granted);
    assert LinkCycle(e, cfg, ins, r).Fine?;
    assert Depart(Gate(e.links[r], cfg, e.arb.cycle + 1, inp), cfg, e.arb.cycle + 1, true).Fine?;
  }

  lemma SilentTurn(e: Ensemble, cfg: SafConfig, r: int, ins: map<int, SafInputs>)
    requires r in e.links && AllFine(e, cfg, ins) && Sends(e, cfg, ins, r).None?
    ensures var c, o := Contest(e.links[r], e.arb), Others(ins[r], Asking(e, cfg, ins) - {r});
            && Asks(c, cfg, o) == LinkAsks(e, cfg, ins, r) && !Wins(c, cfg, r, o) && Turn(c, cfg, r, o).Fine?
            && Advance(c, cfg, r, o) == Contest(GroupCycle(e, cfg, ins).links[r], GroupCycle(e, cfg, ins).arb)
  {
    var c, o := Contest(e.links[r], e.arb), Others(ins[r], Asking(e, cfg, ins) - {r});
    if Wins(c, cfg, r, o) {
      GrantSends(e, cfg, ins, r);
    }
    assert LinkCycle(e, cfg, ins, r).Fine? && Turn(c, cfg, r, o) == LinkCycle(e, cfg, ins, r);
    assert o.requests + (if Asks(c, cfg, o) then {r} else {}) == Asking(e, cfg, ins);
  }

  lemma {:induction false} SilentIsStarved(e: Ensemble, cfg: SafConfig, r: int, run: seq<map<int, SafInputs>>)
    requires r in e.links && Silent(e, cfg, r, run)
    ensures Starved(Contest(e.links[r], e.arb), cfg, r, Rest(e, cfg, r, run))
    decreases |run|
  {
    if run != [] {
      SilentTurn(e, cfg, r, run[0]);
      SilentIsStarved(GroupCycle(e, cfg, run[0]), cfg, r, run[1..]);
      assert Rest(e, cfg, r, run)[1..] == Rest(GroupCycle(e, cfg, run[0]), cfg, r, run[1..]);
    }
  }

  lemma {:induction false} RestWithinGroup(e: Ensemble, cfg: SafConfig, r: int, run: seq<map<int, SafInputs>>, i: nat)
    requires r in e.links && Silent(e, cfg, r, run) && i < |run|
    ensures Rest(e, cfg, r, run)[i].requests <= e.links.Keys
    decreases |run|
  {
    if i > 0 {
      RestWithinGroup(GroupCycle(e, cfg, run[0]), cfg, r, run[1..], i - 1);
      assert GroupCycle(e, cfg, run[0]).links.Keys == e.links.Keys;
    }
  }

  /**
   * With the arbiter's own answers on the wires, a link that asks sends a packet in that cycle or within as
   * many further cycles as its group has links, whatever all of them receive meanwhile.
   */
  lemma AskingLinkSends(e: Ensemble, cfg: SafConfig, r: int, run: seq<map<int, SafInputs>>)
    requires Refills(cfg) && r in e.links && e.arb.pending <= e.links.Keys
    requires |run| > |e.links.Keys| && run[0].Keys == e.links.Keys && LinkAsks(e, cfg, run[0], r)
    ensures !Silent(e, cfg, r, run)
  {
    if Silent(e, cfg, r, run) {
      SilentTurn(e, cfg, r, run[0]);
      SilentIsStarved(e, cfg, r, run);
      forall i: nat | i < |run|
        ensures Rest(e, cfg, r, run)[i].requests <= e.links.Keys
      {
        RestWithinGroup(e, cfg, r, run, i);
      }
      RequestIsServed(e.links.Keys, Contest(e.links[r], e.arb), cfg, r, Rest(e, cfg, r, run));
    }
  }
}
