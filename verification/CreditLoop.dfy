/**
 * The bounded link closed by its credit-counting sender. Every signal is one register: in cycle k the
 * link reads what the sender wrote in cycle k-1, and the sender reads the link's cycle k-1 pulse.
 */
module CreditLoop {
  import opened Rates
  import opened BoundedLink
  import TokenBucket

  /** A sub-channel, its sender's credits and wire register, and the history: packets sent, packets out and when. */
  datatype Side<P> = Side(ch: Channel<P>, credit: int, wire: Option<P>, sent: seq<P>, out: seq<P>, at: seq<int>)

  datatype Loop<P> = Loop(tokens: int, data: Side<P>, ctrl: Side<P>)

  /** Everything outside the loop in one cycle: what the senders have to offer and who else is ready. */
  datatype Env<P> = Env(data: Option<P>, ctrl: Option<P>, outAvail: bool, outCtrlAvail: bool, arbiter: bool)

  /** The sender counts last cycle's pulse, and sends what it is offered only while it holds a credit. */
  function Send<P>(side: Side<P>, pulse: bool, offer: Option<P>): Side<P> {
    var credit := side.credit + if pulse then 1 else 0;
    if offer.Some? && credit > 0
    then side.(credit := credit - 1, wire := offer, sent := side.sent + [offer.value])
    else side.(credit := credit, wire := None)
  }

  function Start<P>(depth: int, offer: Option<P>): Side<P> {
    Send(Side(Empty(), depth, None, [], [], []), false, offer)
  }

  function SideStep<P>(side: Side<P>, cyc: int, ch: Channel<P>, got: Option<P>, offer: Option<P>): Side<P> {
    var moved :=
      if got.Some? then side.(ch := ch, out := side.out + [got.value], at := side.at + [cyc]) else side.(ch := ch);
    Send(moved, side.ch.pulse, offer)
  }

  function LinkState<P>(loop: Loop<P>): State<P> {
    State(loop.tokens, loop.data.ch, loop.ctrl.ch)
  }

  function LinkInputs<P>(loop: Loop<P>, e: Env<P>): Inputs<P> {
    Inputs(loop.data.wire, loop.ctrl.wire, e.outAvail, e.outCtrlAvail, e.arbiter)
  }

  function Step<P>(loop: Loop<P>, cfg: Config, cyc: int, e: Env<P>): Loop<P> {
    var inp := LinkInputs(loop, e);
    var s := Next(LinkState(loop), cfg, cyc, inp);
    var o := Outs(LinkState(loop), cfg, cyc, inp);
    Loop(s.tokens,
         SideStep(loop.data, cyc, s.data, o.data, e.data),
         SideStep(loop.ctrl, cyc, s.ctrl, o.ctrl, e.ctrl))
  }

  /** The loop after `|envs|` cycles; `first` is what the senders were offered in cycle 0. */
  function Run<P>(cfg: Config, first: (Option<P>, Option<P>), envs: seq<Env<P>>): Loop<P>
  {
    if envs == [] then Loop(0, Start(cfg.dataDepth, first.0), Start(cfg.ctrlDepth, first.1))
    else
      var n := |envs| - 1;
      Step(Run(cfg, first, envs[..n]), cfg, n + 1, envs[n])
  }

  /** The data side of one loop cycle, as a channel step under the grant the link computes. */
  lemma DataStep<P>(loop: Loop<P>, cfg: Config, cyc: int, e: Env<P>)
    ensures var grant := DataGrant(loop.tokens, cfg.rate, LinkInputs(loop, e));
            Step(loop, cfg, cyc, e).data
            == SideStep(loop.data, cyc,
                ChannelStep(loop.data.ch, cyc, cfg.latency, cfg.dataDepth, grant, loop.data.wire),
                        Delivered(loop.data.ch, cyc, grant), e.data)
  {
  }

  function Payloads<P>(s: seq<(int, P)>): (r: seq<P>)
    ensures |r| == |s|
  {
    seq(|s|, i requires 0 <= i < |s| => s[i].1)
  }

  function OnWire<P>(w: Option<P>): seq<P> {
    if w.Some? then [w.value] else []
  }

  /** Credits are neither minted nor lost: each of the `depth` slots is in exactly one place. */
  predicate Conserved<P>(side: Side<P>, depth: int) {
    && side.credit >= 0
    && side.ch.blocked == 0
    && side.credit + |OnWire(side.wire)| + |side.ch.fifo| + |side.ch.due| + (if side.ch.pulse then 1 else 0) == depth
  }

  /** What was sent is what came out, then what the FIFO holds, then the wire: no loss, copy or reordering. */
  ghost predicate InOrder<P>(side: Side<P>) {
    side.sent == side.out + Payloads(side.ch.fifo) + OnWire(side.wire)
  }

  ghost predicate Increasing(s: seq<int>) {
    forall i, j :: 0 <= i < j < |s| ==> s[i] < s[j]
  }

  function Later(s: seq<int>, delay: int): (r: seq<int>)
    ensures |r| == |s|
  {
    seq(|s|, i requires 0 <= i < |s| => s[i] + delay)
  }

  /**
   * Of the delivery times, those at least one service latency old have had their credit pulsed, the
   * rest are queued in order, and a pulse is driven exactly one service latency after its delivery.
   */
  predicate Timed(times: seq<int>, due: seq<int>, pulse: bool, latency: nat, t: int) {
    var r := |times| - |due|;
    && 0 <= r
    && due == Later(times[r..], latency)
    && (r > 0 ==> times[r - 1] + ServiceLatency(latency) <= t)
    && (r < |times| ==> times[r] + ServiceLatency(latency) > t)
    && (pulse <==> r > 0 && times[r - 1] + ServiceLatency(latency) == t)
  }

  ghost predicate History<P>(side: Side<P>, t: int) {
    |side.at| == |side.out| && Increasing(side.at) && (side.at != [] ==> side.at[|side.at| - 1] <= t)
  }

  predicate TimedSide<P>(side: Side<P>, latency: nat, t: int) {
    Timed(side.at, side.ch.due, side.ch.pulse, latency, t)
  }

  lemma PayloadsTail<P>(s: seq<(int, P)>)
    requires s != []
    ensures Payloads(s) == [s[0].1] + Payloads(s[1..])
  {
  }

  lemma PayloadsSnoc<P>(s: seq<(int, P)>, x: (int, P))
    ensures Payloads(s + [x]) == Payloads(s) + [x.1]
  {
  }

  lemma StepConserves<P>(side: Side<P>, cyc: int, latency: nat, depth: int, grant: bool, offer: Option<P>)
    requires Conserved(side, depth)
    ensures Conserved(SideStep(side, cyc, ChannelStep(side.ch, cyc, latency, depth, grant, side.wire),
                               Delivered(side.ch, cyc, grant), offer), depth)
  {
  }

  /** The packets in transit after a delivery and an acceptance are those before, moved along. */
  lemma OrderNext<P>(sent: seq<P>, out: seq<P>, fifo: seq<(int, P)>, wire: Option<P>, got: Option<P>, stamp: int)
    requires sent == out + Payloads(fifo) + OnWire(wire)
    requires got.Some? ==> fifo != [] && got.value == fifo[0].1
    ensures var left := if got.Some? then fifo[1..] else fifo;
            var queue := if wire.Some? then left + [(stamp, wire.value)] else left;
            sent == (if got.Some? then out + [got.value] else out) + Payloads(queue)
  {
    var left := if got.Some? then fifo[1..] else fifo;
    if got.Some? {
      PayloadsTail(fifo);
      assert out + Payloads(fifo) == out + [got.value] + Payloads(left);
    }
    if wire.Some? {
      PayloadsSnoc(left, (stamp, wire.value));
    }
  }

  /** One cycle of a side: its history grows by what came out and by what is now on the wire. */
  lemma StepParts<P>(side: Side<P>, cyc: int, ch: Channel<P>, got: Option<P>, offer: Option<P>, side': Side<P>)
    requires side' == SideStep(side, cyc, ch, got, offer)
    ensures side'.ch == ch && side'.sent == side.sent + OnWire(side'.wire)
    ensures side'.out == if got.Some? then side.out + [got.value] else side.out
    ensures side'.at == if got.Some? then side.at + [cyc] else side.at
    ensures side'.wire == if side.credit + (if side.ch.pulse then 1 else 0) > 0 then offer else None
    ensures side'.credit == side.credit + (if side.ch.pulse then 1 else 0) - |OnWire(side'.wire)|
  {
    if side'.wire == None {
      assert side'.sent == side.sent + [];
    }
  }

  lemma StepKeepsOrder<P>(side: Side<P>, cyc: int, latency: nat, depth: int, grant: bool, offer: Option<P>,
          side': Side<P>)
    requires Conserved(side, depth) && InOrder(side)
    requires side' == SideStep(side, cyc, ChannelStep(side.ch, cyc, latency, depth, grant, side.wire),
                               Delivered(side.ch, cyc, grant), offer)
    ensures InOrder(side')
  {
    var got := Delivered(side.ch, cyc, grant);
    OrderNext(side.sent, side.out, side.ch.fifo, side.wire, got, cyc + latency);
    StepParts(side, cyc, ChannelStep(side.ch, cyc, latency, depth, grant, side.wire), got, offer, side');
    QueueNext(side.ch, cyc, latency, depth, grant, side.wire);
  }

  lemma PulseOnTime(times: seq<int>, due: seq<int>, pulse: bool, latency: nat, t: int)
    requires Timed(times, due, pulse, latency, t)
    requires |due| > 0 ==> times[|times| - |due|] <= t
    requires |due| > 1 ==> times[|times| - |due|] < times[|times| - |due| + 1]
    ensures CreditDue(due, t + 1) ==> Timed(times, due[1..], true, latency, t + 1)
    ensures !CreditDue(due, t + 1) ==> Timed(times, due, false, latency, t + 1)
  {
    var r := |times| - |due|;
    if due != [] {
      assert due[0] == times[r] + latency;
      assert times[r..][1..] == times[r + 1..];
      assert due[1..] == Later(times[r + 1..], latency);
    }
  }

  lemma DeliveryOnTime(times: seq<int>, due: seq<int>, pulse: bool, latency: nat, t: int)
    requires Timed(times, due, pulse, latency, t)
    ensures Timed(times + [t], due + [t + latency], pulse, latency, t)
  {
    var r := |times| - |due|;
    assert (times + [t])[r..] == times[r..] + [t];
    assert due + [t + latency] == Later(times[r..] + [t], latency);
  }

  /** Delivery and acceptance leave the pulse alone and queue at most the one new credit. */
  lemma CreditsNext<P>(ch: Channel<P>, cyc: int, latency: nat, depth: int, grant: bool, arrival: Option<P>)
    ensures var ch' := ChannelStep(ch, cyc, latency, depth, grant, arrival);
            var left := if CreditDue(ch.due, cyc) then ch.due[1..] else ch.due;
            && ch'.pulse == CreditDue(ch.due, cyc)
            && ch'.due == if Delivered(ch, cyc, grant).Some? then left + [cyc + latency] else left
  {
  }

  /** The queue loses a delivered head and gains an arrival that finds room. */
  lemma QueueNext<P>(ch: Channel<P>, cyc: int, latency: nat, depth: int, grant: bool, arrival: Option<P>)
    requires arrival.Some? ==> |ch.fifo| < depth
    ensures var left := if Delivered(ch, cyc, grant).Some? then ch.fifo[1..] else ch.fifo;
            ChannelStep(ch, cyc, latency, depth, grant, arrival).fifo
            == if arrival.Some? then left + [(cyc + latency, arrival.value)] else left
  {
  }

  /** One cycle of the credit queue: the oldest credit if due goes out, a delivery's credit comes in. */
  lemma TimingNext(times: seq<int>, due: seq<int>, pulse: bool, latency: nat, t: int, got: bool, times': seq<int>,
          due': seq<int>)
    requires Timed(times, due, pulse, latency, t)
    requires |due| > 0 ==> times[|times| - |due|] <= t
    requires |due| > 1 ==> times[|times| - |due|] < times[|times| - |due| + 1]
    requires var left := if CreditDue(due, t + 1) then due[1..] else due;
             && times' == (if got then times + [t + 1] else times)
             && due' == (if got then left + [t + 1 + latency] else left)
    ensures Timed(times', due', CreditDue(due, t + 1), latency, t + 1)
  {
    PulseOnTime(times, due, pulse, latency, t);
    if got {
      DeliveryOnTime(times, if CreditDue(due, t + 1) then due[1..] else due, CreditDue(due, t + 1), latency, t + 1);
    }
  }

  lemma StepKeepsTiming<P>(side: Side<P>, t: int, latency: nat, depth: int, grant: bool, offer: Option<P>,
          side': Side<P>)
    requires Timed(side.at, side.ch.due, side.ch.pulse, latency, t)
    requires |side.ch.due| > 0 ==> side.at[|side.at| - |side.ch.due|] <= t
    requires |side.ch.due| > 1 ==> side.at[|side.at| - |side.ch.due|] < side.at[|side.at| - |side.ch.due| + 1]
    requires side' == SideStep(side, t + 1, ChannelStep(side.ch, t + 1, latency, depth, grant, side.wire),
                               Delivered(side.ch, t + 1, grant), offer)
    ensures Timed(side'.at, side'.ch.due, side'.ch.pulse, latency, t + 1)
  {
    StepParts(side, t + 1, ChannelStep(side.ch, t + 1, latency, depth, grant, side.wire),
              Delivered(side.ch, t + 1, grant), offer, side');
    CreditsNext(side.ch, t + 1, latency, depth, grant, side.wire);
    TimingNext(side.at, side.ch.due, side.ch.pulse, latency, t, Delivered(side.ch, t + 1, grant).Some?, side'.at,
        side'.ch.due);
  }

  lemma StepKeepsHistory<P>(side: Side<P>, t: int, ch: Channel<P>, got: Option<P>, offer: Option<P>)
    requires History(side, t)
    ensures History(SideStep(side, t + 1, ch, got, offer), t + 1)
  {
  }

  /** The two oldest unreturned deliveries are in the past, in order. */
  lemma QueueInPast<P>(side: Side<P>, t: int)
    requires History(side, t) && |side.ch.due| <= |side.at|
    ensures |side.ch.due| > 0 ==> side.at[|side.at| - |side.ch.due|] <= t
    ensures |side.ch.due| > 1 ==> side.at[|side.at| - |side.ch.due|] < side.at[|side.at| - |side.ch.due| + 1]
  {
  }

  /** On every run, for any demand, any downstream and any arbiter, both sub-channels keep the credit law. */
  lemma {:induction false} RunConserves<P>(cfg: Config, first: (Option<P>, Option<P>), envs: seq<Env<P>>)
    requires cfg.Valid()
    ensures var loop := Run(cfg, first, envs);
            && Conserved(loop.data, cfg.dataDepth) && InOrder(loop.data)
            && Conserved(loop.ctrl, cfg.ctrlDepth) && InOrder(loop.ctrl)
  {
    if envs != [] {
      var n := |envs| - 1;
      var loop, loop' := Run(cfg, first, envs[..n]), Run(cfg, first, envs);
      RunConserves(cfg, first, envs[..n]);
      var grant := DataGrant(loop.tokens, cfg.rate, LinkInputs(loop, envs[n]));
      StepConserves(loop.data, n + 1, cfg.latency, cfg.dataDepth, grant, envs[n].data);
      StepKeepsOrder(loop.data, n + 1, cfg.latency, cfg.dataDepth, grant, envs[n].data, loop'.data);
      StepConserves(loop.ctrl, n + 1, cfg.latency, cfg.ctrlDepth, envs[n].outCtrlAvail, envs[n].ctrl);
      StepKeepsOrder(loop.ctrl, n + 1, cfg.latency, cfg.ctrlDepth, envs[n].outCtrlAvail, envs[n].ctrl, loop'.ctrl);
    }
  }

  lemma {:induction false} RunHistory<P>(cfg: Config, first: (Option<P>, Option<P>), envs: seq<Env<P>>)
    ensures var loop := Run(cfg, first, envs); History(loop.data, |envs|) && History(loop.ctrl, |envs|)
  {
    if envs != [] {
      var n := |envs| - 1;
      var loop := Run(cfg, first, envs[..n]);
      RunHistory(cfg, first, envs[..n]);
      var s := Next(LinkState(loop), cfg, n + 1, LinkInputs(loop, envs[n]));
      var o := Outs(LinkState(loop), cfg, n + 1, LinkInputs(loop, envs[n]));
      StepKeepsHistory(loop.data, n, s.data, o.data, envs[n].data);
      StepKeepsHistory(loop.ctrl, n, s.ctrl, o.ctrl, envs[n].ctrl);
    }
  }

  lemma {:induction false} RunTimed<P>(cfg: Config, first: (Option<P>, Option<P>), envs: seq<Env<P>>)
    ensures var loop := Run(cfg, first, envs);
            TimedSide(loop.data, cfg.latency, |envs|) && TimedSide(loop.ctrl, cfg.latency, |envs|)
  {
    if envs != [] {
      var n := |envs| - 1;
      var loop, loop' := Run(cfg, first, envs[..n]), Run(cfg, first, envs);
      RunTimed(cfg, first, envs[..n]);
      RunHistory(cfg, first, envs[..n]);
      QueueInPast(loop.data, n);
      QueueInPast(loop.ctrl, n);
      StepKeepsTiming(loop.data, n, cfg.latency, cfg.dataDepth,
          DataGrant(loop.tokens, cfg.rate, LinkInputs(loop, envs[n])),
                      envs[n].data, loop'.data);
      StepKeepsTiming(loop.ctrl, n, cfg.latency, cfg.ctrlDepth, envs[n].outCtrlAvail, envs[n].ctrl, loop'.ctrl);
    }
  }

  /**
   * A credit pulse is driven exactly `max(latency, 1)` cycles after a delivery, and only then, so the
   * sender regains each slot once and on time.
   */
  lemma PulseIffDelivered<P>(cfg: Config, first: (Option<P>, Option<P>), envs: seq<Env<P>>)
    ensures var loop := Run(cfg, first, envs);
            && (loop.data.ch.pulse <==> |envs| - ServiceLatency(cfg.latency) in loop.data.at)
            && (loop.ctrl.ch.pulse <==> |envs| - ServiceLatency(cfg.latency) in loop.ctrl.at)
  {
    RunTimed(cfg, first, envs);
    RunHistory(cfg, first, envs);
    PulsesIffMembers(Run(cfg, first, envs), cfg.latency, |envs|);
  }

  lemma PulsesIffMembers<P>(loop: Loop<P>, latency: nat, t: int)
    requires History(loop.data, t) && TimedSide(loop.data, latency, t)
    requires History(loop.ctrl, t) && TimedSide(loop.ctrl, latency, t)
    ensures loop.data.ch.pulse <==> t - ServiceLatency(latency) in loop.data.at
    ensures loop.ctrl.ch.pulse <==> t - ServiceLatency(latency) in loop.ctrl.at
  {
    PulseIffMember(loop.data, latency, t);
    PulseIffMember(loop.ctrl, latency, t);
  }

  lemma PulseIffMember<P>(side: Side<P>, latency: nat, t: int)
    requires History(side, t) && TimedSide(side, latency, t)
    ensures side.ch.pulse <==> t - ServiceLatency(latency) in side.at
  {
    var r := |side.at| - |side.ch.due|;
    forall k | r <= k < |side.at|
      ensures side.at[r] <= side.at[k]
    {
    }
    forall k | 0 <= k < r
      ensures side.at[k] <= side.at[r - 1]
    {
    }
  }

  /** Whether the data head was ready in every respect but tokens, for each cycle after the first `m`. */
  function Demand<P>(cfg: Config, first: (Option<P>, Option<P>), envs: seq<Env<P>>, m: nat): (w: seq<bool>)
    ensures |envs| >= m ==> |w| == |envs| - m
  {
    if |envs| <= m then []
    else
      var n := |envs| - 1;
      var loop := Run(cfg, first, envs[..n]);
      Demand(cfg, first, envs[..n], m) + [Wants(LinkState(loop), n + 1, LinkInputs(loop, envs[n]))]
  }

  /** The link's deliveries in a run are the token bucket's, driven by that demand. */
  lemma {:induction false} DeliveriesAreBucket<P>(cfg: Config, first: (Option<P>, Option<P>), envs: seq<Env<P>>, m: nat)
    requires m <= |envs|
    ensures var start, loop := Run(cfg, first, envs[..m]), Run(cfg, first, envs);
            var demand := Demand(cfg, first, envs, m);
            && loop.tokens == TokenBucket.After(start.tokens, cfg.rate, demand)
            && |loop.data.at| == |start.data.at| + TokenBucket.Sent(start.tokens, cfg.rate, demand)
  {
    if |envs| == m {
      assert envs[..m] == envs;
    } else {
      var n := |envs| - 1;
      assert envs[..n][..m] == envs[..m];
      DeliveriesAreBucket(cfg, first, envs[..n], m);
      var loop := Run(cfg, first, envs[..n]);
      StepIsTick(loop, cfg, n + 1, envs[n]);
      TokenBucket.Snoc(Run(cfg, first, envs[..m]).tokens, cfg.rate, Demand(cfg, first, envs[..n], m),
                       Wants(LinkState(loop), n + 1, LinkInputs(loop, envs[n])));
    }
  }

  lemma StepIsTick<P>(loop: Loop<P>, cfg: Config, cyc: int, e: Env<P>)
    ensures var (tokens, sent) := TokenBucket.Tick(loop.tokens, cfg.rate,
              Wants(LinkState(loop), cyc, LinkInputs(loop, e)));
            var loop' := Step(loop, cfg, cyc, e);
            loop'.tokens == tokens && |loop'.data.at| == |loop.data.at| + if sent then 1 else 0
  {
  }

  /** No window of a run, under any demand, delivers more than one packet above its rate. */
  lemma RunRateBound<P>(cfg: Config, first: (Option<P>, Option<P>), envs: seq<Env<P>>, m: nat)
    requires cfg.Valid() && m <= |envs|
    ensures (|Run(cfg, first, envs).data.at| - |Run(cfg, first, envs[..m]).data.at|) * cfg.rate.den
            <= cfg.rate.den + (|envs| - m) * cfg.rate.num
  {
    assert envs[..m][..0] == [];
    DeliveriesAreBucket(cfg, first, envs[..m], 0);
    TokenBucket.TokensBounded(0, cfg.rate, Demand(cfg, first, envs[..m], 0));
    DeliveriesAreBucket(cfg, first, envs, m);
    TokenBucket.WindowBound(Run(cfg, first, envs[..m]).tokens, cfg.rate, Demand(cfg, first, envs, m));
  }
}
