/**
 * When the bounded link lets a packet go, told from its history alone: who was ready, when each packet was sent,
 * and how many have left. Together with the order of the packets this fixes everything the link does.
 */
module LinkTiming {
  import opened Basics
  import opened Rates
  import opened BoundedLink
  import opened CreditLoop
  import TokenBucket

  // ---- Histories ------------------------------------------------------------------------------

  /** Packets sent into, and come out of, a channel in the first `n` cycles. */
  function DataSent<P>(cfg: Config, first: (Option<P>, Option<P>), envs: seq<Env<P>>, n: nat): nat
    requires n <= |envs|
  {
    |Run(cfg, first, envs[..n]).data.sent|
  }

  function DataOut<P>(cfg: Config, first: (Option<P>, Option<P>), envs: seq<Env<P>>, n: nat): nat
    requires n <= |envs|
  {
    |Run(cfg, first, envs[..n]).data.out|
  }

  function CtrlSent<P>(cfg: Config, first: (Option<P>, Option<P>), envs: seq<Env<P>>, n: nat): nat
    requires n <= |envs|
  {
    |Run(cfg, first, envs[..n]).ctrl.sent|
  }

  function CtrlOut<P>(cfg: Config, first: (Option<P>, Option<P>), envs: seq<Env<P>>, n: nat): nat
    requires n <= |envs|
  {
    |Run(cfg, first, envs[..n]).ctrl.out|
  }

  /** All the loop's states, from reset on. */
  ghost predicate StepAt<P>(cfg: Config, envs: seq<Env<P>>, h: seq<Loop<P>>, m: nat)
    requires m < |envs| && m + 1 < |h|
  {
    h[m + 1] == Step(h[m], cfg, m + 1, envs[m])
  }

  ghost predicate History<P>(cfg: Config, first: (Option<P>, Option<P>), envs: seq<Env<P>>, h: seq<Loop<P>>) {
    && |h| == |envs| + 1
    && h[0] == Run(cfg, first, [])
    && forall m :: 0 <= m < |envs| ==> StepAt(cfg, envs, h, m)
  }

  function States<P>(cfg: Config, first: (Option<P>, Option<P>), envs: seq<Env<P>>): (h: seq<Loop<P>>)
    ensures |h| == |envs| + 1
  {
    seq(|envs| + 1, m requires 0 <= m <= |envs| => Run(cfg, first, envs[..m]))
  }

  lemma StatesHistory<P>(cfg: Config, first: (Option<P>, Option<P>), envs: seq<Env<P>>)
    ensures History(cfg, first, envs, States(cfg, first, envs))
  {
    forall m | 0 <= m < |envs|
      ensures StepAt(cfg, envs, States(cfg, first, envs), m)
    {
      RunNext(cfg, first, envs, m);
    }
  }

  lemma RunNext<P>(cfg: Config, first: (Option<P>, Option<P>), envs: seq<Env<P>>, m: nat)
    requires m < |envs|
    ensures Run(cfg, first, envs[..m + 1]) == Step(Run(cfg, first, envs[..m]), cfg, m + 1, envs[m])
  {
    assert envs[..m + 1][..m] == envs[..m];
  }

  // ---- What a channel holds, and since when ---------------------------------------------------

  /** `counts[m]` packets had been sent by cycle `m`: a queued packet matures `latency + 1` cycles after its own. */
  predicate Stamped<P>(side: Side<P>, counts: seq<int>, latency: int) {
    && |side.sent| == |side.out| + |side.ch.fifo| + |OnWire(side.wire)|
    && QueueStamped(side.ch.fifo, |side.out|, counts, latency)
  }

  predicate QueueStamped<P>(fifo: seq<(int, P)>, out: nat, counts: seq<int>, latency: int) {
    && (forall m :: 0 <= m < |counts| ==> counts[m] <= out + |fifo|)
    && (counts != [] ==> counts[|counts| - 1] == out + |fifo|)
    && (counts == [] ==> fifo == [])
    && (forall i :: 0 <= i < |fifo| ==> fifo[i].0 > latency)
    && (forall i, m :: 0 <= i < |fifo| && 0 <= m < |counts| ==>
          (fifo[i].0 <= m + 1 + latency <==> counts[m] > out + i))
  }

  lemma QueueStampedNext<P>(fifo: seq<(int, P)>, out: nat, counts: seq<int>, latency: nat, pop: bool,
          arrival: Option<P>, fifo': seq<(int, P)>, out': nat, total: int)
    requires QueueStamped(fifo, out, counts, latency) && (pop ==> fifo != [])
    requires var left := if pop then fifo[1..] else fifo;
             fifo' == if arrival.Some? then left + [(|counts| + 1 + latency, arrival.value)] else left
    requires out' == (out + if pop then 1 else 0) && total == out + |fifo| + |OnWire(arrival)|
    ensures QueueStamped(fifo', out', counts + [total], latency)
  {
  }

  /** What a cycle does to one side, in terms of its queue and history. */
  lemma SideMoves<P>(side: Side<P>, cyc: int, latency: nat, depth: int, grant: bool, offer: Option<P>, side': Side<P>)
    requires Conserved(side, depth)
    requires side' == SideStep(side, cyc, ChannelStep(side.ch, cyc, latency, depth, grant, side.wire),
                               Delivered(side.ch, cyc, grant), offer)
    ensures QueueMoves(side, cyc + latency, Delivered(side.ch, cyc, grant).Some?, side')
  {
    var got := Delivered(side.ch, cyc, grant);
    StepParts(side, cyc, ChannelStep(side.ch, cyc, latency, depth, grant, side.wire), got, offer, side');
    QueueNext(side.ch, cyc, latency, depth, grant, side.wire);
  }

  ghost predicate QueueMoves<P>(side: Side<P>, stamp: int, pop: bool, side': Side<P>) {
    && (pop ==> side.ch.fifo != [])
    && |side'.out| == |side.out| + (if pop then 1 else 0)
    && |side'.sent| == |side.sent| + |OnWire(side'.wire)|
    && var left := if pop then side.ch.fifo[1..] else side.ch.fifo;
       side'.ch.fifo == if side.wire.Some? then left + [(stamp, side.wire.value)] else left
  }

  lemma StampedNext<P>(side: Side<P>, counts: seq<int>, latency: nat, pop: bool, side': Side<P>)
    requires Stamped(side, counts, latency) && QueueMoves(side, |counts| + 1 + latency, pop, side')
    ensures Stamped(side', counts + [|side.sent|], latency)
  {
    QueueStampedNext(side.ch.fifo, |side.out|, counts, latency, pop, side.wire, side'.ch.fifo, |side'.out|,
                     |side.sent|);
  }

  lemma HeadDue<P>(side: Side<P>, counts: seq<int>, latency: nat)
    requires Stamped(side, counts, latency)
    ensures var n, l := |counts|, ServiceLatency(latency);
            Mature(side.ch, n + 1) <==> n >= l && counts[n - l] > |side.out|
  {
  }

  function DataCounts<P>(h: seq<Loop<P>>): (c: seq<int>)
    ensures |c| == |h|
  {
    seq(|h|, m requires 0 <= m < |h| => |h[m].data.sent|)
  }

  function CtrlCounts<P>(h: seq<Loop<P>>): (c: seq<int>)
    ensures |c| == |h|
  {
    seq(|h|, m requires 0 <= m < |h| => |h[m].ctrl.sent|)
  }

  function OutCounts<P>(h: seq<Loop<P>>): (c: seq<int>)
    ensures |c| == |h|
  {
    seq(|h|, m requires 0 <= m < |h| => |h[m].data.out|)
  }

  predicate LoopStamped<P>(cfg: Config, h: seq<Loop<P>>, n: nat)
    requires n < |h|
  {
    && Stamped(h[n].data, DataCounts(h[..n]), cfg.latency)
    && Stamped(h[n].ctrl, CtrlCounts(h[..n]), cfg.latency)
  }

  lemma StampedStep<P>(loop: Loop<P>, cfg: Config, e: Env<P>, data: seq<int>, ctrl: seq<int>)
    requires Conserved(loop.data, cfg.dataDepth) && Conserved(loop.ctrl, cfg.ctrlDepth) && |data| == |ctrl|
    requires Stamped(loop.data, data, cfg.latency) && Stamped(loop.ctrl, ctrl, cfg.latency)
    ensures var loop' := Step(loop, cfg, |data| + 1, e);
            && Stamped(loop'.data, data + [|loop.data.sent|], cfg.latency)
            && Stamped(loop'.ctrl, ctrl + [|loop.ctrl.sent|], cfg.latency)
  {
    var cyc, loop' := |data| + 1, Step(loop, cfg, |data| + 1, e);
    var grant := DataGrant(loop.tokens, cfg.rate, LinkInputs(loop, e));
    SideMoves(loop.data, cyc, cfg.latency, cfg.dataDepth, grant, e.data, loop'.data);
    StampedNext(loop.data, data, cfg.latency, Delivered(loop.data.ch, cyc, grant).Some?, loop'.data);
    SideMoves(loop.ctrl, cyc, cfg.latency, cfg.ctrlDepth, e.outCtrlAvail, e.ctrl, loop'.ctrl);
    StampedNext(loop.ctrl, ctrl, cfg.latency, Delivered(loop.ctrl.ch, cyc, e.outCtrlAvail).Some?, loop'.ctrl);
  }

  ghost predicate AllConserved<P>(cfg: Config, h: seq<Loop<P>>) {
    forall m :: 0 <= m < |h| ==> LoopConserved(cfg, h[m])
  }

  predicate LoopConserved<P>(cfg: Config, loop: Loop<P>) {
    Conserved(loop.data, cfg.dataDepth) && Conserved(loop.ctrl, cfg.ctrlDepth)
  }

  lemma CountsNext<P>(h: seq<Loop<P>>, n: nat)
    requires n < |h|
    ensures DataCounts(h[..n + 1]) == DataCounts(h[..n]) + [|h[n].data.sent|]
    ensures CtrlCounts(h[..n + 1]) == CtrlCounts(h[..n]) + [|h[n].ctrl.sent|]
  {
  }

  lemma StampedAt<P>(cfg: Config, envs: seq<Env<P>>, h: seq<Loop<P>>, n: nat)
    requires n < |envs| && n + 1 < |h| && StepAt(cfg, envs, h, n) && LoopConserved(cfg, h[n]) && LoopStamped(cfg, h, n)
    ensures LoopStamped(cfg, h, n + 1)
  {
    StampedStep(h[n], cfg, envs[n], DataCounts(h[..n]), CtrlCounts(h[..n]));
    CountsNext(h, n);
  }

  lemma {:induction false} HistoryStamped<P>(cfg: Config, first: (Option<P>, Option<P>), envs: seq<Env<P>>,
          h: seq<Loop<P>>, n: nat)
    requires History(cfg, first, envs, h) && AllConserved(cfg, h) && n < |h|
    ensures LoopStamped(cfg, h, n)
  {
    if n > 0 {
      HistoryStamped(cfg, first, envs, h, n - 1);
      assert StepAt(cfg, envs, h, n - 1);
      StampedAt(cfg, envs, h, n - 1);
    }
  }

  /** The tokens in hand are what the departures so far leave over. */
  lemma {:induction false} HistoryBalanced<P>(cfg: Config, first: (Option<P>, Option<P>), envs: seq<Env<P>>,
          h: seq<Loop<P>>, n: nat)
    requires History(cfg, first, envs, h) && n < |h|
    ensures TokenBucket.Balanced(h[n].tokens, cfg.rate, OutCounts(h[..n + 1]))
  {
    if n == 0 {
      assert TokenBucket.Allowance(cfg.rate, OutCounts(h[..1]), 0) == 0;
    } else {
      var loop, e := h[n - 1], envs[n - 1];
      HistoryBalanced(cfg, first, envs, h, n - 1);
      assert StepAt(cfg, envs, h, n - 1);
      OutIsTick(loop, cfg, n, e);
      TokenBucket.BalanceNext(loop.tokens, cfg.rate, OutCounts(h[..n]), |h[n].data.out| > |loop.data.out|);
      assert OutCounts(h[..n + 1]) == OutCounts(h[..n]) + [|h[n].data.out|];
    }
  }

  lemma OutIsTick<P>(loop: Loop<P>, cfg: Config, cyc: int, e: Env<P>)
    ensures var (tokens, sent) := TokenBucket.Tick(loop.tokens, cfg.rate,
              Wants(LinkState(loop), cyc, LinkInputs(loop, e)));
            var loop' := Step(loop, cfg, cyc, e);
            loop'.tokens == tokens && |loop'.data.out| == |loop.data.out| + if sent then 1 else 0
  {
  }

  // ---- One cycle from its history -------------------------------------------------------------

  lemma DataStepLeaves<P>(loop: Loop<P>, cfg: Config, e: Env<P>, counts: seq<int>, outs: seq<int>)
    requires Stamped(loop.data, counts, cfg.latency) && InOrder(loop.data)
    requires TokenBucket.Balanced(loop.tokens, cfg.rate, outs)
    ensures var n, l, loop' := |counts|, ServiceLatency(cfg.latency), Step(loop, cfg, |counts| + 1, e);
            var leaves := e.outAvail && e.arbiter && n >= l && counts[n - l] > |loop.data.out|
                          && TokenBucket.Affordable(cfg.rate, outs);
            && (leaves ==> |loop.data.out| < |loop.data.sent|)
            && loop'.data.out == loop.data.out + (if leaves then [loop.data.sent[|loop.data.out|]] else [])
            && loop'.data.at == loop.data.at + (if leaves then [n + 1] else [])
  {
    HeadDue(loop.data, counts, cfg.latency);
    TokenBucket.EnoughIffAffordable(loop.tokens, cfg.rate, outs);
  }

  lemma CtrlStepLeaves<P>(loop: Loop<P>, cfg: Config, e: Env<P>, counts: seq<int>)
    requires Stamped(loop.ctrl, counts, cfg.latency) && InOrder(loop.ctrl)
    ensures var n, l, loop' := |counts|, ServiceLatency(cfg.latency), Step(loop, cfg, |counts| + 1, e);
            var leaves := e.outCtrlAvail && n >= l && counts[n - l] > |loop.ctrl.out|;
            && (leaves ==> |loop.ctrl.out| < |loop.ctrl.sent|)
            && loop'.ctrl.out == loop.ctrl.out + (if leaves then [loop.ctrl.sent[|loop.ctrl.out|]] else [])
            && loop'.ctrl.at == loop.ctrl.at + (if leaves then [n + 1] else [])
  {
    HeadDue(loop.ctrl, counts, cfg.latency);
  }

  // ---- Main results ---------------------------------------------------------------------------

  lemma AllStatesConserved<P>(cfg: Config, first: (Option<P>, Option<P>), envs: seq<Env<P>>)
    requires cfg.Valid()
    ensures AllConserved(cfg, States(cfg, first, envs))
  {
    forall m | 0 <= m <= |envs|
      ensures LoopConserved(cfg, States(cfg, first, envs)[m])
    {
      RunConserves(cfg, first, envs[..m]);
    }
  }

  /** What is known of the loop after `n` cycles, its counts read off the run. */
  lemma RunKnown<P>(cfg: Config, first: (Option<P>, Option<P>), envs: seq<Env<P>>, n: nat)
    returns (data: seq<int>, ctrl: seq<int>, outs: seq<int>)
    requires cfg.Valid() && n <= |envs|
    ensures |data| == |ctrl| == n && |outs| == n + 1
    ensures forall m :: 0 <= m < n ==>
              data[m] == DataSent(cfg, first, envs, m) && ctrl[m] == CtrlSent(cfg, first, envs, m)
    ensures forall m :: 0 <= m <= n ==> outs[m] == DataOut(cfg, first, envs, m)
    ensures var loop := Run(cfg, first, envs[..n]);
            && Stamped(loop.data, data, cfg.latency) && Stamped(loop.ctrl, ctrl, cfg.latency)
            && InOrder(loop.data) && InOrder(loop.ctrl) && TokenBucket.Balanced(loop.tokens, cfg.rate, outs)
  {
    var h := States(cfg, first, envs);
    StatesKnown(cfg, first, envs, n);
    CountsRead(cfg, first, envs, n);
    RunConserves(cfg, first, envs[..n]);
    data, ctrl, outs := DataCounts(h[..n]), CtrlCounts(h[..n]), OutCounts(h[..n + 1]);
  }

  lemma CountsRead<P>(cfg: Config, first: (Option<P>, Option<P>), envs: seq<Env<P>>, n: nat)
    requires n <= |envs|
    ensures var h := States(cfg, first, envs);
            && (forall m :: 0 <= m < n ==> DataCounts(h[..n])[m] == DataSent(cfg, first, envs, m)
                                           && CtrlCounts(h[..n])[m] == CtrlSent(cfg, first, envs, m))
            && (forall m :: 0 <= m <= n ==> OutCounts(h[..n + 1])[m] == DataOut(cfg, first, envs, m))
  {
  }

  lemma StatesKnown<P>(cfg: Config, first: (Option<P>, Option<P>), envs: seq<Env<P>>, n: nat)
    requires cfg.Valid() && n <= |envs|
    ensures var h := States(cfg, first, envs);
            && Stamped(h[n].data, DataCounts(h[..n]), cfg.latency)
            && Stamped(h[n].ctrl, CtrlCounts(h[..n]), cfg.latency)
            && TokenBucket.Balanced(h[n].tokens, cfg.rate, OutCounts(h[..n + 1]))
  {
    var h := States(cfg, first, envs);
    StatesHistory(cfg, first, envs);
    AllStatesConserved(cfg, first, envs);
    HistoryStamped(cfg, first, envs, h, n);
    HistoryBalanced(cfg, first, envs, h, n);
  }

  /** One packet more in cycle `n + 1` exceeds the rate in no window that ends there. */
  predicate WithinRate<P>(cfg: Config, first: (Option<P>, Option<P>), envs: seq<Env<P>>, n: nat)
    requires n <= |envs|
  {
    forall m :: 0 <= m <= n ==>
      TokenBucket.Allows(cfg.rate, DataOut(cfg, first, envs, n) + 1 - DataOut(cfg, first, envs, m), n + 1 - m, m == 0)
  }

  lemma AffordableIsWithin<P>(cfg: Config, first: (Option<P>, Option<P>), envs: seq<Env<P>>, n: nat, outs: seq<int>)
    requires n <= |envs| && |outs| == n + 1 && forall m :: 0 <= m <= n ==> outs[m] == DataOut(cfg, first, envs, m)
    ensures TokenBucket.Affordable(cfg.rate, outs) <==> WithinRate(cfg, first, envs, n)
  {
  }

  lemma DataKnown<P>(cfg: Config, first: (Option<P>, Option<P>), envs: seq<Env<P>>, n: nat)
    returns (data: seq<int>, outs: seq<int>)
    requires cfg.Valid() && n <= |envs|
    ensures |data| == n && forall m :: 0 <= m < n ==> data[m] == DataSent(cfg, first, envs, m)
    ensures TokenBucket.Affordable(cfg.rate, outs) <==> WithinRate(cfg, first, envs, n)
    ensures var loop := Run(cfg, first, envs[..n]);
            && Stamped(loop.data, data, cfg.latency) && InOrder(loop.data)
            && TokenBucket.Balanced(loop.tokens, cfg.rate, outs)
  {
    var ctrl;
    data, ctrl, outs := RunKnown(cfg, first, envs, n);
    AffordableIsWithin(cfg, first, envs, n, outs);
  }

  /**
   * In cycle `n + 1` a data packet leaves if and only if the downstream is ready, the link group grants it, a packet
   * is inside that was sent at least `max(latency, 1) + 1` cycles ago, and one packet more exceeds the rate in no
   * window that ends here. It is the oldest packet that has not left.
   */
  lemma DataLeavesIff<P>(cfg: Config, first: (Option<P>, Option<P>), envs: seq<Env<P>>, n: nat)
    requires cfg.Valid() && n < |envs|
    ensures var l := if cfg.latency > 0 then cfg.latency else 1;
            var before, after := Run(cfg, first, envs[..n]), Run(cfg, first, envs[..n + 1]);
            var leaves :=
              && envs[n].outAvail && envs[n].arbiter
              && n >= l && DataSent(cfg, first, envs, n - l) > DataOut(cfg, first, envs, n)
              && WithinRate(cfg, first, envs, n);
            && (leaves ==> |before.data.out| < |before.data.sent|)
            && after.data.out == before.data.out + (if leaves then [before.data.sent[|before.data.out|]] else [])
            && after.data.at == before.data.at + (if leaves then [n + 1] else [])
  {
    var data, outs := DataKnown(cfg, first, envs, n);
    DataStepLeaves(Run(cfg, first, envs[..n]), cfg, envs[n], data, outs);
    RunNext(cfg, first, envs, n);
  }

  /** In cycle `n + 1` a control packet leaves if and only if the downstream is ready for it and one is due. */
  lemma CtrlLeavesIff<P>(cfg: Config, first: (Option<P>, Option<P>), envs: seq<Env<P>>, n: nat)
    requires cfg.Valid() && n < |envs|
    ensures var l := if cfg.latency > 0 then cfg.latency else 1;
            var before, after := Run(cfg, first, envs[..n]), Run(cfg, first, envs[..n + 1]);
            var leaves :=
              && envs[n].outCtrlAvail
              && n >= l && CtrlSent(cfg, first, envs, n - l) > CtrlOut(cfg, first, envs, n);
            && (leaves ==> |before.ctrl.out| < |before.ctrl.sent|)
            && after.ctrl.out == before.ctrl.out + (if leaves then [before.ctrl.sent[|before.ctrl.out|]] else [])
            && after.ctrl.at == before.ctrl.at + (if leaves then [n + 1] else [])
  {
    var data, ctrl, outs := RunKnown(cfg, first, envs, n);
    CtrlStepLeaves(Run(cfg, first, envs[..n]), cfg, envs[n], ctrl);
    RunNext(cfg, first, envs, n);
  }

  /**
   * The link's outputs in cycle `n + 1`: what it hands on is what leaves, and it asks for more exactly while the
   * packets that have reached it and not left are fewer than its depth.
   */
  lemma OutputsShow<P>(cfg: Config, first: (Option<P>, Option<P>), envs: seq<Env<P>>, n: nat)
    requires cfg.Valid() && n < |envs|
    ensures var before, after := Run(cfg, first, envs[..n]), Run(cfg, first, envs[..n + 1]);
            var o := Outs(LinkState(before), cfg, n + 1, LinkInputs(before, envs[n]));
            && after.data.out == before.data.out + OnWire(o.data)
            && after.ctrl.out == before.ctrl.out + OnWire(o.ctrl)
            && (o.inAvail <==> DataSent(cfg, first, envs, n) - DataOut(cfg, first, envs, n + 1) < cfg.dataDepth)
            && (o.inCtrlAvail <==> CtrlSent(cfg, first, envs, n) - CtrlOut(cfg, first, envs, n + 1) < cfg.ctrlDepth)
  {
    var data, ctrl, outs := RunKnown(cfg, first, envs, n + 1);
    RunNext(cfg, first, envs, n);
    StepShows(Run(cfg, first, envs[..n]), cfg, n + 1, envs[n]);
    assert data[n] == DataSent(cfg, first, envs, n) && ctrl[n] == CtrlSent(cfg, first, envs, n);
  }

  lemma StepShows<P>(loop: Loop<P>, cfg: Config, cyc: int, e: Env<P>)
    ensures var loop', o := Step(loop, cfg, cyc, e), Outs(LinkState(loop), cfg, cyc, LinkInputs(loop, e));
            && loop'.data.out == loop.data.out + OnWire(o.data) && loop'.ctrl.out == loop.ctrl.out + OnWire(o.ctrl)
            && (o.inAvail <==> |loop'.data.ch.fifo| < cfg.dataDepth)
            && (o.inCtrlAvail <==> |loop'.ctrl.ch.fifo| < cfg.ctrlDepth)
  {
  }

  /**
   * Whatever is sent, on an open link too: the queue stays within its depth, and an arrival is queued or counted
   * refused.
   */
  lemma NothingVanishes<P>(ch: Channel<P>, cyc: int, latency: nat, depth: int, grant: bool, arrival: Option<P>)
    requires |ch.fifo| <= depth
    ensures var ch', left := ChannelStep(ch, cyc, latency, depth, grant, arrival), |OnWire(Delivered(ch, cyc, grant))|;
            && |ch'.fifo| <= depth
            && |ch'.fifo| + ch'.blocked == |ch.fifo| - left + ch.blocked + |OnWire(arrival)|
            && (ch'.blocked > ch.blocked <==> arrival.Some? && |ch.fifo| - left == depth)
  {
  }
}
