/**
 * How fast the bounded link really is. With a greedy sender and an always-ready downstream, the credit
 * loop sustains exactly the slower of the token rate and `depth` packets per credit round trip.
 */
module Throughput {
  import opened Basics
  import opened Rates
  import opened BoundedLink
  import opened CreditLoop
  import TokenBucket

  const GREEDY: Env<()> := Env(Some(()), None, true, true, true)

  function Greedy(n: nat): (envs: seq<Env<()>>)
    ensures |envs| == n
  {
    if n == 0 then [] else Greedy(n - 1) + [GREEDY]
  }

  function GreedyRun(cfg: Config, n: nat): Loop<()> {
    Run(cfg, (Some(()), None), Greedy(n))
  }

  lemma GreedyUnfold(cfg: Config, n: nat)
    ensures GreedyRun(cfg, n + 1) == Step(GreedyRun(cfg, n), cfg, n + 1, GREEDY)
  {
    assert Greedy(n + 1)[..n] == Greedy(n);
  }

  // ---- No depth beats one round trip per slot ------------------------------------------------

  /**
   * Each slot is reused at most once per round trip: deliveries `depth` apart are `rtt` apart, and a
   * queued packet, which can leave `lift` cycles after its stamp at the earliest, already honours that.
   */
  ghost predicate Spaced<P>(at: seq<int>, fifo: seq<(int, P)>, depth: nat, rtt: int, lift: int) {
    && (forall k :: depth <= k < |at| ==> at[k] >= at[k - depth] + rtt)
    && (forall i :: 0 <= i < |fifo| && depth <= |at| + i < |at| + depth ==>
        fifo[i].0 + lift >= at[|at| + i - depth] + rtt)
  }

  lemma SpacedPop<P>(at: seq<int>, fifo: seq<(int, P)>, depth: nat, rtt: int, lift: int, t: int)
    requires depth >= 1 && Spaced(at, fifo, depth, rtt, lift)
    requires 0 < |fifo| <= depth && fifo[0].0 + lift <= t
    ensures Spaced(at + [t], fifo[1..], depth, rtt, lift)
  {
  }

  lemma SpacedPush<P>(at: seq<int>, fifo: seq<(int, P)>, depth: nat, rtt: int, lift: int, x: (int, P))
    requires Spaced(at, fifo, depth, rtt, lift)
    requires depth <= |at| + |fifo| < |at| + depth ==> x.0 + lift >= at[|at| + |fifo| - depth] + rtt
    ensures Spaced(at, fifo + [x], depth, rtt, lift)
  {
  }

  /** A packet on the wire uses a slot whose credit came home at least a cycle ago. */
  predicate SlotReturned<P>(side: Side<P>, latency: nat, depth: nat, t: int) {
    var slot := |side.at| + |side.ch.fifo| - depth;
    side.wire.Some? && slot >= 0 ==> slot < |side.at| && t >= side.at[slot] + ServiceLatency(latency) + 1
  }

  lemma WireSlotReturned<P>(side: Side<P>, latency: nat, depth: nat, t: int)
    requires Conserved(side, depth) && TimedSide(side, latency, t) && History(side, t)
    ensures SlotReturned(side, latency, depth, t)
  {
    var r := |side.at| - |side.ch.due|;
    var last := if side.ch.pulse then r - 2 else r - 1;
    var slot := |side.at| + |side.ch.fifo| - depth;
    if side.wire.Some? && slot >= 0 {
      assert slot <= last;
      assert side.at[slot] <= side.at[last];
      if side.ch.pulse {
        assert side.at[last] < side.at[r - 1];
      }
    }
  }

  /** Queued packets were captured by now, so the head never leaves before it is ready. */
  predicate Captured<P>(fifo: seq<(int, P)>, latency: nat, t: int) {
    forall i :: 0 <= i < |fifo| ==> fifo[i].0 <= t + latency
  }

  ghost predicate SpacedSide<P>(side: Side<P>, latency: nat, depth: nat, t: int) {
    && Captured(side.ch.fifo, latency, t)
    && Spaced(side.at, side.ch.fifo, depth, CreditRttCycles(latency), ServiceLatency(latency) - latency)
  }

  /** One cycle of the queue: a ready head leaves at `t`, a packet entering a returned slot is stamped. */
  lemma SpacedNext<P>(at: seq<int>, fifo: seq<(int, P)>, depth: nat, latency: nat, t: int, got: bool, wire: Option<P>,
          at': seq<int>, fifo': seq<(int, P)>)
    requires depth >= 1 && |fifo| <= depth
    requires Spaced(at, fifo, depth, CreditRttCycles(latency), ServiceLatency(latency) - latency)
    requires got ==> fifo != [] && fifo[0].0 + ServiceLatency(latency) - latency <= t
    requires wire.Some? && |at| + |fifo| >= depth ==>
               |fifo| < depth && t >= at[|at| + |fifo| - depth] + ServiceLatency(latency) + 2
    requires at' == if got then at + [t] else at
    requires var left := if got then fifo[1..] else fifo;
             fifo' == if wire.Some? then left + [(t + latency, wire.value)] else left
    ensures Spaced(at', fifo', depth, CreditRttCycles(latency), ServiceLatency(latency) - latency)
  {
    var rtt, lift := CreditRttCycles(latency), ServiceLatency(latency) - latency;
    var left := if got then fifo[1..] else fifo;
    if got {
      SpacedPop(at, fifo, depth, rtt, lift, t);
    }
    if wire.Some? {
      SpacedPush(at', left, depth, rtt, lift, (t + latency, wire.value));
    }
  }

  lemma CapturedNext<P>(fifo: seq<(int, P)>, latency: nat, t: int, got: bool, wire: Option<P>, fifo': seq<(int, P)>)
    requires Captured(fifo, latency, t) && (got ==> fifo != [])
    requires var left := if got then fifo[1..] else fifo;
             fifo' == if wire.Some? then left + [(t + 1 + latency, wire.value)] else left
    ensures Captured(fifo', latency, t + 1)
  {
  }

  /** The queue in one cycle: the head is delivered or stays, and the packet on the wire is captured. */
  ghost predicate QueueMoves<P>(side: Side<P>, latency: nat, t: int, leaves: bool, side': Side<P>) {
    var left := if leaves && side.ch.fifo != [] then side.ch.fifo[1..] else side.ch.fifo;
    && side'.at == (if leaves then side.at + [t + 1] else side.at)
    && side'.ch.fifo == (if side.wire.Some? then left + [(t + 1 + latency, side.wire.value)] else left)
  }

  lemma StepMovesQueue<P>(side: Side<P>, latency: nat, depth: nat, t: int, grant: bool, offer: Option<P>,
          side': Side<P>)
    requires Conserved(side, depth)
    requires side' == SideStep(side, t + 1, ChannelStep(side.ch, t + 1, latency, depth, grant, side.wire),
                               Delivered(side.ch, t + 1, grant), offer)
    ensures QueueMoves(side, latency, t, Mature(side.ch, t + 1) && grant, side')
  {
    StepParts(side, t + 1, ChannelStep(side.ch, t + 1, latency, depth, grant, side.wire),
        Delivered(side.ch, t + 1, grant), offer, side');
    QueueNext(side.ch, t + 1, latency, depth, grant, side.wire);
  }

  lemma MoveKeepsSpacing<P>(side: Side<P>, latency: nat, depth: nat, t: int, got: bool, side': Side<P>)
    requires depth >= 1 && |side.ch.fifo| + |OnWire(side.wire)| <= depth
    requires SpacedSide(side, latency, depth, t) && SlotReturned(side, latency, depth, t)
    requires (got ==> Mature(side.ch, t + 1)) && QueueMoves(side, latency, t, got, side')
    ensures SpacedSide(side', latency, depth, t + 1)
  {
    SpacedNext(side.at, side.ch.fifo, depth, latency, t + 1, got, side.wire, side'.at, side'.ch.fifo);
    CapturedNext(side.ch.fifo, latency, t, got, side.wire, side'.ch.fifo);
  }

  /** On every run, whatever the demand, a slot carries at most one packet per credit round trip. */
  lemma {:induction false} RoundTripPerSlot<P>(cfg: Config, first: (Option<P>, Option<P>), envs: seq<Env<P>>)
    requires cfg.Valid()
    ensures SpacedSide(Run(cfg, first, envs).data, cfg.latency, cfg.dataDepth, |envs|)
  {
    if envs != [] {
      var n := |envs| - 1;
      var loop := Run(cfg, first, envs[..n]);
      RoundTripPerSlot(cfg, first, envs[..n]);
      RunConserves(cfg, first, envs[..n]);
      RunTimed(cfg, first, envs[..n]);
      RunHistory(cfg, first, envs[..n]);
      RoundTripNext(cfg, loop, n, envs[n], Run(cfg, first, envs));
    }
  }

  lemma RoundTripNext<P>(cfg: Config, loop: Loop<P>, n: nat, e: Env<P>, loop': Loop<P>)
    requires cfg.Valid() && SpacedSide(loop.data, cfg.latency, cfg.dataDepth, n)
    requires Conserved(loop.data, cfg.dataDepth) && TimedSide(loop.data, cfg.latency, n) && History(loop.data, n)
    requires loop' == Step(loop, cfg, n + 1, e)
    ensures SpacedSide(loop'.data, cfg.latency, cfg.dataDepth, n + 1)
  {
    WireSlotReturned(loop.data, cfg.latency, cfg.dataDepth, n);
    DataStep(loop, cfg, n + 1, e);
    var grant := DataGrant(loop.tokens, cfg.rate, LinkInputs(loop, e));
    StepMovesQueue(loop.data, cfg.latency, cfg.dataDepth, n, grant, e.data, loop'.data);
    MoveKeepsSpacing(loop.data, cfg.latency, cfg.dataDepth, n, Mature(loop.data.ch, n + 1) && grant, loop'.data);
  }

  /** Deliveries `depth` apart are at least one credit round trip apart, under any demand, downstream and arbiter. */
  lemma RoundTripApart<P>(cfg: Config, first: (Option<P>, Option<P>), envs: seq<Env<P>>, k: nat)
    requires cfg.Valid() && k + cfg.dataDepth < |Run(cfg, first, envs).data.at|
    ensures var at := Run(cfg, first, envs).data.at; at[k + cfg.dataDepth] - at[k] >= CreditRttCycles(cfg.latency)
  {
    RoundTripPerSlot(cfg, first, envs);
  }

  // ---- The greedy schedule -------------------------------------------------------------------

  /** Deadline test: `x` is no later than `start + ceil(m * period / packets)`, without dividing. */
  predicate OnTime(x: int, m: int, start: int, packets: int, period: int) {
    (x - start - 1) * packets < m * period
  }

  lemma OnTimeIsDeadline(x: int, m: nat, start: int, packets: int, period: int)
    requires 0 < packets && 0 <= period
    ensures m * period >= 0
    ensures OnTime(x, m, start, packets, period) <==> x <= start + CeilDiv(m * period, packets)
  {
    MulMono(0, m, period);
    CeilDivLeast(m * period, packets, x - start - 1);
  }

  lemma OnTimeNext(x: int, m: int, start: int, packets: int, period: int)
    requires 0 < packets <= period && OnTime(x, m, start, packets, period)
    ensures OnTime(x + 1, m + 1, start, packets, period)
  {
    assert (x - start) * packets == (x - start - 1) * packets + packets;
    assert (m + 1) * period == m * period + period;
  }

  /** A slot delivered on time comes round again on time, when the depth covers a round trip. */
  lemma OnTimeRoundTrip(x: int, m: int, start: int, packets: int, period: int, rtt: int, depth: int)
    requires OnTime(x, m, start, packets, period) && rtt * packets <= depth * period
    ensures OnTime(x + rtt, m + depth, start, packets, period)
  {
    assert (x + rtt - start - 1) * packets == (x - start - 1) * packets + rtt * packets;
    assert (m + depth) * period == m * period + depth * period;
  }

  /** An item still on time at cycle `t` whose turn `m` is overdue cannot be `t` or later. */
  lemma OnTimeBeatsOverdue(x: int, m: int, t: int, start: int, packets: int, period: int)
    requires packets > 0 && OnTime(x, m, start, packets, period) && (t - start) * packets >= m * period
    ensures x <= t
  {
    if x > t {
      MulMono(t - start, x - start - 1, packets);
    }
  }

  /** A target pace of `packets` per `period` cycles that neither the tokens nor the round trip forbids. */
  datatype Pace = Pace(packets: int, period: int) {
    predicate Feasible(cfg: Config) {
      && 0 < packets <= period
      && packets * cfg.rate.den <= period * cfg.rate.num
      && CreditRttCycles(cfg.latency) * packets <= cfg.dataDepth * period
    }

    predicate Meets(x: int, m: int, start: int) {
      OnTime(x, m, start, packets, period)
    }
  }

  /** First delivery: the first packet must cross the link, and the bucket must fill from empty. */
  function FirstDelivery(cfg: Config): int
    requires cfg.rate.Valid()
  {
    var tokens := CeilDiv(cfg.rate.den, cfg.rate.num);
    if tokens > ServiceLatency(cfg.latency) + 1 then tokens else ServiceLatency(cfg.latency) + 1
  }

  /** Tokens keep up with the pace: what the schedule still owes after `n` deliveries is already earned. */
  predicate TokensOnPace(tokens: int, cfg: Config, pace: Pace, n: int, t: int, start: int) {
    tokens * pace.period >= cfg.rate.den * ((t - start) * pace.packets - (n - 1) * pace.period)
  }

  predicate NotLate(pace: Pace, n: int, t: int, start: int) {
    (t - start) * pace.packets < n * pace.period
  }

  lemma TokensReady(tokens: int, cfg: Config, pace: Pace, n: int, t: int, start: int)
    requires cfg.rate.Valid() && pace.Feasible(cfg)
    requires TokensOnPace(tokens, cfg, pace, n, t, start)
    ensures TokensOnPace(tokens + cfg.rate.num, cfg, pace, n, t + 1, start)
    ensures !NotLate(pace, n, t + 1, start) ==> tokens + cfg.rate.num >= cfg.rate.den
  {
    var den, num := cfg.rate.den, cfg.rate.num;
    var owed := (t - start) * pace.packets - (n - 1) * pace.period;
    var owed' := (t + 1 - start) * pace.packets - (n - 1) * pace.period;
    assert (t + 1 - start) * pace.packets == (t - start) * pace.packets + pace.packets;
    assert den * owed' == den * owed + den * pace.packets by { assert owed' == owed + pace.packets; }
    assert (tokens + num) * pace.period == tokens * pace.period + num * pace.period;
    assert den * pace.packets == pace.packets * den && num * pace.period == pace.period * num;
    if !NotLate(pace, n, t + 1, start) {
      assert (n - 1) * pace.period == n * pace.period - pace.period;
      assert owed' >= pace.period;
      MulMono(pace.period, owed', den);
      assert (tokens + num) * pace.period >= den * pace.period;
      if tokens + num < den {
        MulMono(tokens + num - den, -1, pace.period);
      }
    }
  }

  lemma TokensSpent(earned: int, cfg: Config, pace: Pace, n: int, t: int, start: int)
    requires TokensOnPace(earned, cfg, pace, n, t, start)
    ensures TokensOnPace(earned - cfg.rate.den, cfg, pace, n + 1, t, start)
  {
    var den := cfg.rate.den;
    var owed := (t - start) * pace.packets - (n - 1) * pace.period;
    var owed' := (t - start) * pace.packets - n * pace.period;
    assert (n - 1) * pace.period == n * pace.period - pace.period;
    assert den * owed' == den * owed - den * pace.period by { assert owed' == owed - pace.period; }
    assert (earned - den) * pace.period == earned * pace.period - den * pace.period;
  }

  /** Capping the bucket at one packet discards nothing the schedule needs. */
  lemma TokensCapped(cfg: Config, pace: Pace, n: int, t: int, start: int)
    requires cfg.rate.den >= 0 && NotLate(pace, n, t, start)
    ensures TokensOnPace(cfg.rate.den, cfg, pace, n, t, start)
  {
    var owed := (t - start) * pace.packets - (n - 1) * pace.period;
    assert (n - 1) * pace.period == n * pace.period - pace.period;
    assert owed < pace.period;
    MulMono(owed, pace.period, cfg.rate.den);
    assert cfg.rate.den * owed == owed * cfg.rate.den && cfg.rate.den * pace.period == pace.period * cfg.rate.den;
  }

  /** Past deliveries and queued packets meet their deadlines. */
  predicate QueueMeets<P>(at: seq<int>, fifo: seq<(int, P)>, pace: Pace, start: int, lift: int) {
    && (forall k :: 0 <= k < |at| ==> pace.Meets(at[k], k, start))
    && (forall i :: 0 <= i < |fifo| ==> pace.Meets(fifo[i].0 + lift, |at| + i, start))
  }

  lemma QueuePop<P>(at: seq<int>, fifo: seq<(int, P)>, pace: Pace, start: int, lift: int, t: int)
    requires QueueMeets(at, fifo, pace, start, lift) && fifo != [] && pace.Meets(t, |at|, start)
    ensures QueueMeets(at + [t], fifo[1..], pace, start, lift)
  {
  }

  lemma QueuePush<P>(at: seq<int>, fifo: seq<(int, P)>, pace: Pace, start: int, lift: int, x: (int, P))
    requires QueueMeets(at, fifo, pace, start, lift) && pace.Meets(x.0 + lift, |at| + |fifo|, start)
    ensures QueueMeets(at, fifo + [x], pace, start, lift)
  {
  }

  /** The loop is on pace: tokens, deliveries, queue, wire and the sender's next packet. */
  predicate OnPace<P>(side: Side<P>, tokens: int, cfg: Config, pace: Pace, start: int, t: int) {
    var l := ServiceLatency(cfg.latency);
    var next := |side.at| + |side.ch.fifo|;
    && TokensOnPace(tokens, cfg, pace, |side.at|, t, start)
    && NotLate(pace, |side.at|, t, start)
    && QueueMeets(side.at, side.ch.fifo, pace, start, l - cfg.latency)
    && (side.wire.Some? ==> pace.Meets(t + 1 + l, next, start))
    && (side.credit > 0 ==> pace.Meets(t + 2 + l, next + |OnWire(side.wire)|, start))
  }

  /** What holds of the loop on every run, and the pace argument leans on. */
  predicate Sound<P>(side: Side<P>, tokens: int, cfg: Config, t: int) {
    && Conserved(side, cfg.dataDepth)
    && TimedSide(side, cfg.latency, t)
    && Captured(side.ch.fifo, cfg.latency, t)
    && 0 <= tokens <= cfg.rate.den
  }

  /** The next packet the sender can send still meets its deadline: its credit is at hand or just pulsed. */
  lemma NextSendMeets<P>(side: Side<P>, tokens: int, cfg: Config, pace: Pace, start: int, t: int)
    requires Sound(side, tokens, cfg, t) && OnPace(side, tokens, cfg, pace, start, t) && pace.Feasible(cfg)
    requires side.credit > 0 || side.ch.pulse
    ensures pace.Meets(t + 2 + ServiceLatency(cfg.latency), |side.at| + |side.ch.fifo| + |OnWire(side.wire)|, start)
  {
    if side.credit == 0 {
      var home := |side.at| - |side.ch.due| - 1;
      OnTimeRoundTrip(side.at[home], home, start, pace.packets, pace.period, CreditRttCycles(cfg.latency),
          cfg.dataDepth);
    }
  }

  /** Whenever a delivery is due, its packet is at the head of the queue and ready. */
  lemma HeadReady<P>(side: Side<P>, tokens: int, cfg: Config, pace: Pace, start: int, t: int)
    requires cfg.Valid() && Sound(side, tokens, cfg, t) && OnPace(side, tokens, cfg, pace, start, t)
               && pace.Feasible(cfg)
    requires !NotLate(pace, |side.at|, t + 1, start)
    ensures Mature(side.ch, t + 1)
  {
    var n, l := |side.at|, ServiceLatency(cfg.latency);
    if side.ch.fifo != [] {
      OnTimeBeatsOverdue(side.ch.fifo[0].0 + l - cfg.latency, n, t + 1, start, pace.packets, pace.period);
    } else if side.wire.Some? {
      OnTimeBeatsOverdue(t + 1 + l, n, t + 1, start, pace.packets, pace.period);
    } else if side.credit > 0 || side.ch.pulse {
      NextSendMeets(side, tokens, cfg, pace, start, t);
      OnTimeBeatsOverdue(t + 2 + l, n, t + 1, start, pace.packets, pace.period);
    } else {
      var home := n - cfg.dataDepth;
      OnTimeRoundTrip(side.at[home], home, start, pace.packets, pace.period, CreditRttCycles(cfg.latency),
          cfg.dataDepth);
      OnTimeBeatsOverdue(side.at[home] + CreditRttCycles(cfg.latency), n, t + 1, start, pace.packets, pace.period);
    }
  }

  /** The head is delivered exactly when it is mature and the bucket can pay. */
  predicate Leaves<P>(side: Side<P>, tokens: int, cfg: Config, t: int) {
    Mature(side.ch, t + 1) && tokens + cfg.rate.num >= cfg.rate.den
  }

  lemma StepTokensOnPace<P>(side: Side<P>, tokens: int, cfg: Config, pace: Pace, start: int, t: int)
    requires cfg.Valid() && Sound(side, tokens, cfg, t) && OnPace(side, tokens, cfg, pace, start, t)
               && pace.Feasible(cfg)
    ensures var leaves := Leaves(side, tokens, cfg, t);
            var n := |side.at| + if leaves then 1 else 0;
            && TokensOnPace(TokenBucket.Tick(tokens, cfg.rate, Mature(side.ch, t + 1)).0, cfg, pace, n, t + 1, start)
            && NotLate(pace, n, t + 1, start)
  {
    var n := |side.at|;
    TokensReady(tokens, cfg, pace, n, t, start);
    if Leaves(side, tokens, cfg, t) {
      TokensSpent(tokens + cfg.rate.num, cfg, pace, n, t + 1, start);
      assert (t + 1 - start) * pace.packets == (t - start) * pace.packets + pace.packets;
      assert (n + 1) * pace.period == n * pace.period + pace.period;
    } else {
      if !NotLate(pace, n, t + 1, start) {
        HeadReady(side, tokens, cfg, pace, start, t);
      }
      TokensCapped(cfg, pace, n, t + 1, start);
    }
  }

  lemma StepQueueOnPace<P>(side: Side<P>, tokens: int, cfg: Config, pace: Pace, start: int, t: int, side': Side<P>)
    requires cfg.Valid() && Sound(side, tokens, cfg, t) && OnPace(side, tokens, cfg, pace, start, t)
               && pace.Feasible(cfg)
    requires Moves(side, cfg, t, tokens + cfg.rate.num >= cfg.rate.den, side')
    ensures QueueMeets(side'.at, side'.ch.fifo, pace, start, ServiceLatency(cfg.latency) - cfg.latency)
  {
    var lift := ServiceLatency(cfg.latency) - cfg.latency;
    var at, fifo := side.at, side.ch.fifo;
    if Leaves(side, tokens, cfg, t) {
      QueuePop(at, fifo, pace, start, lift, t + 1);
      at, fifo := at + [t + 1], fifo[1..];
    }
    if side.wire.Some? {
      QueuePush(at, fifo, pace, start, lift, (t + 1 + cfg.latency, side.wire.value));
    }
  }

  /** The moving parts of one greedy cycle: head out, wire in, pulse counted, next packet sent. */
  ghost predicate Moves<P>(side: Side<P>, cfg: Config, t: int, grant: bool, side': Side<P>) {
    var credit := side.credit + if side.ch.pulse then 1 else 0;
    && QueueMoves(side, cfg.latency, t, Mature(side.ch, t + 1) && grant, side')
    && (side'.wire.Some? <==> credit > 0)
    && side'.credit == (if credit > 0 then credit - 1 else credit)
  }

  lemma StepSenderOnPace<P>(side: Side<P>, tokens: int, cfg: Config, pace: Pace, start: int, t: int, side': Side<P>)
    requires cfg.Valid() && Sound(side, tokens, cfg, t) && OnPace(side, tokens, cfg, pace, start, t)
               && pace.Feasible(cfg)
    requires Moves(side, cfg, t, tokens + cfg.rate.num >= cfg.rate.den, side')
    ensures var next := |side'.at| + |side'.ch.fifo|;
            && (side'.wire.Some? ==> pace.Meets(t + 2 + ServiceLatency(cfg.latency), next, start))
            && (side'.credit > 0 ==> pace.Meets(t + 3 + ServiceLatency(cfg.latency), next + 1, start))
  {
    assert |side'.at| + |side'.ch.fifo| == |side.at| + |side.ch.fifo| + |OnWire(side.wire)|;
    if side'.wire.Some? {
      NextSendMeets(side, tokens, cfg, pace, start, t);
      OnTimeNext(t + 2 + ServiceLatency(cfg.latency), |side'.at| + |side'.ch.fifo|, start, pace.packets, pace.period);
    }
  }

  lemma StepSideOnPace<P>(side: Side<P>, tokens: int, cfg: Config, pace: Pace, start: int, t: int, side': Side<P>,
          tokens': int)
    requires cfg.Valid() && Sound(side, tokens, cfg, t) && OnPace(side, tokens, cfg, pace, start, t)
               && pace.Feasible(cfg)
    requires Moves(side, cfg, t, tokens + cfg.rate.num >= cfg.rate.den, side')
    requires tokens' == TokenBucket.Tick(tokens, cfg.rate, Mature(side.ch, t + 1)).0
    ensures OnPace(side', tokens', cfg, pace, start, t + 1)
  {
    StepTokensOnPace(side, tokens, cfg, pace, start, t);
    StepQueueOnPace(side, tokens, cfg, pace, start, t, side');
    StepSenderOnPace(side, tokens, cfg, pace, start, t, side');
    assert |side'.at| == |side.at| + if Leaves(side, tokens, cfg, t) then 1 else 0;
  }

  lemma SideMoves<P>(side: Side<P>, cfg: Config, t: int, grant: bool, offer: Option<P>, side': Side<P>)
    requires Conserved(side, cfg.dataDepth) && offer.Some?
    requires side' == SideStep(side, t + 1, ChannelStep(side.ch, t + 1, cfg.latency, cfg.dataDepth, grant, side.wire),
                               Delivered(side.ch, t + 1, grant), offer)
    ensures Moves(side, cfg, t, grant, side')
  {
    StepMovesQueue(side, cfg.latency, cfg.dataDepth, t, grant, offer, side');
    StepParts(side, t + 1, ChannelStep(side.ch, t + 1, cfg.latency, cfg.dataDepth, grant, side.wire),
              Delivered(side.ch, t + 1, grant), offer, side');
  }

  lemma GreedyStepMoves(cfg: Config, loop: Loop<()>, n: nat, loop': Loop<()>)
    requires Conserved(loop.data, cfg.dataDepth) && loop' == Step(loop, cfg, n + 1, GREEDY)
    ensures Moves(loop.data, cfg, n, loop.tokens + cfg.rate.num >= cfg.rate.den, loop'.data)
    ensures loop'.tokens == TokenBucket.Tick(loop.tokens, cfg.rate, Mature(loop.data.ch, n + 1)).0
  {
    DataStep(loop, cfg, n + 1, GREEDY);
    SideMoves(loop.data, cfg, n, loop.tokens + cfg.rate.num >= cfg.rate.den, Some(()), loop'.data);
  }

  lemma GreedyMoves(cfg: Config, n: nat)
    requires cfg.Valid()
    ensures var loop, loop' := GreedyRun(cfg, n), GreedyRun(cfg, n + 1);
            && Moves(loop.data, cfg, n, loop.tokens + cfg.rate.num >= cfg.rate.den, loop'.data)
            && loop'.tokens == TokenBucket.Tick(loop.tokens, cfg.rate, Mature(loop.data.ch, n + 1)).0
  {
    GreedyUnfold(cfg, n);
    RunConserves(cfg, (Some(()), None), Greedy(n));
    GreedyStepMoves(cfg, GreedyRun(cfg, n), n, GreedyRun(cfg, n + 1));
  }

  lemma GreedySound(cfg: Config, n: nat)
    requires cfg.Valid()
    ensures var loop := GreedyRun(cfg, n); Sound(loop.data, loop.tokens, cfg, n) && History(loop.data, n)
  {
    var first, envs := (Some(()), None), Greedy(n);
    RunConserves(cfg, first, envs);
    RunTimed(cfg, first, envs);
    RunHistory(cfg, first, envs);
    RoundTripPerSlot(cfg, first, envs);
    assert envs[..0] == [];
    DeliveriesAreBucket(cfg, first, envs, 0);
    TokenBucket.TokensBounded(0, cfg.rate, Demand(cfg, first, envs, 0));
  }

  lemma StepOnPace(cfg: Config, pace: Pace, start: int, n: nat)
    requires cfg.Valid() && pace.Feasible(cfg)
    requires var loop := GreedyRun(cfg, n); OnPace(loop.data, loop.tokens, cfg, pace, start, n)
    ensures var loop := GreedyRun(cfg, n + 1); OnPace(loop.data, loop.tokens, cfg, pace, start, n + 1)
  {
    var loop, loop' := GreedyRun(cfg, n), GreedyRun(cfg, n + 1);
    GreedyMoves(cfg, n);
    GreedySound(cfg, n);
    StepSideOnPace(loop.data, loop.tokens, cfg, pace, start, n, loop'.data, loop'.tokens);
  }

  /** Before the first delivery: one packet enters per cycle until the credits run out, and the bucket fills. */
  ghost predicate Ramp<P>(side: Side<P>, tokens: int, cfg: Config, t: nat) {
    && side.at == []
    && !side.ch.pulse
    && |side.ch.fifo| == Min(t, cfg.dataDepth)
    && (forall i :: 0 <= i < |side.ch.fifo| ==> side.ch.fifo[i].0 == i + 1 + cfg.latency)
    && (side.wire.Some? <==> t < cfg.dataDepth)
    && side.credit == cfg.dataDepth - Min(t + 1, cfg.dataDepth)
    && tokens == Min(cfg.rate.den, t * cfg.rate.num)
  }

  /** The first packet leaves exactly when it has crossed the link and the bucket holds a packet's tokens. */
  lemma RampLeaves<P>(side: Side<P>, tokens: int, cfg: Config, t: nat)
    requires cfg.Valid() && Ramp(side, tokens, cfg, t)
    ensures Leaves(side, tokens, cfg, t) <==> t + 1 >= FirstDelivery(cfg)
  {
    CeilDivLeast(cfg.rate.den, cfg.rate.num, t + 1);
    assert (t + 1) * cfg.rate.num == t * cfg.rate.num + cfg.rate.num;
  }

  lemma RampStep<P>(side: Side<P>, tokens: int, cfg: Config, t: nat, side': Side<P>, tokens': int)
    requires cfg.Valid() && Ramp(side, tokens, cfg, t) && t + 1 < FirstDelivery(cfg)
    requires Moves(side, cfg, t, tokens + cfg.rate.num >= cfg.rate.den, side')
    requires TimedSide(side', cfg.latency, t + 1)
    requires tokens' == TokenBucket.Tick(tokens, cfg.rate, Mature(side.ch, t + 1)).0
    ensures Ramp(side', tokens', cfg, t + 1)
  {
    RampLeaves(side, tokens, cfg, t);
    assert (t + 1) * cfg.rate.num == t * cfg.rate.num + cfg.rate.num;
  }

  lemma EarlyMeets(pace: Pace, x: int, m: nat, start: int)
    requires 0 < pace.packets <= pace.period && x - start <= m
    ensures pace.Meets(x, m, start)
  {
    MulMono(x - start - 1, m - 1, pace.packets);
    assert (m - 1) * pace.packets == m * pace.packets - pace.packets;
    MulMono(pace.packets, pace.period, m);
    assert m * pace.packets == pace.packets * m && m * pace.period == pace.period * m;
  }

  /** The queue of the ramp, less the head that leaves at `t`, is packed tightly enough for every pace. */
  lemma RampQueueMeets<P>(fifo: seq<(int, P)>, latency: nat, pace: Pace, t: int, wire: Option<P>, fifo': seq<(int, P)>)
    requires 0 < pace.packets <= pace.period
    requires fifo != [] && t >= ServiceLatency(latency) + 1
    requires forall i :: 0 <= i < |fifo| ==> fifo[i].0 == i + 1 + latency
    requires wire.Some? ==> |fifo| == t - 1
    requires fifo' == if wire.Some? then fifo[1..] + [(t + latency, wire.value)] else fifo[1..]
    ensures QueueMeets([t], fifo', pace, t, ServiceLatency(latency) - latency)
  {
    EarlyMeets(pace, t, 0, t);
    forall i | 0 <= i < |fifo'|
      ensures pace.Meets(fifo'[i].0 + (ServiceLatency(latency) - latency), 1 + i, t)
    {
      assert fifo'[i].0 == i + 2 + latency;
      EarlyMeets(pace, fifo'[i].0 + (ServiceLatency(latency) - latency), 1 + i, t);
    }
  }

  lemma PaidUp(tokens: int, cfg: Config, pace: Pace, t: int)
    requires 0 <= tokens && 0 < pace.packets <= pace.period
    ensures TokensOnPace(tokens, cfg, pace, 1, t, t) && NotLate(pace, 1, t, t)
  {
    MulMono(0, tokens, pace.period);
    assert (t - t) * pace.packets - (1 - 1) * pace.period == 0;
  }

  /** At the first delivery the loop is on pace for every pace, measured from that delivery. */
  lemma StartsOnPace<P>(side: Side<P>, tokens: int, cfg: Config, pace: Pace, t: nat, side': Side<P>, tokens': int)
    requires cfg.Valid() && 0 < pace.packets <= pace.period
    requires Ramp(side, tokens, cfg, t) && t + 1 == FirstDelivery(cfg)
    requires Moves(side, cfg, t, tokens + cfg.rate.num >= cfg.rate.den, side') && 0 <= tokens'
    ensures side'.at == [t + 1] && OnPace(side', tokens', cfg, pace, t + 1, t + 1)
  {
    RampLeaves(side, tokens, cfg, t);
    var l := ServiceLatency(cfg.latency);
    RampQueueMeets(side.ch.fifo, cfg.latency, pace, t + 1, side.wire, side'.ch.fifo);
    if side'.wire.Some? {
      EarlyMeets(pace, t + 2 + l, t + 1, t + 1);
      EarlyMeets(pace, t + 3 + l, t + 2, t + 1);
    }
    PaidUp(tokens', cfg, pace, t + 1);
  }

  ghost predicate RampAt(cfg: Config, n: nat) {
    var loop := GreedyRun(cfg, n);
    Ramp(loop.data, loop.tokens, cfg, n)
  }

  lemma RampGoesOn(cfg: Config, n: nat)
    requires cfg.Valid() && n + 1 < FirstDelivery(cfg) && RampAt(cfg, n)
    ensures RampAt(cfg, n + 1)
  {
    var loop, loop' := GreedyRun(cfg, n), GreedyRun(cfg, n + 1);
    GreedyMoves(cfg, n);
    GreedySound(cfg, n + 1);
    RampStep(loop.data, loop.tokens, cfg, n, loop'.data, loop'.tokens);
  }

  lemma RampUntilFirst(cfg: Config, n: nat)
    requires cfg.Valid() && n < FirstDelivery(cfg)
    ensures RampAt(cfg, n)
  {
    var m := 0;
    while m < n
      invariant m <= n && RampAt(cfg, m)
    {
      RampGoesOn(cfg, m);
      m := m + 1;
    }
  }

  lemma OnPaceAtFirst(cfg: Config, pace: Pace, n: nat)
    requires cfg.Valid() && 0 < pace.packets <= pace.period && n + 1 == FirstDelivery(cfg)
    ensures var loop := GreedyRun(cfg, n + 1);
            loop.data.at == [n + 1] && OnPace(loop.data, loop.tokens, cfg, pace, n + 1, n + 1)
  {
    var loop, loop' := GreedyRun(cfg, n), GreedyRun(cfg, n + 1);
    GreedyMoves(cfg, n);
    RampUntilFirst(cfg, n);
    GreedySound(cfg, n + 1);
    StartsOnPace(loop.data, loop.tokens, cfg, pace, n, loop'.data, loop'.tokens);
  }

  /** On pace since the first delivery, which was in cycle `first`. */
  ghost predicate Settled(cfg: Config, pace: Pace, first: int, n: nat) {
    var loop := GreedyRun(cfg, n);
    && OnPace(loop.data, loop.tokens, cfg, pace, first, n)
    && loop.data.at != [] && loop.data.at[0] == first
  }

  lemma StaysSettled(cfg: Config, pace: Pace, first: int, n: nat)
    requires cfg.Valid() && pace.Feasible(cfg) && Settled(cfg, pace, first, n)
    ensures Settled(cfg, pace, first, n + 1)
  {
    StepOnPace(cfg, pace, first, n);
    GreedyMoves(cfg, n);
  }

  lemma SettledFrom(cfg: Config, pace: Pace, first: nat, n: nat)
    requires cfg.Valid() && pace.Feasible(cfg) && Settled(cfg, pace, first, first) && n >= first
    ensures Settled(cfg, pace, first, n)
  {
    var m := first;
    while m < n
      invariant first <= m <= n && Settled(cfg, pace, first, m)
    {
      StaysSettled(cfg, pace, first, m);
      m := m + 1;
    }
  }

  lemma OnPaceFromFirst(cfg: Config, pace: Pace, n: nat)
    requires cfg.Valid() && pace.Feasible(cfg) && n >= FirstDelivery(cfg)
    ensures Settled(cfg, pace, FirstDelivery(cfg), n)
  {
    OnPaceAtFirst(cfg, pace, FirstDelivery(cfg) - 1);
    SettledFrom(cfg, pace, FirstDelivery(cfg), n);
  }

  // ---- Main results --------------------------------------------------------------------------

  /**
   * Sustained throughput: at every pace slower than both the token rate and `depth` packets per round
   * trip, the `k`-th packet after the first is delivered within `ceil(k * period / packets)` cycles of it.
   */
  lemma Sustains(cfg: Config, pace: Pace, k: nat, n: nat)
    requires cfg.Valid() && pace.Feasible(cfg)
    ensures k * pace.period >= 0
    ensures var at := GreedyRun(cfg, n).data.at;
            var deadline := FirstDelivery(cfg) + CeilDiv(k * pace.period, pace.packets);
            && (n >= deadline ==> |at| > k)
            && (|at| > k ==> at[0] == FirstDelivery(cfg) && at[k] <= deadline)
  {
    var at := GreedyRun(cfg, n).data.at;
    MulMono(0, k, pace.period);
    if n < FirstDelivery(cfg) {
      RampUntilFirst(cfg, n);
    } else {
      OnPaceFromFirst(cfg, pace, n);
      if |at| > k {
        OnTimeIsDeadline(at[k], k, FirstDelivery(cfg), pace.packets, pace.period);
      } else {
        CeilDivLeast(k * pace.period, pace.packets, n - FirstDelivery(cfg));
        MulMono(|at|, k, pace.period);
      }
    }
  }

  /** The first packet is delivered at a fixed cycle, whatever the depth. */
  lemma FirstDeliveryExact(cfg: Config, n: nat)
    requires cfg.Valid()
    ensures var at := GreedyRun(cfg, n).data.at;
            (at != [] <==> n >= FirstDelivery(cfg)) && (at != [] ==> at[0] == FirstDelivery(cfg))
  {
    var rtt := CreditRttCycles(cfg.latency);
    var pace := Pace(cfg.rate.num, cfg.rate.den * rtt);
    MulMono(1, rtt, cfg.rate.den);
    assert rtt * cfg.rate.den == cfg.rate.den * rtt;
    assert pace.period * cfg.rate.num >= cfg.rate.den * cfg.rate.num by {
      MulMono(cfg.rate.den, pace.period, cfg.rate.num);
    }
    assert rtt * cfg.rate.num <= cfg.dataDepth * pace.period by {
      MulMono(cfg.rate.num, cfg.rate.den, rtt);
      MulMono(1, cfg.dataDepth, pace.period);
    }
    if n < FirstDelivery(cfg) {
      RampUntilFirst(cfg, n);
    } else {
      OnPaceFromFirst(cfg, pace, n);
    }
  }

  lemma {:induction false} RoundTrips(cfg: Config, n: nat, j: nat)
    requires cfg.Valid() && j * cfg.dataDepth < |GreedyRun(cfg, n).data.at|
    ensures j * cfg.dataDepth >= 0
    ensures var at := GreedyRun(cfg, n).data.at; at[j * cfg.dataDepth] >= at[0] + j * CreditRttCycles(cfg.latency)
  {
    MulMono(0, j, cfg.dataDepth);
    if j > 0 {
      assert j * cfg.dataDepth == (j - 1) * cfg.dataDepth + cfg.dataDepth;
      MulMono(0, j - 1, cfg.dataDepth);
      RoundTrips(cfg, n, j - 1);
      RoundTripPerSlot(cfg, (Some(()), None), Greedy(n));
    }
  }

  lemma ShallowPace(cfg: Config)
    requires cfg.Valid() && cfg.dataDepth < BdpPackets(cfg.latency, cfg.rate)
    ensures Pace(cfg.dataDepth, CreditRttCycles(cfg.latency)).Feasible(cfg)
  {
    var d, rtt := cfg.dataDepth, CreditRttCycles(cfg.latency);
    BdpCovers(cfg.latency, cfg.rate, d);
    MulMono(cfg.rate.num, cfg.rate.den, rtt);
    if d > rtt {
      MulMono(rtt, d, cfg.rate.den);
      assert false;
    }
  }

  /** Too shallow for the bandwidth-delay product, the link delivers exactly `depth` packets per round trip. */
  lemma ShallowRate(cfg: Config, n: nat, j: nat)
    requires cfg.Valid() && cfg.dataDepth < BdpPackets(cfg.latency, cfg.rate)
    ensures j * cfg.dataDepth >= 0
    ensures var at := GreedyRun(cfg, n).data.at;
            && (n >= FirstDelivery(cfg) + j * CreditRttCycles(cfg.latency) ==> |at| > j * cfg.dataDepth)
            && (|at| > j * cfg.dataDepth ==> at[j * cfg.dataDepth] == at[0] + j * CreditRttCycles(cfg.latency))
  {
    var d, rtt := cfg.dataDepth, CreditRttCycles(cfg.latency);
    MulMono(0, j, d);
    MulMono(0, j, rtt);
    ShallowPace(cfg);
    Sustains(cfg, Pace(d, rtt), j * d, n);
    MulSwap(j, d, rtt);
    CeilDivExact(j * rtt, d);
    if |GreedyRun(cfg, n).data.at| > j * d {
      RoundTrips(cfg, n, j);
    }
  }

  /** At the bandwidth-delay depth, packet `k` is out within `ceil(k * den / num)` cycles of the first. */
  lemma BdpSustainsRate(cfg: Config, k: nat, n: nat)
    requires cfg.Valid() && cfg.dataDepth >= BdpPackets(cfg.latency, cfg.rate)
    ensures k * cfg.rate.den >= 0
    ensures var at := GreedyRun(cfg, n).data.at;
            var due := CeilDiv(k * cfg.rate.den, cfg.rate.num);
            && (n >= FirstDelivery(cfg) + due ==> |at| > k)
            && (|at| > k ==> at[k] <= at[0] + due)
  {
    BdpCovers(cfg.latency, cfg.rate, cfg.dataDepth);
    assert cfg.rate.num * cfg.rate.den == cfg.rate.den * cfg.rate.num;
    Sustains(cfg, Pace(cfg.rate.num, cfg.rate.den), k, n);
  }

  /** The nominal schedule: the `k`-th packet after the first arrives within `ceil(k * den / num)` cycles. */
  ghost predicate KeepsNominalRate(cfg: Config)
    requires cfg.Valid()
  {
    forall n: nat, k: nat :: OnNominalSchedule(cfg, n, k)
  }

  ghost predicate OnNominalSchedule(cfg: Config, n: nat, k: nat)
    requires cfg.Valid()
  {
    var at := GreedyRun(cfg, n).data.at;
    k * cfg.rate.den >= 0 && (k < |at| ==> at[k] <= at[0] + CeilDiv(k * cfg.rate.den, cfg.rate.num))
  }

  /** The depth formula is exact: the link keeps its nominal rate if and only if its depth reaches it. */
  lemma BdpIsExact(cfg: Config)
    requires cfg.Valid()
    ensures KeepsNominalRate(cfg) <==> cfg.dataDepth >= BdpPackets(cfg.latency, cfg.rate)
  {
    if cfg.dataDepth >= BdpPackets(cfg.latency, cfg.rate) {
      forall n: nat, k: nat
        ensures OnNominalSchedule(cfg, n, k)
      {
        BdpSustainsRate(cfg, k, n);
      }
    } else {
      MissesSchedule(cfg);
    }
  }

  lemma MissesSchedule(cfg: Config)
    requires cfg.Valid() && cfg.dataDepth < BdpPackets(cfg.latency, cfg.rate)
    ensures var k := cfg.rate.num * cfg.dataDepth;
            var n := FirstDelivery(cfg) + cfg.rate.num * CreditRttCycles(cfg.latency);
            k >= 0 && n >= 0 && !OnNominalSchedule(cfg, n, k)
  {
    var num, den, d, rtt := cfg.rate.num, cfg.rate.den, cfg.dataDepth, CreditRttCycles(cfg.latency);
    BdpCovers(cfg.latency, cfg.rate, d);
    MulMono(0, num, d);
    MulMono(0, num, rtt);
    MulMono(0, d, den);
    var n := FirstDelivery(cfg) + num * rtt;
    ShallowRate(cfg, n, num);
    MulSwap(d, num, den);
    NominalDeadline(num, d, den);
    assert GreedyRun(cfg, n).data.at[num * d] == GreedyRun(cfg, n).data.at[0] + num * rtt;
  }

  lemma NominalDeadline(num: int, d: nat, den: int)
    requires num > 0 && den > 0
    ensures num * d * den >= 0 && CeilDiv(num * d * den, num) == d * den
  {
    MulMono(0, d, den);
    MulSwap(num, d, den);
    assert num * d * den == d * den * num;
    CeilDivExact(d * den, num);
  }
}
