/** The ranks' plans fit together: matching transfers, one barrier sequence, exact coverage. */
module CollFit {
  import opened Basics
  import opened CollTypes
  import opened CollPlan

  // ---- Matching -------------------------------------------------------------------------------

  function Between(script: seq<Event>, s: int, t: int): seq<Event> {
    if script == [] then []
    else
      var e := script[|script| - 1];
      Between(script[..|script| - 1], s, t) + if e.Transfer? && e.src == s && e.dst == t then [e] else []
  }

  function SendsTo(plan: seq<Action>, t: int): seq<Action> {
    if plan == [] then []
    else
      var a := plan[|plan| - 1];
      SendsTo(plan[..|plan| - 1], t) + if a.Send? && a.peer == t then [a] else []
  }

  function RecvsFrom(plan: seq<Action>, s: int): seq<Action> {
    if plan == [] then []
    else
      var a := plan[|plan| - 1];
      RecvsFrom(plan[..|plan| - 1], s) + if a.Recv? && a.peer == s then [a] else []
  }

  predicate Transfers(es: seq<Event>) {
    forall i :: 0 <= i < |es| ==> es[i].Transfer?
  }

  function Outgoing(es: seq<Event>): seq<Action>
    requires Transfers(es)
  {
    seq(|es|, i requires 0 <= i < |es| => Send(es[i].phase, es[i].dst, es[i].bits, es[i].offset))
  }

  function Incoming(es: seq<Event>): seq<Action>
    requires Transfers(es)
  {
    seq(|es|, i requires 0 <= i < |es| => Recv(es[i].phase, es[i].src, es[i].bits, es[i].offset))
  }

  lemma SendsSnoc(plan: seq<Action>, a: Action, t: int)
    ensures SendsTo(plan + [a], t) == SendsTo(plan, t) + if a.Send? && a.peer == t then [a] else []
    ensures RecvsFrom(plan + [a], t) == RecvsFrom(plan, t) + if a.Recv? && a.peer == t then [a] else []
  {
    assert (plan + [a])[..|plan|] == plan;
  }

  lemma PartSends(plan: seq<Action>, e: Event, rank: int, peer: int)
    ensures SendsTo(plan + Part(e, rank), peer) == SendsTo(plan, peer)
              + if e.Transfer? && e.src == rank && e.dst == peer then [Send(e.phase, e.dst, e.bits, e.offset)] else []
    ensures RecvsFrom(plan + Part(e, rank), peer) == RecvsFrom(plan, peer)
              + if e.Transfer? && e.dst == rank && e.src == peer then [Recv(e.phase, e.src, e.bits, e.offset)] else []
  {
    var part := Part(e, rank);
    if |part| == 0 {
      assert plan + part == plan;
    } else if |part| == 1 {
      SendsSnoc(plan, part[0], peer);
    } else {
      SendsSnoc(plan, part[0], peer);
      SendsSnoc(plan + [part[0]], part[1], peer);
      assert plan + part == plan + [part[0]] + [part[1]];
    }
  }

  lemma OutgoingSnoc(es: seq<Event>, e: Event)
    requires Transfers(es) && e.Transfer?
    ensures Transfers(es + [e])
    ensures Outgoing(es + [e]) == Outgoing(es) + [Send(e.phase, e.dst, e.bits, e.offset)]
    ensures Incoming(es + [e]) == Incoming(es) + [Recv(e.phase, e.src, e.bits, e.offset)]
  {
  }

  /**
   * For every pair of ranks, what one plan sends and what the other receives are the same transfers in the
   * same order, with the same phases, sizes and offsets.
   */
  lemma {:induction false} PlansMatch(script: seq<Event>, s: int, t: int)
    ensures Transfers(Between(script, s, t))
    ensures SendsTo(Project(script, s), t) == Outgoing(Between(script, s, t))
    ensures RecvsFrom(Project(script, t), s) == Incoming(Between(script, s, t))
  {
    if script != [] {
      var before, e := script[..|script| - 1], script[|script| - 1];
      PlansMatch(before, s, t);
      MatchNext(Project(before, s), Project(before, t), Between(before, s, t), e, s, t);
    }
  }

  lemma MatchNext(sender: seq<Action>, receiver: seq<Action>, es: seq<Event>, e: Event, s: int, t: int)
    requires Transfers(es) && SendsTo(sender, t) == Outgoing(es) && RecvsFrom(receiver, s) == Incoming(es)
    ensures var es' := es + if e.Transfer? && e.src == s && e.dst == t then [e] else [];
            Transfers(es') && SendsTo(sender + Part(e, s), t) == Outgoing(es')
                && RecvsFrom(receiver + Part(e, t), s) == Incoming(es')
  {
    PartSends(sender, e, s, t);
    PartSends(receiver, e, t, s);
    if e.Transfer? && e.src == s && e.dst == t {
      OutgoingSnoc(es, e);
    } else {
      assert es + [] == es;
    }
  }

  // ---- Barriers -------------------------------------------------------------------------------

  function Barriers(plan: seq<Action>): seq<int> {
    if plan == [] then []
    else Barriers(plan[..|plan| - 1]) + if plan[|plan| - 1].Barrier? then [plan[|plan| - 1].phase] else []
  }

  function Syncs(script: seq<Event>): seq<int> {
    if script == [] then []
    else Syncs(script[..|script| - 1]) + if script[|script| - 1].Sync? then [script[|script| - 1].phase] else []
  }

  lemma BarriersSnoc(plan: seq<Action>, a: Action)
    ensures Barriers(plan + [a]) == Barriers(plan) + if a.Barrier? then [a.phase] else []
  {
    assert (plan + [a])[..|plan|] == plan;
  }

  lemma PartBarriers(plan: seq<Action>, e: Event, rank: int)
    ensures Barriers(plan + Part(e, rank)) == Barriers(plan) + if e.Sync? then [e.phase] else []
  {
    var part := Part(e, rank);
    if |part| == 0 {
      assert plan + part == plan;
    } else if |part| == 1 {
      BarriersSnoc(plan, part[0]);
    } else {
      BarriersSnoc(plan, part[0]);
      BarriersSnoc(plan + [part[0]], part[1]);
      assert plan + part == plan + [part[0]] + [part[1]];
    }
  }

  /** Every rank's plan has the same barriers, in the same order. */
  lemma {:induction false} SharedBarriers(script: seq<Event>, rank: int)
    ensures Barriers(Project(script, rank)) == Syncs(script)
  {
    if script != [] {
      SharedBarriers(script[..|script| - 1], rank);
      PartBarriers(Project(script[..|script| - 1], rank), script[|script| - 1], rank);
    }
  }

  lemma SyncsSnoc(script: seq<Event>, e: Event)
    ensures Syncs(script + [e]) == Syncs(script) + if e.Sync? then [e.phase] else []
  {
    assert (script + [e])[..|script|] == script;
  }

  lemma {:induction false} SyncsConcat(a: seq<Event>, b: seq<Event>)
    ensures Syncs(a + b) == Syncs(a) + Syncs(b)
  {
    if b == [] {
      assert a + b == a;
    } else {
      assert a + b == a + b[..|b| - 1] + [b[|b| - 1]];
      SyncsConcat(a, b[..|b| - 1]);
      SyncsSnoc(a + b[..|b| - 1], b[|b| - 1]);
    }
  }

  function Upto(k: nat): seq<int> {
    seq(k, i => i)
  }

  ghost predicate IsTransfer(f: int -> Event) {
    forall x :: f(x).Transfer?
  }

  lemma {:induction false} FanSyncs(skip: int, k: nat, f: int -> Event)
    requires IsTransfer(f)
    ensures Syncs(Fan(skip, k, f)) == []
  {
    if k > 0 {
      FanSyncs(skip, k - 1, f);
      if k - 1 != skip {
        SyncsSnoc(Fan(skip, k - 1, f), f(k - 1));
      }
    }
  }

  ghost predicate Quiet(turn: int -> seq<Event>) {
    forall x :: Syncs(turn(x)) == []
  }

  lemma {:induction false} TurnsSyncs(k: nat, turn: int -> seq<Event>)
    requires Quiet(turn)
    ensures Syncs(Turns(k, turn)) == Upto(k)
  {
    if k > 0 {
      TurnsSyncs(k - 1, turn);
      SyncsConcat(Turns(k - 1, turn), turn(k - 1));
      SyncsSnoc(Turns(k - 1, turn) + turn(k - 1), Sync(k - 1));
      assert Upto(k) == Upto(k - 1) + [] + [k - 1];
    }
  }

  lemma CollectSyncs(d: Descriptor, k: nat)
    ensures Syncs(Collect(d, k)) == Upto(k)
  {
    forall s
      ensures Syncs(Contribution(d, s)) == []
    {
      if s != d.rootRank {
        SyncsSnoc([], Collected(d, s));
      }
    }
    TurnsSyncs(k, s => Contribution(d, s));
  }

  lemma ExchangeSyncs(d: Descriptor, n: nat, k: nat)
    ensures Syncs(Exchange(d, n, k)) == Upto(k)
  {
    forall s
      ensures Syncs(Turn(d, s, n)) == []
    {
      FanSyncs(s, n, t => Exchanged(d, s, t));
    }
    TurnsSyncs(k, s => Turn(d, s, n));
  }

  /** The barrier phases of each operation. */
  function Phases(d: Descriptor): seq<int> {
    var n := Ranks(d);
    match d.op
    case REDUCE => Upto(n) + [n]
    case REDUCESCATTER => Upto(n) + [n] + [(n + 1) % U16]
    case ALLREDUCE => Upto(n) + [n] + [(n + 1) % U16]
    case P2P => [0]
    case BROADCAST => [0]
    case SCATTER => [0]
    case GATHER => Upto(n)
    case ALLGATHER => Upto(n)
    case ALLTOALL => Upto(n)
  }

  lemma ReductionSyncs(d: Descriptor, n: nat)
    ensures Syncs(Reduction(d, n)) == if d.op == REDUCE then Upto(n) + [n] else Upto(n) + [n] + [(n + 1) % U16]
  {
    var rooted, phase := Rooted(Collect(d, n), d, n), (n + 1) % U16;
    CollectSyncs(d, n);
    SyncsSnoc(Collect(d, n), Reduce(n, d.rootRank));
    SyncsSnoc(Collect(d, n) + [Reduce(n, d.rootRank)], Sync(n));
    assert Collect(d, n) + [Reduce(n, d.rootRank)] + [Sync(n)] == rooted;
    FanSyncs(d.rootRank, n, t => Shared(d, phase, t));
    SyncsConcat(rooted, Spread(d, phase, n));
    SyncsSnoc(rooted + Spread(d, phase, n), Sync(phase));
    assert Upto(n) + [n] + [] == Upto(n) + [n];
  }

  lemma ScriptSyncs(d: Descriptor)
    ensures Syncs(Script(d)) == Phases(d)
  {
    var n := Ranks(d);
    match d.op
    case REDUCE => ReductionSyncs(d, n);
    case REDUCESCATTER => ReductionSyncs(d, n);
    case ALLREDUCE => ReductionSyncs(d, n);
    case P2P =>
      SyncsSnoc([], Transfer(0, 0, 1, d.chunkBits, 0));
      SyncsSnoc([Transfer(0, 0, 1, d.chunkBits, 0)], Sync(0));
    case BROADCAST => SpreadSyncs(d, n);
    case SCATTER => SpreadSyncs(d, n);
    case GATHER => CollectSyncs(d, n);
    case ALLGATHER => ExchangeSyncs(d, n, n);
    case ALLTOALL => ExchangeSyncs(d, n, n);
  }

  lemma SpreadSyncs(d: Descriptor, n: nat)
    ensures Syncs(Spread(d, 0, n) + [Sync(0)]) == [0]
  {
    FanSyncs(d.rootRank, n, t => Shared(d, 0, t));
    SyncsSnoc(Spread(d, 0, n), Sync(0));
  }

  predicate Alternate(phases: seq<int>) {
    forall i :: 0 < i < |phases| ==> phases[i - 1] != phases[i]
  }

  /** Consecutive barriers differ, even where 16-bit phase numbers wrap, so no two live barriers share a key. */
  lemma ConsecutivePhasesDiffer(d: Descriptor, rank: int)
    ensures Alternate(Barriers(Project(Script(d), rank)))
  {
    SharedBarriers(Script(d), rank);
    ScriptSyncs(d);
    PhaseAt(d);
  }

  lemma PhaseAt(d: Descriptor)
    ensures forall i :: 0 <= i < |Phases(d)| ==> Phases(d)[i] == if i < U16 then i else 0
  {
    var n := Ranks(d);
    assert n + 1 < U16 ==> (n + 1) % U16 == n + 1;
  }

  // ---- Coverage -------------------------------------------------------------------------------

  lemma BetweenSnoc(script: seq<Event>, e: Event, s: int, t: int)
    ensures Between(script + [e], s, t) ==
              Between(script, s, t) + if e.Transfer? && e.src == s && e.dst == t then [e] else []
  {
    assert (script + [e])[..|script|] == script;
  }

  lemma {:induction false} BetweenConcat(a: seq<Event>, b: seq<Event>, s: int, t: int)
    ensures Between(a + b, s, t) == Between(a, s, t) + Between(b, s, t)
  {
    if b == [] {
      assert a + b == a;
    } else {
      assert a + b == a + b[..|b| - 1] + [b[|b| - 1]];
      BetweenConcat(a, b[..|b| - 1], s, t);
      BetweenSnoc(a + b[..|b| - 1], b[|b| - 1], s, t);
    }
  }

  /** A fan from `src` reaches each rank but the skipped one once; a fan's events otherwise touch no pair. */
  ghost predicate FansFrom(f: int -> Event, src: int) {
    forall x :: f(x).Transfer? && f(x).src == src && f(x).dst == x
  }

  lemma {:induction false} FanBetween(skip: int, k: nat, f: int -> Event, src: int, s: int, t: int)
    requires FansFrom(f, src)
    ensures Between(Fan(skip, k, f), s, t) == if s == src && 0 <= t < k && t != skip then [f(t)] else []
  {
    if k > 0 {
      FanBetween(skip, k - 1, f, src, s, t);
      if k - 1 != skip {
        BetweenSnoc(Fan(skip, k - 1, f), f(k - 1), s, t);
      }
    }
  }

  /** In its turn a rank only sends. */
  ghost predicate OwnTurn(turn: int -> seq<Event>, s: int, t: int) {
    forall x :: x != s ==> Between(turn(x), s, t) == []
  }

  lemma AfterTurn(before: seq<Event>, turn: seq<Event>, phase: int, s: int, t: int)
    ensures Between(before + turn + [Sync(phase)], s, t) == Between(before, s, t) + Between(turn, s, t)
  {
    BetweenConcat(before, turn, s, t);
    BetweenSnoc(before + turn, Sync(phase), s, t);
  }

  /** A rank whose turn has not come has sent nothing. */
  lemma {:induction false} TurnsBefore(k: nat, turn: int -> seq<Event>, s: int, t: int)
    requires OwnTurn(turn, s, t) && !(0 <= s < k)
    ensures Between(Turns(k, turn), s, t) == []
  {
    if k > 0 {
      TurnsBefore(k - 1, turn, s, t);
      var mine := turn(k - 1);
      assert Between(mine, s, t) == [];
      AfterTurn(Turns(k - 1, turn), mine, k - 1, s, t);
    }
  }

  lemma {:induction false} TurnsBetween(k: nat, turn: int -> seq<Event>, s: int, t: int)
    requires OwnTurn(turn, s, t) && 0 <= s < k
    ensures Between(Turns(k, turn), s, t) == Between(turn(s), s, t)
  {
    var mine := turn(k - 1);
    AfterTurn(Turns(k - 1, turn), mine, k - 1, s, t);
    if s == k - 1 {
      TurnsBefore(k - 1, turn, s, t);
      Unit(Between(mine, s, t));
    } else {
      TurnsBetween(k - 1, turn, s, t);
      assert Between(mine, s, t) == [];
      Unit(Between(turn(s), s, t));
    }
  }

  lemma CollectBetween(d: Descriptor, k: nat, s: int, t: int)
    ensures Between(Collect(d, k), s, t) ==
              if 0 <= s < k && s != d.rootRank && t == d.rootRank then [Collected(d, s)] else []
  {
    forall x
      ensures Between(Contribution(d, x), s, t) ==
                if x == s && s != d.rootRank && t == d.rootRank then [Collected(d, s)] else []
    {
      if x != d.rootRank {
        BetweenSnoc([], Collected(d, x), s, t);
      }
    }
    if 0 <= s < k {
      TurnsBetween(k, x => Contribution(d, x), s, t);
    } else {
      TurnsBefore(k, x => Contribution(d, x), s, t);
    }
  }

  lemma ExchangeBetween(d: Descriptor, n: nat, k: nat, s: int, t: int)
    ensures Between(Exchange(d, n, k), s, t) == if 0 <= s < k && 0 <= t < n && s != t then [Exchanged(d, s, t)] else []
  {
    forall x
      ensures Between(Turn(d, x, n), s, t) == if x == s && 0 <= t < n && t != s then [Exchanged(d, s, t)] else []
    {
      FanBetween(x, n, y => Exchanged(d, x, y), x, s, t);
    }
    if 0 <= s < k {
      TurnsBetween(k, x => Turn(d, x, n), s, t);
    } else {
      TurnsBefore(k, x => Turn(d, x, n), s, t);
    }
  }

  lemma SpreadBetween(d: Descriptor, phase: int, k: nat, s: int, t: int)
    ensures Between(Spread(d, phase, k), s, t) ==
              if 0 <= t < k && t != d.rootRank && s == d.rootRank then [Shared(d, phase, t)] else []
  {
    FanBetween(d.rootRank, k, x => Shared(d, phase, x), d.rootRank, s, t);
  }

  /** Which ordered pairs of ranks an operation has to connect. */
  predicate Connects(d: Descriptor, s: int, t: int) {
    match d.op
    case P2P => s == 0 && t == 1
    case BROADCAST => s == d.rootRank && t != s
    case SCATTER => s == d.rootRank && t != s
    case GATHER => t == d.rootRank && t != s
    case REDUCE => t == d.rootRank && t != s
    case REDUCESCATTER => s != t && (s == d.rootRank || t == d.rootRank)
    case ALLREDUCE => s != t && (s == d.rootRank || t == d.rootRank)
    case ALLGATHER => s != t
    case ALLTOALL => s != t
  }

  predicate Inside(d: Descriptor, s: int, t: int) {
    0 <= s < Ranks(d) && 0 <= t < Ranks(d)
  }

  /**
   * The one transfer between two connected ranks. A gathered or exchanged chunk lies at its source's stride, a
   * scattered or swapped one at its destination's; a reduced result is cut in slices, the first ranks taking one
   * element more.
   */
  function Expected(d: Descriptor, s: int, t: int): Event
    requires Inside(d, s, t) && d.count >= 0
  {
    var n := |d.group| % U16;
    var each, more := d.count / n, d.count % n;
    match d.op
    case P2P => Transfer(0, 0, 1, d.chunkBits, 0)
    case BROADCAST => Transfer(0, d.rootRank, t, d.chunkBits, 0)
    case SCATTER => Transfer(0, d.rootRank, t, d.chunkBits, t * d.strideBits % U64)
    case GATHER => Transfer(s, s, d.rootRank, d.chunkBits, s * d.strideBits % U64)
    case ALLGATHER => Transfer(s, s, t, d.chunkBits, s * d.strideBits % U64)
    case ALLTOALL => Transfer(s, s, t, d.chunkBits, t * d.strideBits % U64)
    case REDUCE => Transfer(s, s, d.rootRank, d.chunkBits, 0)
    case ALLREDUCE =>
      if s == d.rootRank then Transfer((n + 1) % U16, s, t, d.chunkBits, 0) else Transfer(s, s, t, d.chunkBits, 0)
    case REDUCESCATTER =>
      if s != d.rootRank then Transfer(s, s, t, d.chunkBits, 0)
      else if t < more then
        Transfer((n + 1) % U16, s, t, (each + 1) * DTypeBits(d.dtype) % U64, t * (each + 1) * DTypeBits(d.dtype) % U64)
      else
        Transfer((n + 1) % U16, s, t, each * DTypeBits(d.dtype) % U64, (t * each + more) * DTypeBits(d.dtype) % U64)
  }

  lemma RootedBetween(before: seq<Event>, d: Descriptor, n: nat, s: int, t: int)
    ensures Between(Rooted(before, d, n), s, t) == Between(before, s, t)
  {
    BetweenSnoc(before, Reduce(n, d.rootRank), s, t);
    BetweenSnoc(before + [Reduce(n, d.rootRank)], Sync(n), s, t);
    assert before + [Reduce(n, d.rootRank)] + [Sync(n)] == Rooted(before, d, n);
    Unit(Between(before, s, t));
  }

  lemma ReductionBetween(d: Descriptor, n: nat, s: int, t: int)
    ensures Between(Reduction(d, n), s, t) ==
              Between(Collect(d, n), s, t) + if d.op == REDUCE then [] else Between(Spread(d, (n + 1) % U16, n), s, t)
  {
    var rooted, phase := Rooted(Collect(d, n), d, n), (n + 1) % U16;
    RootedBetween(Collect(d, n), d, n, s, t);
    if d.op == REDUCE {
      Unit(Between(Collect(d, n), s, t));
    } else {
      AfterTurn(rooted, Spread(d, phase, n), phase, s, t);
    }
  }

  /** Exactly the expected transfer between two ranks the operation connects, and none between others. */
  predicate PairServed(d: Descriptor, s: int, t: int)
    requires d.count >= 0
  {
    Between(Script(d), s, t) == if Inside(d, s, t) && Connects(d, s, t) then [Expected(d, s, t)] else []
  }

  lemma ScriptBetween(d: Descriptor, s: int, t: int)
    requires d.count >= 0 && (Inside(d, s, t) || (Ranks(d) == 0 && d.op != P2P && d.rootRank >= 0))
    ensures PairServed(d, s, t)
  {
    if IsReduction(d.op) {
      ReducedPairs(d, Ranks(d), s, t);
      ReductionServed(d, s, t);
    } else if d.op == BROADCAST || d.op == SCATTER {
      SpreadPairs(d, Ranks(d), s, t);
    } else if d.op == ALLGATHER || d.op == ALLTOALL {
      ExchangeBetween(d, Ranks(d), Ranks(d), s, t);
    } else if d.op == GATHER {
      CollectBetween(d, Ranks(d), s, t);
    } else {
      BetweenSnoc([], Transfer(0, 0, 1, d.chunkBits, 0), s, t);
      BetweenSnoc([Transfer(0, 0, 1, d.chunkBits, 0)], Sync(0), s, t);
      PeerServed(d, s, t);
    }
  }

  lemma PeerServed(d: Descriptor, s: int, t: int)
    requires d.op == P2P && Inside(d, s, t) && d.count >= 0
    requires Between([Transfer(0, 0, 1, d.chunkBits, 0)] + [Sync(0)], s, t) ==
               if s == 0 && t == 1 then [Transfer(0, 0, 1, d.chunkBits, 0)] else []
    ensures PairServed(d, s, t)
  {
    assert Script(d) == [Transfer(0, 0, 1, d.chunkBits, 0)] + [Sync(0)];
  }

  lemma ReductionServed(d: Descriptor, s: int, t: int)
    requires IsReduction(d.op) && (Inside(d, s, t) || (Ranks(d) == 0 && d.rootRank >= 0)) && d.count >= 0
    requires Between(Reduction(d, Ranks(d)), s, t) == ReducedPair(d, Ranks(d), s, t)
    ensures PairServed(d, s, t)
  {
    assert Script(d) == Reduction(d, Ranks(d));
    if d.op == REDUCESCATTER && Inside(d, s, t) {
      SliceIs(d, t);
    }
  }

  lemma SliceIs(d: Descriptor, t: int)
    requires d.op == REDUCESCATTER && 0 <= t < Ranks(d) && d.count >= 0
    ensures var n, w := Ranks(d), DTypeBits(d.dtype);
            var each, more := d.count / n, d.count % n;
            Share(d, t) == if t < more then ((each + 1) * w % U64, t * (each + 1) * w % U64)
                           else (each * w % U64, (t * each + more) * w % U64)
  {
    var each, more := d.count / Ranks(d), d.count % Ranks(d);
    assert t * (each + 1) == t * each + t;
  }

  function ReducedPair(d: Descriptor, n: nat, s: int, t: int): seq<Event> {
    if 0 <= s < n && s != d.rootRank && t == d.rootRank then [Collected(d, s)]
    else if d.op != REDUCE && 0 <= t < n && t != d.rootRank && s == d.rootRank then [Shared(d, (n + 1) % U16, t)]
    else []
  }

  lemma SpreadPairs(d: Descriptor, n: nat, s: int, t: int)
    ensures Between(Spread(d, 0, n) + [Sync(0)], s, t) ==
              if 0 <= t < n && t != d.rootRank && s == d.rootRank then [Shared(d, 0, t)] else []
  {
    SpreadBetween(d, 0, n, s, t);
    BetweenSnoc(Spread(d, 0, n), Sync(0), s, t);
  }

  lemma ReducedPairs(d: Descriptor, n: nat, s: int, t: int)
    requires IsReduction(d.op)
    ensures Between(Reduction(d, n), s, t) == ReducedPair(d, n, s, t)
  {
    CollectBetween(d, n, s, t);
    SpreadBetween(d, (n + 1) % U16, n, s, t);
    ReductionBetween(d, n, s, t);
  }

  /**
   * Each pair an operation must connect is served by exactly one send and one matching receive, and no
   * other pair by any: in ALLGATHER and ALLTOALL, every ordered pair of distinct ranks once. Phase, size and
   * offset are those the descriptor's fields give.
   */
  lemma CoversExactly(d: Descriptor, s: int, t: int)
    requires Inside(d, s, t) && d.count >= 0
    ensures SendsTo(Project(Script(d), s), t) == if Connects(d, s, t) then Outgoing([Expected(d, s, t)]) else []
    ensures RecvsFrom(Project(Script(d), t), s) == if Connects(d, s, t) then Incoming([Expected(d, s, t)]) else []
  {
    PlansMatch(Script(d), s, t);
    ScriptBetween(d, s, t);
  }

  ghost predicate Covers(d: Descriptor) {
    forall s, t :: 0 <= s < |d.group| && 0 <= t < |d.group| && Connects(d, s, t) ==>
        |SendsTo(Project(Script(d), s), t)| == 1
  }

  /** The 16-bit rank count is the one limit: a full group of 65536 cores counts as none, and only that one. */
  lemma CoversIff(d: Descriptor)
    requires d.Typed() && PlanCheck(d, d.selfRank) == Passed
    ensures Covers(d) <==> |d.group| < U16
  {
    GroupSize(d);
    if |d.group| < U16 {
      forall s, t | 0 <= s < |d.group| && 0 <= t < |d.group| && Connects(d, s, t)
        ensures |SendsTo(Project(Script(d), s), t)| == 1
      {
        CoversExactly(d, s, t);
      }
    } else {
      var other := if d.rootRank == 0 then 1 else 0;
      var (s, t) := if Connects(d, d.rootRank, other) then (d.rootRank, other) else (other, d.rootRank);
      FullGroupSilent(d, s, t);
      assert Connects(d, s, t);
    }
  }

  lemma FullGroupSilent(d: Descriptor, s: int, t: int)
    requires d.count >= 0 && |d.group| == U16 && d.op != P2P && d.rootRank >= 0
    ensures SendsTo(Project(Script(d), s), t) == []
  {
    PlansMatch(Script(d), s, t);
    ScriptBetween(d, s, t);
  }

  /** A group that is left uncovered. */
  lemma EveryCoreUncovered()
    ensures PlanCheck(EveryCore(), 0) == Passed && !Covers(EveryCore())
  {
    EveryCoreValid();
    CoversIff(EveryCore());
  }

  // ---- ReduceScatter slices -------------------------------------------------------------------

  /** The scattered slices and the root's own tile the reduced chunk: nothing wraps, overlaps or is left over. */
  lemma SlicesTile(d: Descriptor, r: nat)
    requires d.Typed() && PlanCheck(d, d.selfRank) == Passed && d.op == REDUCESCATTER && r < Ranks(d)
    ensures Share(d, 0).1 == 0
    ensures var (bits, at) := Share(d, r);
            && 0 <= bits && 0 <= at && at + bits <= d.chunkBits
            && (r + 1 < Ranks(d) ==> Share(d, r + 1).1 == at + bits)
            && (r + 1 == Ranks(d) ==> at + bits == d.chunkBits)
  {
    SliceExact(d, 0);
    SliceExact(d, r);
    PartsTile(d.count, Ranks(d), r);
    var (n, at) := RankCountOffset(d.count, Ranks(d), r);
    Distribute(at, n, DTypeBits(d.dtype));
    if r + 1 < Ranks(d) {
      SliceExact(d, r + 1);
    }
  }

  lemma Distribute(a: int, b: int, c: int)
    ensures (a + b) * c == a * c + b * c
  {
  }

  lemma SliceExact(d: Descriptor, r: nat)
    requires d.Typed() && PlanCheck(d, d.selfRank) == Passed && d.op == REDUCESCATTER && r < Ranks(d)
    ensures var (n, at) := RankCountOffset(d.count, Ranks(d), r);
            && Share(d, r) == (n * DTypeBits(d.dtype), at * DTypeBits(d.dtype))
            && 0 <= Share(d, r).0 && 0 <= Share(d, r).1 && Share(d, r).0 + Share(d, r).1 <= d.chunkBits
  {
    PartsTile(d.count, Ranks(d), r);
    var (n, at) := RankCountOffset(d.count, Ranks(d), r);
    var w := DTypeBits(d.dtype);
    MulMono(at + n, d.count, w);
    MulMono(0, n, w);
    MulMono(0, at, w);
    Distribute(at, n, w);
    SmallMod(n * w, U64);
    SmallMod(at * w, U64);
  }
}
