/** The collective barrier: arrivals gather in a table entry, the last opens it, the last to leave erases it. */
module Barrier {
  import opened Basics
  import opened CollTypes

  datatype BarrierKey = BarrierKey(key: CollectiveKey, phase: int)

  datatype BarrierState = BarrierState(expected: int, arrived: set<int>, departed: int, tree: int)

  type Table = map<BarrierKey, BarrierState>

  datatype Arrival = Waits | Passes | BadRank | SizeMismatch | TreeMismatch | DuplicateArrival

  function Slot(table: Table, k: BarrierKey, size: int, tree: int): BarrierState {
    if k in table then table[k] else BarrierState(size, {}, 0, tree)
  }

  function ArrivalOutcome(table: Table, k: BarrierKey, rank: int, size: int, tree: int): Arrival {
    var slot := Slot(table, k, size, tree);
    if size == 0 || rank >= size then BadRank
    else if slot.expected != size then SizeMismatch
    else if slot.tree != tree then TreeMismatch
    else if rank in slot.arrived then DuplicateArrival
    else if |slot.arrived + {rank}| == slot.expected then Passes
    else Waits
  }

  /** The table once the rank is counted in. */
  function Joined(table: Table, k: BarrierKey, rank: int, size: int, tree: int): Table {
    var slot := Slot(table, k, size, tree);
    table[k := slot.(arrived := slot.arrived + {rank})]
  }

  /** The table once a released rank has gone on; the last one out removes the entry. */
  function Departed(table: Table, k: BarrierKey): Table
    requires k in table
  {
    var slot := table[k];
    if slot.departed + 1 == slot.expected then table - {k} else table[k := slot.(departed := slot.departed + 1)]
  }

  /**
   * Each answer to an arrival: a rank outside the group, a size or tree that differs from the entry's, a second
   * arrival, and otherwise passage for the last rank expected and a wait for all others. The first arrival makes
   * the entry.
   */
  lemma ArrivalIs(table: Table, k: BarrierKey, rank: int, size: int, tree: int)
    ensures var answer, known := ArrivalOutcome(table, k, rank, size, tree), k in table;
            var inside := size != 0 && rank < size;
            var alike := known ==> table[k].expected == size && table[k].tree == tree;
            var again := known && rank in table[k].arrived;
            var before := if known then |table[k].arrived| else 0;
            && (answer == BadRank <==> !inside)
            && (answer == SizeMismatch <==> inside && known && table[k].expected != size)
            && (answer == TreeMismatch <==> inside && known && table[k].expected == size && table[k].tree != tree)
            && (answer == DuplicateArrival <==> inside && alike && again)
            && (answer == Passes <==> inside && alike && !again && before + 1 == size)
            && (answer == Waits <==> inside && alike && !again && before + 1 != size)
  {
  }

  /** What an arrival and a departure leave in the table; no other barrier's entry is touched. */
  lemma TablesAre(table: Table, k: BarrierKey, rank: int, size: int, tree: int, other: BarrierKey)
    requires other != k
    ensures var joined := Joined(table, k, rank, size, tree);
            && k in joined && rank in joined[k].arrived
            && (k !in table ==> joined[k] == BarrierState(size, {rank}, 0, tree))
            && (k in table ==> joined[k] == table[k].(arrived := table[k].arrived + {rank}))
            && (other in joined <==> other in table) && (other in table ==> joined[other] == table[other])
    ensures k in table ==>
              var left := Departed(table, k);
              && (k in left <==> table[k].departed + 1 != table[k].expected)
              && (k in left ==> left[k] == table[k].(departed := table[k].departed + 1))
              && (other in left <==> other in table) && (other in table ==> left[other] == table[other])
  {
  }

  predicate Open(table: Table, k: BarrierKey) {
    k in table && |table[k].arrived| == table[k].expected
  }

  /** The process-wide barrier map. A call that must wait is resumed by `Resume` once its entry is open. */
  class BarrierRuntime {
    var states: Table

    constructor ()
      ensures states == map[]
    {
      states := map[];
    }

    /** Everything up to the wait; the last arrival does not wait. */
    method WaitCollectiveBarrier(k: BarrierKey, rank: int, size: int, tree: int) returns (outcome: Arrival)
      modifies this
      ensures outcome == ArrivalOutcome(old(states), k, rank, size, tree)
      ensures outcome == Waits ==> states == Joined(old(states), k, rank, size, tree)
      ensures outcome == Passes ==> states == Departed(Joined(old(states), k, rank, size, tree), k)
      ensures outcome != Waits && outcome != Passes ==> states == old(states)
    {
      if size == 0 || rank >= size {
        return BadRank;
      }
      if k !in states {
        states := states[k := BarrierState(size, {}, 0, tree)];
      } else if states[k].expected != size {
        return SizeMismatch;
      } else if states[k].tree != tree {
        return TreeMismatch;
      }
      var slot := states[k];
      if rank in slot.arrived {
        return DuplicateArrival;
      }
      states := states[k := slot.(arrived := slot.arrived + {rank})];
      assert states == Joined(old(states), k, rank, size, tree);
      if |states[k].arrived| == states[k].expected {
        Resume(k);
        return Passes;
      }
      outcome := Waits;
    }

    method Resume(k: BarrierKey)
      requires k in states
      modifies this
      ensures states == Departed(old(states), k)
    {
      var slot := states[k];
      slot := slot.(departed := slot.departed + 1);
      if slot.departed == slot.expected {
        states := states - {k};
      } else {
        states := states[k := slot];
      }
    }
  }

  // ---- The protocol ---------------------------------------------------------------------------

  /** All ranks of one collective call the same barriers in the same order. */
  datatype Party = Party(key: CollectiveKey, phases: seq<int>, size: nat, tree: int) {
    predicate Valid() {
      size > 0 && forall i :: 0 < i < |phases| ==> phases[i - 1] != phases[i]
    }
    function At(b: nat): BarrierKey
      requires b < |phases|
    {
      BarrierKey(key, phases[b])
    }
  }

  /** How many barriers each rank has passed, and whether it is waiting at the next. */
  datatype Crowd = Crowd(passed: seq<nat>, waiting: seq<bool>)

  function Reached(c: Crowd, r: nat): nat
    requires r < |c.passed| && r < |c.waiting|
  {
    c.passed[r] + if c.waiting[r] then 1 else 0
  }

  predicate Sized(p: Party, c: Crowd) {
    |c.passed| == |c.waiting| == p.size
  }

  function Arrivals(p: Party, c: Crowd, b: nat): set<int>
    requires Sized(p, c)
  {
    set r | 0 <= r < p.size && Reached(c, r) > b
  }

  function Departures(p: Party, c: Crowd, b: nat): set<int>
    requires Sized(p, c)
  {
    set r | 0 <= r < p.size && c.passed[r] > b
  }

  /** Someone has arrived and someone has still to leave. */
  predicate Live(p: Party, c: Crowd, b: nat)
    requires Sized(p, c)
  {
    Arrivals(p, c, b) != {} && |Departures(p, c, b)| < p.size
  }

  ghost predicate Together(p: Party, c: Crowd)
    requires Sized(p, c)
  {
    forall q, r :: 0 <= q < p.size && 0 <= r < p.size ==> c.passed[q] <= Reached(c, r)
  }

  ghost predicate InBounds(p: Party, c: Crowd)
    requires Sized(p, c)
  {
    forall r :: 0 <= r < p.size ==> Reached(c, r) <= |p.phases|
  }

  predicate Recorded(p: Party, c: Crowd, table: Table, b: nat)
    requires Sized(p, c) && b < |p.phases|
  {
    p.At(b) in table && table[p.At(b)] == BarrierState(p.size, Arrivals(p, c, b), |Departures(p, c, b)|, p.tree)
  }

  /**
   * No rank passes a barrier before all have arrived at it, and the table holds exactly the live barriers,
   * each with who has arrived and how many have left.
   */
  ghost predicate Orderly(p: Party, c: Crowd, table: Table) {
    && p.Valid() && Sized(p, c) && InBounds(p, c) && Together(p, c)
    && (forall b :: 0 <= b < |p.phases| && Live(p, c, b) ==> Recorded(p, c, table, b))
    && (forall k :: k in table ==> exists b :: 0 <= b < |p.phases| && Live(p, c, b) && k == p.At(b))
  }

  function Everyone(n: nat): (s: set<int>)
    ensures forall r :: r in s <==> 0 <= r < n
    ensures |s| == n
  {
    if n == 0 then {} else Everyone(n - 1) + {n - 1}
  }

  /** At most `size` ranks, and `size` only if it is all of them. */
  lemma AllOrFewer(p: Party, s: set<int>)
    requires forall r :: r in s ==> 0 <= r < p.size
    ensures |s| <= p.size
    ensures |s| == p.size <==> forall r :: 0 <= r < p.size ==> r in s
  {
    SubsetSize(s, Everyone(p.size));
    if forall r :: 0 <= r < p.size ==> r in s {
      assert s == Everyone(p.size);
    }
  }

  /** Two live barriers of one party never share a key, so the next barrier's key is not in use by another. */
  lemma OwnEntry(p: Party, c: Crowd, b: nat, b': nat, r: nat)
    requires p.Valid() && Sized(p, c) && Together(p, c)
    requires b < |p.phases| && b' < |p.phases| && p.At(b) == p.At(b')
    requires Live(p, c, b') && r < p.size && c.passed[r] == b
    ensures b == b'
  {
    var q := Arrived(p, c, b');
    var s := Remaining(p, c, b');
    assert c.passed[r] <= Reached(c, s);
    assert c.passed[q] <= Reached(c, r);
  }

  lemma Arrived(p: Party, c: Crowd, b: nat) returns (q: int)
    requires Sized(p, c) && Arrivals(p, c, b) != {}
    ensures 0 <= q < p.size && Reached(c, q) > b
  {
    q := Pick(Arrivals(p, c, b));
  }

  lemma Remaining(p: Party, c: Crowd, b: nat) returns (s: int)
    requires Sized(p, c) && |Departures(p, c, b)| < p.size
    ensures 0 <= s < p.size && c.passed[s] <= b
  {
    AllOrFewer(p, Departures(p, c, b));
    s :| 0 <= s < p.size && s !in Departures(p, c, b);
  }

  // ---- The two steps --------------------------------------------------------------------------

  function Enters(c: Crowd, r: nat): Crowd
    requires r < |c.waiting|
  {
    c.(waiting := c.waiting[r := true])
  }

  function Leaves(c: Crowd, r: nat): Crowd
    requires r < |c.waiting| && r < |c.passed|
  {
    Crowd(c.passed[r := c.passed[r] + 1], c.waiting[r := false])
  }

  lemma EnterViews(p: Party, c: Crowd, r: nat, b: nat)
    requires Sized(p, c) && r < p.size && !c.waiting[r]
    ensures Sized(p, Enters(c, r))
    ensures Arrivals(p, Enters(c, r), b) == Arrivals(p, c, b) + if c.passed[r] == b then {r} else {}
    ensures Departures(p, Enters(c, r), b) == Departures(p, c, b)
  {
  }

  lemma LeaveViews(p: Party, c: Crowd, r: nat, b: nat)
    requires Sized(p, c) && r < p.size && c.waiting[r]
    ensures Sized(p, Leaves(c, r))
    ensures Arrivals(p, Leaves(c, r), b) == Arrivals(p, c, b)
    ensures Departures(p, Leaves(c, r), b) == Departures(p, c, b) + if c.passed[r] == b then {r} else {}
  {
  }

  /** A rank's next barrier has room for it: nothing but its own party's arrivals, and not itself. */
  lemma SlotIsOwn(p: Party, c: Crowd, table: Table, r: nat)
    requires Orderly(p, c, table) && r < p.size && !c.waiting[r] && c.passed[r] < |p.phases|
    ensures Slot(table, p.At(c.passed[r]), p.size, p.tree)
              == BarrierState(p.size, Arrivals(p, c, c.passed[r]), |Departures(p, c, c.passed[r])|, p.tree)
    ensures r !in Arrivals(p, c, c.passed[r]) && Departures(p, c, c.passed[r]) == {}
  {
    var b := c.passed[r];
    forall q | 0 <= q < p.size
      ensures c.passed[q] <= b
    {
      assert c.passed[q] <= Reached(c, r);
    }
    assert Departures(p, c, b) == {};
    if p.At(b) in table {
      var b' :| 0 <= b' < |p.phases| && Live(p, c, b') && p.At(b) == p.At(b');
      OwnEntry(p, c, b, b', r);
      assert Recorded(p, c, table, b);
    } else {
      assert Live(p, c, b) ==> Recorded(p, c, table, b);
      assert Arrivals(p, c, b) == {};
    }
  }

  /** Entering never fails, and leaves everything in order with the rank counted in. */
  lemma EnterOrderly(p: Party, c: Crowd, table: Table, r: nat)
    requires Orderly(p, c, table) && r < p.size && !c.waiting[r] && c.passed[r] < |p.phases|
    ensures var k := p.At(c.passed[r]);
            && ArrivalOutcome(table, k, r, p.size, p.tree) in {Waits, Passes}
            && Orderly(p, Enters(c, r), Joined(table, k, r, p.size, p.tree))
            && (ArrivalOutcome(table, k, r, p.size, p.tree) == Passes <==> Open(Joined(table, k, r, p.size, p.tree), k))
  {
    var b, c' := c.passed[r], Enters(c, r);
    var k := p.At(b);
    var table' := Joined(table, k, r, p.size, p.tree);
    SlotIsOwn(p, c, table, r);
    EnterTogether(p, c, r);
    EnterViews(p, c, r, b);
    assert r in Arrivals(p, c', b);
    assert Live(p, c', b) && Recorded(p, c', table', b);
    forall x | 0 <= x < |p.phases| && Live(p, c', x)
      ensures Recorded(p, c', table', x)
    {
      if x != b {
        EnterKeepsRecord(p, c, table, r, x);
      }
    }
    forall key | key in table'
      ensures exists x :: 0 <= x < |p.phases| && Live(p, c', x) && key == p.At(x)
    {
      if key != k {
        var x :| 0 <= x < |p.phases| && Live(p, c, x) && key == p.At(x);
        EnterViews(p, c, r, x);
        assert Live(p, c', x);
      }
    }
  }

  lemma EnterKeepsRecord(p: Party, c: Crowd, table: Table, r: nat, x: nat)
    requires Orderly(p, c, table) && r < p.size && !c.waiting[r] && c.passed[r] < |p.phases|
    requires x < |p.phases| && x != c.passed[r] && Live(p, Enters(c, r), x)
    ensures Recorded(p, Enters(c, r), Joined(table, p.At(c.passed[r]), r, p.size, p.tree), x)
  {
    EnterViews(p, c, r, x);
    assert Live(p, c, x) && Recorded(p, c, table, x);
    if p.At(x) == p.At(c.passed[r]) {
      OwnEntry(p, c, c.passed[r], x, r);
    }
  }

  lemma EnterTogether(p: Party, c: Crowd, r: nat)
    requires Sized(p, c) && Together(p, c) && InBounds(p, c) && r < p.size && !c.waiting[r] && c.passed[r] < |p.phases|
    ensures Together(p, Enters(c, r)) && InBounds(p, Enters(c, r))
  {
    forall x, y | 0 <= x < p.size && 0 <= y < p.size
      ensures Enters(c, r).passed[x] <= Reached(Enters(c, r), y)
    {
      assert c.passed[x] <= Reached(c, y);
    }
    forall x | 0 <= x < p.size
      ensures Reached(Enters(c, r), x) <= |p.phases|
    {
      assert Reached(c, x) <= |p.phases|;
    }
  }

  /** An open barrier has everyone in it, so a rank that leaves it overtakes no one. */
  lemma OpenMeansAll(p: Party, c: Crowd, table: Table, r: nat)
    requires Orderly(p, c, table) && r < p.size && c.waiting[r] && c.passed[r] < |p.phases|
               && Open(table, p.At(c.passed[r]))
    ensures Live(p, c, c.passed[r]) && Recorded(p, c, table, c.passed[r])
    ensures forall q :: 0 <= q < p.size ==> Reached(c, q) > c.passed[r]
  {
    var b := c.passed[r];
    var b' :| 0 <= b' < |p.phases| && Live(p, c, b') && p.At(b) == p.At(b');
    OwnEntry(p, c, b, b', r);
    assert Recorded(p, c, table, b);
    AllOrFewer(p, Arrivals(p, c, b));
    forall q | 0 <= q < p.size
      ensures Reached(c, q) > b
    {
      assert q in Arrivals(p, c, b);
    }
  }

  lemma LeaveOrderly(p: Party, c: Crowd, table: Table, r: nat)
    requires Orderly(p, c, table) && r < p.size && c.waiting[r] && c.passed[r] < |p.phases|
               && Open(table, p.At(c.passed[r]))
    ensures Orderly(p, Leaves(c, r), Departed(table, p.At(c.passed[r])))
  {
    var b, c' := c.passed[r], Leaves(c, r);
    var k := p.At(b);
    var table' := Departed(table, k);
    OpenMeansAll(p, c, table, r);
    LeaveTogether(p, c, r);
    LeaveViews(p, c, r, b);
    assert r !in Departures(p, c, b);
    forall x | 0 <= x < |p.phases| && Live(p, c', x)
      ensures Recorded(p, c', table', x)
    {
      if x != b {
        LeaveKeepsRecord(p, c, table, r, x);
      }
    }
    forall key | key in table'
      ensures exists x :: 0 <= x < |p.phases| && Live(p, c', x) && key == p.At(x)
    {
      if key != k {
        var x :| 0 <= x < |p.phases| && Live(p, c, x) && key == p.At(x);
        LeaveViews(p, c, r, x);
        assert Live(p, c', x);
      } else {
        assert Live(p, c', b);
      }
    }
  }

  lemma LeaveKeepsRecord(p: Party, c: Crowd, table: Table, r: nat, x: nat)
    requires Orderly(p, c, table) && r < p.size && c.waiting[r] && c.passed[r] < |p.phases|
               && p.At(c.passed[r]) in table
    requires x < |p.phases| && x != c.passed[r] && Live(p, Leaves(c, r), x)
    ensures Recorded(p, Leaves(c, r), Departed(table, p.At(c.passed[r])), x)
  {
    LeaveViews(p, c, r, x);
    assert Live(p, c, x) && Recorded(p, c, table, x);
    if p.At(x) == p.At(c.passed[r]) {
      OwnEntry(p, c, c.passed[r], x, r);
    }
  }

  lemma LeaveTogether(p: Party, c: Crowd, r: nat)
    requires Sized(p, c) && Together(p, c) && InBounds(p, c) && r < p.size && c.waiting[r]
    requires forall q :: 0 <= q < p.size ==> Reached(c, q) > c.passed[r]
    ensures Together(p, Leaves(c, r)) && InBounds(p, Leaves(c, r))
  {
    var c' := Leaves(c, r);
    assert forall y :: 0 <= y < p.size ==> Reached(c', y) == Reached(c, y);
    forall x, y | 0 <= x < p.size && 0 <= y < p.size
      ensures c'.passed[x] <= Reached(c', y)
    {
      assert c.passed[x] <= Reached(c, y);
    }
  }

  function Assembled(p: Party): Crowd {
    Crowd(seq(p.size, _ => 0), seq(p.size, _ => false))
  }

  lemma StartOrderly(p: Party)
    requires p.Valid()
    ensures Orderly(p, Assembled(p), map[])
  {
    forall b | 0 <= b < |p.phases|
      ensures !Live(p, Assembled(p), b)
    {
      assert Arrivals(p, Assembled(p), b) == {};
    }
  }

  /** When every rank has passed every barrier, no entry is left. */
  lemma EndEmpty(p: Party, c: Crowd, table: Table)
    requires Orderly(p, c, table) && forall r :: 0 <= r < p.size ==> c.passed[r] == |p.phases|
    ensures table == map[]
  {
    forall b | 0 <= b < |p.phases|
      ensures !Live(p, c, b)
    {
      AllOrFewer(p, Departures(p, c, b));
    }
  }
}
