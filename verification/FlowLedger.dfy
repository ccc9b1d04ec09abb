/** The reservation ledger of one whole-flow store-and-forward buffer. */
module FlowLedger {
  /** A flow on the wire: the sending core, its tag, and the stripe of a striped transfer. */
  datatype FlowKey = FlowKey(source: int, tag: int, subflow: int)

  datatype Status = Admitted | InvalidFlowSize | DuplicateFlow | InsufficientCapacity

  datatype Ledger = Ledger(capacity: int, reserved: int, reservations: map<FlowKey, int>) {
    function Available(): int {
      capacity - reserved
    }

    function ReservedFor(key: FlowKey): int {
      if key in reservations then reservations[key] else 0
    }

    /** The checks of a reservation, in the source's order. */
    function Admission(key: FlowKey, packets: int): Status {
      if packets <= 0 then InvalidFlowSize
      else if key in reservations then DuplicateFlow
      else if packets > Available() then InsufficientCapacity
      else Admitted
    }

    function Add(key: FlowKey, packets: int): Ledger {
      Ledger(capacity, reserved + packets, reservations[key := packets])
    }

    function Remove(key: FlowKey): Ledger
      requires key in reservations
    {
      Ledger(capacity, reserved - reservations[key], reservations - {key})
    }

    /** The running total is the sum of the reservations, each is positive, and the buffer can hold them all. */
    ghost predicate Valid() {
      && (forall k :: k in reservations ==> reservations[k] > 0)
      && reserved == Sum(reservations)
      && reserved <= capacity
    }
  }

  /** Why a flow is refused: no packets, a key in use, or more than the capacity less what is reserved. */
  lemma AdmissionIs(l: Ledger, key: FlowKey, packets: int)
    requires l.Valid()
    ensures var answer, room := l.Admission(key, packets), Sum(l.reservations) + packets <= l.capacity;
            && (answer == InvalidFlowSize <==> packets <= 0)
            && (answer == DuplicateFlow <==> packets > 0 && key in l.reservations)
            && (answer == InsufficientCapacity <==> packets > 0 && key !in l.reservations && !room)
            && (answer == Admitted <==> packets > 0 && key !in l.reservations && room)
  {
  }

  function EmptyLedger(capacity: int): Ledger {
    Ledger(capacity, 0, map[])
  }

  ghost function Sum<K>(m: map<K, int>): int {
    if m == map[] then 0
    else
      var k :| k in m;
      m[k] + Sum(m - {k})
  }

  lemma {:induction false} SumRemove<K>(m: map<K, int>, k: K)
    requires k in m
    ensures Sum(m) == m[k] + Sum(m - {k})
    decreases |m|
  {
    var c :| c in m && Sum(m) == m[c] + Sum(m - {c});
    if c != k {
      SumRemove(m - {c}, k);
      SumRemove(m - {k}, c);
      assert m - {c} - {k} == m - {k} - {c};
    }
  }

  lemma SumAdd<K>(m: map<K, int>, k: K, v: int)
    requires k !in m
    ensures Sum(m[k := v]) == Sum(m) + v
  {
    SumRemove(m[k := v], k);
    assert m[k := v] - {k} == m;
  }

  lemma SumUpdate<K>(m: map<K, int>, k: K, v: int)
    requires k in m
    ensures Sum(m[k := v]) == Sum(m) - m[k] + v
  {
    SumRemove(m, k);
    SumRemove(m[k := v], k);
    assert m[k := v] - {k} == m - {k};
  }

  /** Sums respect domination: fewer keys with smaller values total no more. */
  lemma {:induction false} SumDominated<K>(m: map<K, int>, bound: map<K, int>)
    requires forall k :: k in m ==> k in bound && m[k] <= bound[k]
    requires forall k :: k in bound ==> bound[k] >= 0
    ensures Sum(m) <= Sum(bound)
    decreases |bound|
  {
    if bound == map[] {
      assert m == map[];
    } else {
      var k :| k in bound;
      SumRemove(bound, k);
      if k in m {
        SumRemove(m, k);
        SumDominated(m - {k}, bound - {k});
      } else {
        SumDominated(m, bound - {k});
      }
    }
  }

  /** And strictly less, if one key has strictly less. */
  lemma SumStrict(m: map<FlowKey, int>, bound: map<FlowKey, int>, key: FlowKey)
    requires forall k :: k in m ==> k in bound && m[k] <= bound[k]
    requires forall k :: k in bound ==> bound[k] > 0
    requires key in bound && (key in m ==> m[key] < bound[key])
    ensures Sum(m) < Sum(bound)
  {
    SumRemove(bound, key);
    if key in m {
      SumRemove(m, key);
      SumDominated(m - {key}, bound - {key});
    } else {
      SumDominated(m, bound - {key});
    }
  }

  lemma AddKeepsValid(l: Ledger, key: FlowKey, packets: int)
    requires l.Valid() && l.Admission(key, packets) == Admitted
    ensures l.Add(key, packets).Valid()
  {
    SumAdd(l.reservations, key, packets);
  }

  lemma RemoveKeepsValid(l: Ledger, key: FlowKey)
    requires l.Valid() && key in l.reservations
    ensures l.Remove(key).Valid()
  {
    SumRemove(l.reservations, key);
  }

  /** Releasing what was just reserved restores the ledger exactly. */
  lemma RemoveUndoesAdd(l: Ledger, key: FlowKey, packets: int)
    requires key !in l.reservations
    ensures l.Add(key, packets).Remove(key) == l
  {
    assert l.reservations[key := packets] - {key} == l.reservations;
  }

  /** The source's ledger object. */
  class WholeFlowSafAdmission {
    var capacity: int
    var reserved: int
    var reservations: map<FlowKey, int>

    ghost function Abs(): Ledger
      reads this
    {
      Ledger(capacity, reserved, reservations)
    }

    constructor (c: int)
      requires c >= 0
      ensures Abs() == EmptyLedger(c) && Abs().Valid()
    {
      capacity, reserved, reservations := c, 0, map[];
    }

    /** A refused flow leaves the ledger untouched; an admitted one is recorded whole. */
    method Reserve(key: FlowKey, packets: int) returns (status: Status, availableBefore: int)
      requires Abs().Valid()
      modifies this
      ensures Abs().Valid()
      ensures availableBefore == old(Abs()).Available()
      ensures status == old(Abs()).Admission(key, packets)
      ensures Abs() == if status == Admitted then old(Abs()).Add(key, packets) else old(Abs())
    {
      ghost var before := Abs();
      availableBefore := capacity - reserved;
      if packets <= 0 {
        return InvalidFlowSize, availableBefore;
      }
      if key in reservations {
        return DuplicateFlow, availableBefore;
      }
      if packets > availableBefore {
        return InsufficientCapacity, availableBefore;
      }
      AddKeepsValid(before, key, packets);
      reservations := reservations[key := packets];
      reserved := reserved + packets;
      status := Admitted;
    }

    /** Release gives back the recorded count; the underflow the source guards against cannot happen. */
    method Release(key: FlowKey) returns (released: bool, packets: int)
      requires Abs().Valid()
      modifies this
      ensures Abs().Valid() && reserved >= 0
      ensures released == (key in old(Abs()).reservations)
      ensures packets == old(Abs()).ReservedFor(key)
      ensures Abs() == if released then old(Abs()).Remove(key) else old(Abs())
    {
      if key !in reservations {
        SumNonNegative(reservations);
        return false, 0;
      }
      RemoveKeepsValid(Abs(), key);
      packets := reservations[key];
      reservations := reservations - {key};
      reserved := reserved - packets;
      SumNonNegative(reservations);
      released := true;
    }
  }

  lemma SumNonNegative<K>(m: map<K, int>)
    requires forall k :: k in m ==> m[k] > 0
    ensures Sum(m) >= 0
  {
    SumDominated(map[], m);
  }
}
