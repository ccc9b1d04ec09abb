/** The router's operand match buffer: one operand from each expected child, then one reduced result. */
module MatchBuffer {
  import opened Basics
  import opened CollTypes
  import opened Reduction
  import FlowLedger

  // ---- The reduction loop ---------------------------------------------------------------------

  datatype ReduceResult = Result(payload: Payload) | UnsupportedReduction | InvalidCount

  lemma AddMod(a: nat, b: nat, m: nat)
    requires m > 0
    ensures (a + b) % m == (a % m + b) % m
  {
    var q, r := (a % m + b) / m, (a % m + b) % m;
    assert a % m + b == q * m + r;
    assert a + b == (a / m + q) * m + r;
    DivUnique(a + b, m, a / m + q, r);
  }

  lemma ModMod(x: nat, m: nat, k: nat)
    requires m > 0 && m * k > 0
    ensures x % (m * k) % m == x % m
  {
    var q, r := x / (m * k), x % (m * k);
    assert x == q * (m * k) + r;
    assert q * (m * k) == q * k * m;
    assert x == (q * k + r / m) * m + r % m;
    DivUnique(x, m, q * k + r / m, r % m);
  }

  /** Adding in 64 bits and masking at the end is adding modulo the lane width throughout. */
  lemma WrapStep(t: DType, acc: nat, v: nat)
    requires t != FP32
    ensures (acc + v) % U64 % Modulus(t) == (acc % Modulus(t) + v) % Modulus(t)
  {
    ModMod(acc + v, Modulus(t), U64 / Modulus(t));
    AddMod(acc, v, Modulus(t));
  }

  /** The accumulator of one lane stands for the fold of the values read so far. */
  predicate Accumulates(values: seq<Payload>, i: nat, t: DType, op: ReduceOp, e: nat, acc: int)
    requires 0 < i <= |values| && (e + 1) * LaneBytes(t) <= 16
  {
    && 0 <= acc < U64
    && acc % Modulus(t) == Fold(t, op, Lanes(values[..i], t, e))
    && (op == MAX ==> InLane(t, acc))
  }

  lemma LanesNext(values: seq<Payload>, i: nat, t: DType, e: nat)
    requires i < |values| && (e + 1) * LaneBytes(t) <= 16
    ensures Lanes(values[..i + 1], t, e) == Lanes(values[..i], t, e) + [Lane(values[i], t, e)]
  {
  }

  lemma SumAccumulates(values: seq<Payload>, i: nat, t: DType, e: nat, acc: nat)
    requires 0 < i < |values| && (e + 1) * LaneBytes(t) <= 16 && t != FP32
    requires Accumulates(values, i, t, SUM, e, acc)
    ensures Accumulates(values, i + 1, t, SUM, e, (acc + Lane(values[i], t, e)) % U64)
  {
    LanesNext(values, i, t, e);
    FoldNext(t, SUM, Lanes(values[..i], t, e), Lane(values[i], t, e));
    WrapStep(t, acc, Lane(values[i], t, e));
  }

  lemma MaxAccumulates(values: seq<Payload>, i: nat, t: DType, e: nat, acc: nat)
    requires 0 < i < |values| && (e + 1) * LaneBytes(t) <= 16
    requires Accumulates(values, i, t, MAX, e, acc)
    ensures Accumulates(values, i + 1, t, MAX, e,
              if Rank(t, Lane(values[i], t, e)) > Rank(t, acc) then Lane(values[i], t, e) else acc)
  {
    LanesNext(values, i, t, e);
    FoldNext(t, MAX, Lanes(values[..i], t, e), Lane(values[i], t, e));
    LaneInLane(values[i], t, e);
    SmallMod(acc, Modulus(t));
    SmallMod(Lane(values[i], t, e), Modulus(t));
  }

  method CombineLane(values: seq<Payload>, t: DType, op: ReduceOp, count: nat, e: nat) returns (acc: nat)
    requires values != [] && Mode(t, op, count) && e < count
    ensures (e + 1) * LaneBytes(t) <= 16
    ensures acc == Fold(t, op, Lanes(values, t, e))
  {
    ModeBytes(t, op, count, e);
    acc := Lane(values[0], t, e);
    LaneInLane(values[0], t, e);
    assert Lanes(values[..1], t, e) == [acc];
    SmallMod(acc, Modulus(t));
    for i := 1 to |values|
      invariant Accumulates(values, i, t, op, e, acc)
    {
      var v := Lane(values[i], t, e);
      if op == SUM {
        SumAccumulates(values, i, t, e, acc);
        acc := (acc + v) % U64;
      } else {
        MaxAccumulates(values, i, t, e, acc);
        if t == UINT8 {
          acc := if acc < v then v else acc;
        } else if Signed(t, v) > Signed(t, acc) {
          acc := v;
        }
      }
    }
    assert values[..|values|] == values;
    if t != INT64 {
      acc := acc % Modulus(t);
    } else {
      SmallMod(acc, Modulus(t));
    }
  }

  /** The lane loop over the payload buffer. */
  method ReduceIntegerOperands(values: seq<Payload>, t: DType, op: ReduceOp, count: nat) returns (r: ReduceResult)
    ensures values == [] || t == FP32 || op == NONE <==> r == UnsupportedReduction
    ensures r != UnsupportedReduction ==> (Mode(t, op, count) <==> r.Result?)
    ensures r.Result? ==> r.payload == Reduce(values, t, op, count)
  {
    if values == [] || t == FP32 || op == NONE {
      return UnsupportedReduction;
    }
    var width := DTypeBits(t);
    if count == 0 || count * width > 128 {
      return InvalidCount;
    }
    var out := ReduceLanes(values, t, op, count);
    r := Result(out);
  }

  lemma FoldedNext(values: seq<Payload>, t: DType, op: ReduceOp, count: nat, e: nat)
    requires values != [] && Mode(t, op, count) && e < count
    ensures (e + 1) * LaneBytes(t) <= 16
    ensures Folded(values, t, op, count)[..e] + [Fold(t, op, Lanes(values, t, e))]
              == Folded(values, t, op, count)[..e + 1]
  {
    ModeBytes(t, op, count, e);
  }

  method ReduceLanes(values: seq<Payload>, t: DType, op: ReduceOp, count: nat) returns (out: Payload)
    requires values != [] && Mode(t, op, count)
    ensures out == Reduce(values, t, op, count)
  {
    out := Zeros(16);
    ghost var vs := Folded(values, t, op, count);
    assert Packed(out, vs[..0], t);
    for e := 0 to count
      invariant Packed(out, vs[..e], t)
    {
      var acc := CombineLane(values, t, op, count, e);
      out := StoreLane(out, t, op, count, e, acc, vs[..e]);
      FoldedNext(values, t, op, count, e);
    }
    assert vs[..count] == vs;
  }

  ghost predicate Packed(out: Payload, vs: seq<nat>, t: DType) {
    |Pack(vs, t)| <= 16 && out == Padded(Pack(vs, t))
  }

  method StoreLane(out: Payload, t: DType, op: ReduceOp, count: nat, e: nat, acc: nat, ghost vs: seq<nat>)
    returns (out': Payload)
    requires Mode(t, op, count) && e < count && |vs| == e && Packed(out, vs, t)
    ensures Packed(out', vs + [acc], t)
  {
    ModeBytes(t, op, count, e);
    var w := LaneBytes(t);
    PackNext(vs, acc, t);
    WriteLane(Pack(vs, t), Digits(acc, w));
    out' := out[..e * w] + Digits(acc, w) + out[(e + 1) * w..];
  }

  lemma PackNext(vs: seq<nat>, v: nat, t: DType)
    ensures Pack(vs + [v], t) == Pack(vs, t) + Digits(v, LaneBytes(t))
  {
    assert (vs + [v])[..|vs|] == vs;
  }

  lemma WriteLane(done: seq<Byte>, lane: seq<Byte>)
    requires |done| + |lane| <= 16
    ensures Padded(done)[..|done|] + lane + Padded(done)[|done| + |lane|..] == Padded(done + lane)
  {
  }

  // ---- The buffer -----------------------------------------------------------------------------

  datatype MatchKey = MatchKey(collective: CollectiveKey, phase: int, chunk: int)

  /** A node's open match. The two sets are the bits of the source's 64-bit child maps. */
  datatype Match = Match(expected: set<int>, received: set<int>, dtype: DType, op: ReduceOp, count: int,
      values: seq<Payload>)

  datatype Buffer = Buffer(headers: nat, capacity: nat, operands: int, matches: map<MatchKey, Match>)

  datatype OpenStatus = Opened | HeadersFull | BadOpen | UnsupportedMode

  datatype Status = Accepted | Ready | Backpressure | Duplicate | Unexpected | Mismatch

  datatype Offer = Offer(key: MatchKey, child: int, dtype: DType, op: ReduceOp, count: int, payload: Payload)

  function OpenOutcome(b: Buffer, key: MatchKey, expected: set<int>, t: DType, op: ReduceOp, count: int): OpenStatus {
    if expected == {} || key in b.matches then BadOpen
    else if !Mode(t, op, count) then UnsupportedMode
    else if |b.matches| == b.headers then HeadersFull
    else Opened
  }

  function Open(b: Buffer, key: MatchKey, expected: set<int>, t: DType, op: ReduceOp, count: int): Buffer {
    if OpenOutcome(b, key, expected, t, op, count) == Opened
    then b.(matches := b.matches[key := Match(expected, {}, t, op, count, [])])
    else b
  }

  function AcceptOutcome(b: Buffer, o: Offer): Status {
    if o.key !in b.matches then Unexpected
    else
      var m := b.matches[o.key];
      if o.child !in m.expected then Unexpected
      else if o.child in m.received then Duplicate
      else if m.dtype != o.dtype || m.op != o.op || m.count != o.count then Mismatch
      else if b.operands == b.capacity then Backpressure
      else if m.received + {o.child} == m.expected then Ready
      else Accepted
  }

  predicate Takes(b: Buffer, o: Offer) {
    AcceptOutcome(b, o) == Accepted || AcceptOutcome(b, o) == Ready
  }

  function Accept(b: Buffer, o: Offer): Buffer {
    if Takes(b, o) then
      var m := b.matches[o.key];
      b.(operands := b.operands + 1,
         matches := b.matches[o.key := m.(received := m.received + {o.child}, values := m.values + [o.payload])])
    else b
  }

  predicate Complete(b: Buffer, key: MatchKey) {
    key in b.matches && b.matches[key].received == b.matches[key].expected
  }

  function Held(matches: map<MatchKey, Match>): map<MatchKey, int> {
    map k | k in matches :: |matches[k].values|
  }

  ghost predicate MatchOk(m: Match) {
    && m.expected != {} && m.received <= m.expected && |m.values| == |m.received|
    && Mode(m.dtype, m.op, m.count)
  }

  /** One stored operand per received child, all counted, within both capacities. */
  ghost predicate Valid(b: Buffer) {
    && (forall k :: k in b.matches ==> MatchOk(b.matches[k]))
    && b.operands == FlowLedger.Sum(Held(b.matches)) && b.operands <= b.capacity
    && |b.matches| <= b.headers
  }

  function Consume(b: Buffer, key: MatchKey): Buffer
    requires key in b.matches
  {
    b.(operands := b.operands - |b.matches[key].values|, matches := b.matches - {key})
  }

  lemma OpenKeepsValid(b: Buffer, key: MatchKey, expected: set<int>, t: DType, op: ReduceOp, count: int)
    requires Valid(b)
    ensures Valid(Open(b, key, expected, t, op, count))
  {
    if OpenOutcome(b, key, expected, t, op, count) == Opened {
      var m := Match(expected, {}, t, op, count, []);
      AddMatch(b.matches, key, m);
      assert forall k :: k in b.matches ==> MatchOk(b.matches[k]);
      assert MatchOk(m);
    }
  }

  lemma AddMatch(matches: map<MatchKey, Match>, key: MatchKey, m: Match)
    requires key !in matches
    ensures FlowLedger.Sum(Held(matches[key := m])) == FlowLedger.Sum(Held(matches)) + |m.values|
    ensures |matches[key := m]| == |matches| + 1
  {
    FlowLedger.SumAdd(Held(matches), key, |m.values|);
    assert Held(matches[key := m]) == Held(matches)[key := |m.values|];
    MapGrows(matches, key, m);
  }

  lemma MapGrows<K, V>(m: map<K, V>, k: K, v: V)
    requires k !in m
    ensures |m[k := v]| == |m| + 1
  {
    assert m[k := v].Keys == m.Keys + {k};
    assert |m[k := v]| == |m[k := v].Keys| && |m| == |m.Keys|;
  }

  lemma SetMatch(matches: map<MatchKey, Match>, key: MatchKey, m: Match)
    requires key in matches
    ensures FlowLedger.Sum(Held(matches[key := m]))
              == FlowLedger.Sum(Held(matches)) - |matches[key].values| + |m.values|
    ensures |matches[key := m]| == |matches|
  {
    var rest := matches - {key};
    assert rest[key := matches[key]] == matches && rest[key := m] == matches[key := m];
    AddMatch(rest, key, matches[key]);
    AddMatch(rest, key, m);
  }

  lemma AcceptKeepsValid(b: Buffer, o: Offer)
    requires Valid(b)
    ensures Valid(Accept(b, o))
  {
    if Takes(b, o) {
      SetMatch(b.matches, o.key, Accept(b, o).matches[o.key]);
      assert MatchOk(b.matches[o.key]);
    }
  }

  lemma ConsumeKeepsValid(b: Buffer, key: MatchKey)
    requires Valid(b) && key in b.matches
    ensures Valid(Consume(b, key))
  {
    var b' := Consume(b, key);
    FlowLedger.SumRemove(Held(b.matches), key);
    assert Held(b'.matches) == Held(b.matches) - {key};
    assert b'.matches.Keys == b.matches.Keys - {key};
    assert |b'.matches| == |b'.matches.Keys| <= |b.matches.Keys|;
  }

  lemma LastOne(received: set<int>, child: int, expected: set<int>)
    requires received <= expected && child in expected
    ensures received + {child} == expected <==> forall c :: c in expected && c != child ==> c in received
  {
    if forall c :: c in expected && c != child ==> c in received {
      assert forall c :: c in expected <==> c in received + {child};
    } else {
      var c :| c in expected && c != child && c !in received;
      assert c !in received + {child};
    }
  }

  /** Each answer to an offered operand, and what it records. */
  lemma AnswerIs(b: Buffer, o: Offer)
    requires Valid(b)
    ensures var answer, open := AcceptOutcome(b, o), o.key in b.matches;
            var m := if open then b.matches[o.key] else Match({}, {}, o.dtype, o.op, o.count, []);
            var missing := o.child in m.expected && o.child !in m.received;
            var alike := o.dtype == m.dtype && o.op == m.op && o.count == m.count;
            var last := forall c :: c in m.expected && c != o.child ==> c in m.received;
            && (answer == Unexpected <==> !open || o.child !in m.expected)
            && (answer == Duplicate <==> open && o.child in m.expected && o.child in m.received)
            && (answer == Mismatch <==> open && missing && !alike)
            && (answer == Backpressure <==> open && missing && alike && b.operands >= b.capacity)
            && (answer == Ready <==> open && missing && alike && b.operands < b.capacity && last)
            && (answer == Accepted <==> open && missing && alike && b.operands < b.capacity && !last)
            && (answer == Ready || answer == Accepted ==>
                  && Accept(b, o).operands == b.operands + 1
                  && Accept(b, o).matches == b.matches[o.key := Match(m.expected, m.received + {o.child}, m.dtype, m.op,
                                                                      m.count, m.values + [o.payload])])
            && (answer != Ready && answer != Accepted ==> Accept(b, o) == b)
  {
    if o.key in b.matches {
      var m := b.matches[o.key];
      assert MatchOk(m);
      if o.child in m.expected {
        LastOne(m.received, o.child, m.expected);
      }
    }
  }

  /** Each answer to opening a match, and what it leaves. */
  lemma OpenIs(b: Buffer, key: MatchKey, expected: set<int>, t: DType, op: ReduceOp, count: int)
    requires Valid(b)
    ensures var answer, b' := OpenOutcome(b, key, expected, t, op, count), Open(b, key, expected, t, op, count);
            var proper, fits := expected != {} && key !in b.matches, Mode(t, op, count);
            && (answer == BadOpen <==> !proper)
            && (answer == UnsupportedMode <==> proper && !fits)
            && (answer == HeadersFull <==> proper && fits && |b.matches| >= b.headers)
            && (answer == Opened <==> proper && fits && |b.matches| < b.headers)
            && (answer != Opened ==> b' == b)
            && (answer == Opened ==>
                  && |b'.matches| == |b.matches| + 1 && b'.operands == b.operands
                  && b'.matches == b.matches[key := Match(expected, {}, t, op, count, [])])
  {
    if OpenOutcome(b, key, expected, t, op, count) == Opened {
      MapGrows(b.matches, key, Match(expected, {}, t, op, count, []));
    }
  }

  /** A consumed match is gone, its header and slots free, and every other match is as it was. */
  lemma ConsumeIs(b: Buffer, key: MatchKey)
    requires Valid(b) && key in b.matches
    ensures var b' := Consume(b, key);
            && key !in b'.matches && |b'.matches| == |b.matches| - 1
            && b'.operands == b.operands - |b.matches[key].received|
            && forall k :: k != key ==> (k in b'.matches <==> k in b.matches)
                                        && (k in b.matches ==> b'.matches[k] == b.matches[k])
  {
    var b' := Consume(b, key);
    assert MatchOk(b.matches[key]);
    MapGrows(b'.matches, key, b.matches[key]);
    assert b'.matches[key := b.matches[key]] == b.matches;
  }

  class CollOperandMatchBuffer {
    const hcap: nat
    const ocap: nat
    var operands: int
    var states: map<MatchKey, Match>

    ghost function Abs(): Buffer
      reads this
    {
      Buffer(hcap, ocap, operands, states)
    }

    constructor (headers: nat, capacity: nat)
      requires headers > 0 && capacity > 0
      ensures Abs() == Buffer(headers, capacity, 0, map[]) && Valid(Abs())
    {
      hcap, ocap, operands, states := headers, capacity, 0, map[];
    }

    method OpenMatch(key: MatchKey, expected: set<int>, t: DType, op: ReduceOp, count: nat) returns (status: OpenStatus)
      requires Valid(Abs())
      modifies this
      ensures Valid(Abs())
      ensures status == OpenOutcome(old(Abs()), key, expected, t, op, count)
      ensures Abs() == Open(old(Abs()), key, expected, t, op, count)
    {
      OpenKeepsValid(Abs(), key, expected, t, op, count);
      if expected == {} || key in states {
        return BadOpen;
      }
      if t == FP32 || op == NONE || count == 0 || count * DTypeBits(t) > 128 {
        return UnsupportedMode;
      }
      if |states| == hcap {
        return HeadersFull;
      }
      states := states[key := Match(expected, {}, t, op, count, [])];
      status := Opened;
    }

    method AcceptOperand(o: Offer) returns (status: Status)
      requires Valid(Abs())
      modifies this
      ensures Valid(Abs())
      ensures status == AcceptOutcome(old(Abs()), o) && Abs() == Accept(old(Abs()), o)
    {
      AcceptKeepsValid(Abs(), o);
      if o.key !in states {
        return Unexpected;
      }
      var s := states[o.key];
      if o.child !in s.expected {
        return Unexpected;
      }
      if o.child in s.received {
        return Duplicate;
      }
      if s.dtype != o.dtype || s.op != o.op || s.count != o.count {
        return Mismatch;
      }
      if operands == ocap {
        return Backpressure;
      }
      s := s.(received := s.received + {o.child}, values := s.values + [o.payload]);
      states := states[o.key := s];
      operands := operands + 1;
      status := if s.received == s.expected then Ready else Accepted;
    }

    /** A completed match yields the reduction of its operands and frees its header and all its slots. */
    method ConsumeMatch(key: MatchKey) returns (r: ReduceResult, complete: bool)
      requires Valid(Abs())
      modifies this
      ensures Valid(Abs())
      ensures complete == Complete(old(Abs()), key)
      ensures !complete ==> Abs() == old(Abs())
      ensures complete ==>
                var m := old(states)[key];
                m.values != [] && Mode(m.dtype, m.op, m.count)
                && r == Result(Reduce(m.values, m.dtype, m.op, m.count)) && Abs() == Consume(old(Abs()), key)
    {
      if key !in states || states[key].received != states[key].expected {
        return InvalidCount, false;
      }
      var s := states[key];
      assert MatchOk(s);
      ConsumeKeepsValid(Abs(), key);
      r := ReduceIntegerOperands(s.values, s.dtype, s.op, s.count);
      operands := operands - |s.values|;
      states := states - {key};
      complete := true;
    }
  }

  // ---- Runs -----------------------------------------------------------------------------------

  function Feed(b: Buffer, offers: seq<Offer>): Buffer {
    if offers == [] then b else Accept(Feed(b, offers[..|offers| - 1]), offers[|offers| - 1])
  }

  /** The operands a match has taken, with their children, in order of arrival. */
  function Taken(b: Buffer, key: MatchKey, offers: seq<Offer>): seq<(int, Payload)> {
    if offers == [] then []
    else
      var before, o := offers[..|offers| - 1], offers[|offers| - 1];
      Taken(b, key, before) + if o.key == key && Takes(Feed(b, before), o) then [(o.child, o.payload)] else []
  }

  function Payloads(taken: seq<(int, Payload)>): (r: seq<Payload>)
    ensures |r| == |taken|
  {
    seq(|taken|, i requires 0 <= i < |taken| => taken[i].1)
  }

  function Children(taken: seq<(int, Payload)>): set<int> {
    set x | x in taken :: x.0
  }

  predicate FreshMatch(b: Buffer, key: MatchKey) {
    key in b.matches && b.matches[key].received == {} && b.matches[key].values == []
  }

  /** Whatever is offered, a match holds exactly what it has taken: one operand from each child it has heard. */
  lemma {:induction false} FeedHolds(b: Buffer, key: MatchKey, offers: seq<Offer>)
    requires Valid(b) && FreshMatch(b, key)
    ensures Valid(Feed(b, offers))
    ensures Holds(Feed(b, offers), key, b.matches[key], Taken(b, key, offers))
  {
    if offers == [] {
      assert Payloads([]) == [] && Children([]) == {};
    } else {
      var before, o := offers[..|offers| - 1], offers[|offers| - 1];
      FeedHolds(b, key, before);
      AcceptKeepsValid(Feed(b, before), o);
      AcceptHolds(Feed(b, before), key, b.matches[key], Taken(b, key, before), o);
    }
  }

  predicate Holds(b: Buffer, key: MatchKey, m: Match, taken: seq<(int, Payload)>) {
    && key in b.matches
    && b.matches[key] == m.(received := Children(taken), values := Payloads(taken))
    && |Children(taken)| == |taken|
  }

  lemma AcceptHolds(b: Buffer, key: MatchKey, m: Match, taken: seq<(int, Payload)>, o: Offer)
    requires Holds(b, key, m, taken)
    ensures Holds(Accept(b, o), key, m, taken + if o.key == key && Takes(b, o) then [(o.child, o.payload)] else [])
  {
    if o.key == key && Takes(b, o) {
      TakenNext(taken, (o.child, o.payload));
    } else {
      assert taken + [] == taken;
    }
  }

  lemma TakenNext(taken: seq<(int, Payload)>, x: (int, Payload))
    ensures Payloads(taken + [x]) == Payloads(taken) + [x.1]
    ensures Children(taken + [x]) == Children(taken) + {x.0}
  {
  }

  lemma {:induction false} PayloadsMultiset(a: seq<(int, Payload)>, c: seq<(int, Payload)>)
    requires multiset(a) == multiset(c)
    ensures multiset(Payloads(a)) == multiset(Payloads(c))
    decreases |a|
  {
    assert |multiset(a)| == |a| && |multiset(c)| == |c|;
    if a != [] {
      var n := |a| - 1;
      assert a == a[..n] + [a[n]];
      var i := Extract(c, a[n], multiset(a[..n]));
      var front, back := c[..i], c[i + 1..];
      PayloadsMultiset(a[..n], front + back);
      assert Payloads(a) == Payloads(a[..n]) + [a[n].1];
      assert Payloads(c) == Payloads(front) + [a[n].1] + Payloads(back);
      assert Payloads(front + back) == Payloads(front) + Payloads(back);
    } else {
      assert c == [];
    }
  }

  /**
   * Once complete, a match has one operand from every expected child, and its result depends only on which
   * child sent what: not on the order of arrival, nor on offers that were refused, repeated or misdirected.
   */
  lemma ResultIgnoresArrivals(b: Buffer, key: MatchKey, offers: seq<Offer>, offers': seq<Offer>)
    requires Valid(b) && FreshMatch(b, key)
    requires Complete(Feed(b, offers), key) && Complete(Feed(b, offers'), key)
    requires multiset(Taken(b, key, offers)) == multiset(Taken(b, key, offers'))
    ensures var m, m' := Feed(b, offers).matches[key], Feed(b, offers').matches[key];
            && |m.values| == |b.matches[key].expected|
            && m.values != [] && m'.values != [] && Mode(m.dtype, m.op, m.count) && Mode(m'.dtype, m'.op, m'.count)
            && Reduce(m.values, m.dtype, m.op, m.count) == Reduce(m'.values, m'.dtype, m'.op, m'.count)
  {
    FeedHolds(b, key, offers);
    FeedHolds(b, key, offers');
    assert MatchOk(Feed(b, offers).matches[key]) && MatchOk(Feed(b, offers').matches[key]);
    var m := Feed(b, offers).matches[key];
    PayloadsMultiset(Taken(b, key, offers), Taken(b, key, offers'));
    ReducePermutes(m.values, Feed(b, offers').matches[key].values, m.dtype, m.op, m.count);
  }

  // ---- What the children sent -----------------------------------------------------------------

  /** Every offer to the match from an expected child, in the match's own mode, carries that child's operand. */
  predicate Sends(b: Buffer, key: MatchKey, offers: seq<Offer>, sent: map<int, Payload>)
    requires key in b.matches
  {
    forall i :: 0 <= i < |offers| ==> SendsOne(b.matches[key], key, offers[i], sent)
  }

  predicate SendsOne(m: Match, key: MatchKey, o: Offer, sent: map<int, Payload>) {
    o.key == key && o.child in m.expected && o.dtype == m.dtype && o.op == m.op && o.count == m.count ==>
      o.child in sent && o.payload == sent[o.child]
  }

  predicate Delivered(taken: seq<(int, Payload)>, sent: map<int, Payload>) {
    forall i :: 0 <= i < |taken| ==> taken[i].0 in sent && taken[i].1 == sent[taken[i].0]
  }

  lemma {:induction false} TakenDelivered(b: Buffer, key: MatchKey, offers: seq<Offer>, sent: map<int, Payload>)
    requires Valid(b) && FreshMatch(b, key) && Sends(b, key, offers, sent)
    ensures Delivered(Taken(b, key, offers), sent)
  {
    if offers != [] {
      var before, o := offers[..|offers| - 1], offers[|offers| - 1];
      TakenDelivered(b, key, before, sent);
      FeedHolds(b, key, before);
      assert SendsOne(b.matches[key], key, offers[|offers| - 1], sent);
    }
  }

  function Operands(children: seq<int>, sent: map<int, Payload>): (r: seq<Payload>)
    requires forall i :: 0 <= i < |children| ==> children[i] in sent
    ensures |r| == |children|
  {
    seq(|children|, i requires 0 <= i < |children| => sent[children[i]])
  }

  predicate Distinct(s: seq<int>) {
    forall i, j :: 0 <= i < j < |s| ==> s[i] != s[j]
  }

  function Firsts(taken: seq<(int, Payload)>): (r: seq<int>)
    ensures |r| == |taken|
  {
    seq(|taken|, i requires 0 <= i < |taken| => taken[i].0)
  }

  /** As many children as entries means no child twice. */
  lemma {:induction false} CountedDistinct(taken: seq<(int, Payload)>)
    requires |Children(taken)| == |taken|
    ensures Distinct(Firsts(taken))
  {
    if taken != [] {
      var n := |taken| - 1;
      assert taken == taken[..n] + [taken[n]];
      TakenNext(taken[..n], taken[n]);
      ChildrenAtMost(taken[..n]);
      CountedDistinct(taken[..n]);
      forall i | 0 <= i < n
        ensures taken[i].0 != taken[n].0
      {
        assert taken[..n][i].0 in Children(taken[..n]);
      }
      assert forall i :: 0 <= i < n ==> Firsts(taken)[i] == Firsts(taken[..n])[i];
    }
  }

  lemma {:induction false} ChildrenAtMost(taken: seq<(int, Payload)>)
    ensures |Children(taken)| <= |taken|
  {
    if taken != [] {
      var n := |taken| - 1;
      assert taken == taken[..n] + [taken[n]];
      TakenNext(taken[..n], taken[n]);
      ChildrenAtMost(taken[..n]);
    }
  }

  lemma {:induction false} CountOnce(s: seq<int>, x: int)
    requires Distinct(s)
    ensures multiset(s)[x] == if x in s then 1 else 0
  {
    if s != [] {
      var n := |s| - 1;
      assert s == s[..n] + [s[n]];
      CountOnce(s[..n], x);
      assert x in s <==> x in s[..n] || x == s[n];
      assert s[n] !in s[..n];
    }
  }

  /** Two enumerations of one set, neither with a repetition, are permutations of each other. */
  lemma SameElements(a: seq<int>, c: seq<int>)
    requires Distinct(a) && Distinct(c) && forall x :: x in a <==> x in c
    ensures multiset(a) == multiset(c)
  {
    forall x
      ensures multiset(a)[x] == multiset(c)[x]
    {
      CountOnce(a, x);
      CountOnce(c, x);
    }
  }

  lemma {:induction false} OperandsPermute(a: seq<int>, c: seq<int>, sent: map<int, Payload>)
    requires multiset(a) == multiset(c)
    requires forall i :: 0 <= i < |a| ==> a[i] in sent
    requires forall i :: 0 <= i < |c| ==> c[i] in sent
    ensures multiset(Operands(a, sent)) == multiset(Operands(c, sent))
    decreases |a|
  {
    assert |multiset(a)| == |a| && |multiset(c)| == |c|;
    if a != [] {
      var n := |a| - 1;
      assert a == a[..n] + [a[n]];
      var i := Extract(c, a[n], multiset(a[..n]));
      var front, back := c[..i], c[i + 1..];
      OperandsPermute(a[..n], front + back, sent);
      assert Operands(a, sent) == Operands(a[..n], sent) + [sent[a[n]]];
      assert Operands(c, sent) == Operands(front, sent) + [sent[a[n]]] + Operands(back, sent);
      assert Operands(front + back, sent) == Operands(front, sent) + Operands(back, sent);
    }
  }

  /**
   * A completed match holds, in some order, the operand each expected child sent: the result is their reduction,
   * whatever the order of arrival and whatever else was offered, refused or repeated.
   */
  lemma ResultIsReduction(b: Buffer, key: MatchKey, offers: seq<Offer>, sent: map<int, Payload>, children: seq<int>)
    requires Valid(b) && FreshMatch(b, key) && Complete(Feed(b, offers), key) && Sends(b, key, offers, sent)
    requires Distinct(children) && forall x :: x in children <==> x in b.matches[key].expected
    ensures forall i :: 0 <= i < |children| ==> children[i] in sent
    ensures var m := Feed(b, offers).matches[key];
            && m.dtype == b.matches[key].dtype && m.op == b.matches[key].op && m.count == b.matches[key].count
            && Mode(m.dtype, m.op, m.count) && m.values != [] && children != []
            && Reduce(m.values, m.dtype, m.op, m.count) == Reduce(Operands(children, sent), m.dtype, m.op, m.count)
  {
    FeedHolds(b, key, offers);
    TakenDelivered(b, key, offers, sent);
    var taken, m := Taken(b, key, offers), Feed(b, offers).matches[key];
    assert MatchOk(m) && MatchOk(b.matches[key]);
    CountedDistinct(taken);
    TakenChildren(taken, children, sent);
    assert m.values == Operands(Firsts(taken), sent);
    SameElements(Firsts(taken), children);
    OperandsPermute(Firsts(taken), children, sent);
    ReducePermutes(m.values, Operands(children, sent), m.dtype, m.op, m.count);
  }

  lemma TakenChildren(taken: seq<(int, Payload)>, children: seq<int>, sent: map<int, Payload>)
    requires Delivered(taken, sent) && forall x :: x in children <==> x in Children(taken)
    ensures forall x :: x in Firsts(taken) <==> x in children
    ensures forall i :: 0 <= i < |children| ==> children[i] in sent
    ensures forall i :: 0 <= i < |taken| ==> Firsts(taken)[i] in sent
  {
    forall x
      ensures x in Firsts(taken) <==> x in children
    {
      if x in children {
        var p :| p in taken && p.0 == x;
        var i :| 0 <= i < |taken| && taken[i] == p;
        assert Firsts(taken)[i] == x;
      }
    }
    forall i | 0 <= i < |children|
      ensures children[i] in sent
    {
      assert children[i] in children;
      var k :| 0 <= k < |taken| && Firsts(taken)[k] == children[i];
    }
  }

  // ---- A network of match buffers -------------------------------------------------------------

  /** An operand, or a router's buffer with the offers it was made and the subnetworks its children head. */
  datatype Net = Source(payload: Payload)
               | Router(buffer: Buffer, key: MatchKey, offers: seq<Offer>, children: seq<int>, inputs: seq<Net>)

  /** What a node of the network passes up: its operand, or what its completed match is consumed as. */
  function Output(net: Net, t: DType, op: ReduceOp, count: nat): Payload
    requires Mode(t, op, count)
  {
    match net
    case Source(payload) => payload
    case Router(b, key, offers, _, _) =>
      if key in Feed(b, offers).matches && Feed(b, offers).matches[key].values != []
      then Reduce(Feed(b, offers).matches[key].values, t, op, count)
      else Padded([])
  }

  /** Each buffer's match is complete, and each of its children has offered what its own subnetwork put out. */
  ghost predicate Settled(net: Net, t: DType, op: ReduceOp, count: nat)
    requires Mode(t, op, count)
  {
    match net
    case Source(_) => true
    case Router(b, key, offers, children, inputs) =>
      && inputs != [] && |children| == |inputs| && Distinct(children)
      && Valid(b) && FreshMatch(b, key) && Complete(Feed(b, offers), key)
      && b.matches[key].dtype == t && b.matches[key].op == op && b.matches[key].count == count
      && (forall x :: x in children <==> x in b.matches[key].expected)
      && Sends(b, key, offers, SentBy(children, inputs, t, op, count))
      && forall i :: 0 <= i < |inputs| ==> Settled(inputs[i], t, op, count)
  }

  function SentBy(children: seq<int>, inputs: seq<Net>, t: DType, op: ReduceOp, count: nat): map<int, Payload>
    requires Mode(t, op, count) && |children| == |inputs|
  {
    if children == [] then map[]
    else
      var n := |children| - 1;
      SentBy(children[..n], inputs[..n], t, op, count)[children[n] := Output(inputs[n], t, op, count)]
  }

  /** The reduction tree the network amounts to. */
  function Shape(net: Net): Tree {
    match net
    case Source(payload) => Leaf(payload)
    case Router(_, _, _, _, inputs) => Node(seq(|inputs|, i requires 0 <= i < |inputs| => Shape(inputs[i])))
  }

  lemma {:induction false} SentByAt(children: seq<int>, inputs: seq<Net>, t: DType, op: ReduceOp, count: nat, i: nat)
    requires Mode(t, op, count) && |children| == |inputs| && Distinct(children) && i < |children|
    ensures children[i] in SentBy(children, inputs, t, op, count)
    ensures SentBy(children, inputs, t, op, count)[children[i]] == Output(inputs[i], t, op, count)
  {
    var n := |children| - 1;
    if i < n {
      SentByAt(children[..n], inputs[..n], t, op, count, i);
    }
  }

  lemma {:induction false} ShapeGrown(net: Net, t: DType, op: ReduceOp, count: nat)
    requires Mode(t, op, count) && Settled(net, t, op, count)
    ensures Grown(Shape(net))
  {
    if net.Router? {
      forall i | 0 <= i < |net.inputs|
        ensures Grown(Shape(net.inputs[i]))
      {
        ShapeGrown(net.inputs[i], t, op, count);
      }
    }
  }

  /** A node puts out what its tree evaluates to. */
  lemma {:induction false} OutputIsEvaluation(net: Net, t: DType, op: ReduceOp, count: nat)
    requires Mode(t, op, count) && Settled(net, t, op, count)
    ensures Grown(Shape(net)) && Output(net, t, op, count) == Evaluate(Shape(net), t, op, count)
  {
    ShapeGrown(net, t, op, count);
    if net.Router? {
      forall i | 0 <= i < |net.inputs|
        ensures Grown(Shape(net.inputs[i]))
        ensures Output(net.inputs[i], t, op, count) == Evaluate(Shape(net.inputs[i]), t, op, count)
      {
        OutputIsEvaluation(net.inputs[i], t, op, count);
      }
      RouterIsNode(net, t, op, count);
    }
  }

  lemma RouterIsNode(net: Net, t: DType, op: ReduceOp, count: nat)
    requires Mode(t, op, count) && net.Router? && Settled(net, t, op, count) && Grown(Shape(net))
    requires forall i :: 0 <= i < |net.inputs| ==>
               Grown(Shape(net.inputs[i]))
                   && Output(net.inputs[i], t, op, count) == Evaluate(Shape(net.inputs[i]), t, op, count)
    ensures Output(net, t, op, count) == Evaluate(Shape(net), t, op, count)
  {
    var sent := SentBy(net.children, net.inputs, t, op, count);
    ResultIsReduction(net.buffer, net.key, net.offers, sent, net.children);
    var trees := Shape(net).inputs;
    assert forall i :: 0 <= i < |trees| ==> trees[i] == Shape(net.inputs[i]) && Grown(trees[i]);
    forall i | 0 <= i < |net.children|
      ensures Operands(net.children, sent)[i] == Evaluations(trees, t, op, count)[i]
    {
      SentByAt(net.children, net.inputs, t, op, count, i);
    }
    assert Operands(net.children, sent) == Evaluations(trees, t, op, count);
  }

  /**
   * In-network reduction preserves meaning: a network of match buffers of any shape, each fed in any order with
   * any repeats and strays, puts out, bit for bit, the flat reduction of all its operands.
   */
  lemma NetworkIsFlat(net: Net, t: DType, op: ReduceOp, count: nat)
    requires Mode(t, op, count) && net.Router? && Settled(net, t, op, count)
    ensures Leaves(Shape(net)) != []
    ensures Output(net, t, op, count) == Reduce(Leaves(Shape(net)), t, op, count)
  {
    OutputIsEvaluation(net, t, op, count);
    TreeIsFlat(Shape(net), t, op, count);
  }
}
