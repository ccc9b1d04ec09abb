/** Lane-wise integer reduction of 128-bit operands, and why the shape of a reduction tree does not matter. */
module Reduction {
  import opened Basics
  import opened CollTypes

  type Byte = x: int | 0 <= x < 256

  /** A 128-bit payload, least significant byte first. */
  type Payload = p: seq<Byte> | |p| == 16 witness seq(16, _ => 0)

  function Zeros(n: nat): (s: seq<Byte>)
    ensures |s| == n
  {
    seq(n, _ => 0)
  }

  function Value(s: seq<Byte>): nat {
    if s == [] then 0 else s[0] + 256 * Value(s[1..])
  }

  function Digits(v: nat, n: nat): (s: seq<Byte>)
    ensures |s| == n
  {
    if n == 0 then [] else [v % 256] + Digits(v / 256, n - 1)
  }

  function Pow256(n: nat): nat {
    if n == 0 then 1 else 256 * Pow256(n - 1)
  }

  lemma {:induction false} ValueOfDigits(v: nat, n: nat)
    requires v < Pow256(n)
    ensures Value(Digits(v, n)) == v
  {
    if n > 0 {
      ValueOfDigits(v / 256, n - 1);
      assert Digits(v, n)[1..] == Digits(v / 256, n - 1);
    }
  }

  lemma {:induction false} ValueBound(s: seq<Byte>)
    ensures Value(s) < Pow256(|s|)
  {
    if s != [] {
      ValueBound(s[1..]);
    }
  }

  // ---- One lane -------------------------------------------------------------------------------

  function LaneBytes(t: DType): nat {
    DTypeBits(t) / 8
  }

  /** Two to the lane width. */
  function Modulus(t: DType): nat {
    match t
    case UINT8 => 256
    case INT32 => 0x1_0000_0000
    case INT64 => U64
    case FP32 => 0x1_0000_0000
  }

  lemma ModulusIsPow(t: DType)
    ensures Pow256(LaneBytes(t)) == Modulus(t)
  {
    assert Pow256(4) == 0x1_0000_0000;
    assert Pow256(8) == Pow256(4) * Pow256(4);
  }

  function Signed(t: DType, v: int): int {
    if v >= Modulus(t) / 2 then v - Modulus(t) else v
  }

  /** The order MAX uses: unsigned for UINT8, two's complement for the wider types. */
  function Rank(t: DType, v: int): int {
    if t == UINT8 then v else Signed(t, v)
  }

  function Combine(t: DType, op: ReduceOp, a: nat, b: nat): nat {
    if op == SUM then (a + b) % Modulus(t)
    else if Rank(t, b) > Rank(t, a) then b else a
  }

  predicate InLane(t: DType, v: int) {
    0 <= v < Modulus(t)
  }

  lemma CombineLaws(t: DType, op: ReduceOp, a: nat, b: nat, c: nat)
    requires InLane(t, a) && InLane(t, b) && InLane(t, c)
    ensures InLane(t, Combine(t, op, a, b))
    ensures Combine(t, op, a, b) == Combine(t, op, b, a)
    ensures Combine(t, op, Combine(t, op, a, b), c) == Combine(t, op, a, Combine(t, op, b, c))
  {
    if op == SUM {
      SumAssociates(a, b, c, Modulus(t));
    } else {
      RankInjective(t, a, b);
      RankInjective(t, b, c);
      RankInjective(t, a, c);
    }
  }

  lemma RankInjective(t: DType, a: int, b: int)
    requires InLane(t, a) && InLane(t, b)
    ensures Rank(t, a) == Rank(t, b) ==> a == b
  {
  }

  lemma SumAssociates(a: nat, b: nat, c: nat, m: nat)
    requires a < m && b < m && c < m
    ensures ((a + b) % m + c) % m == (a + (b + c) % m) % m
  {
    Reduced(a + b, m);
    Reduced(b + c, m);
    Reduced((a + b) % m + c, m);
    Reduced(a + (b + c) % m, m);
  }

  lemma Reduced(x: nat, m: nat)
    requires x < 2 * m
    ensures x % m == if x < m then x else x - m
  {
    if x >= m {
      assert (x - m) % m == x - m;
      assert x == m * 1 + (x - m);
      assert x / m == 1;
    }
  }

  predicate AllInLane(t: DType, vs: seq<nat>) {
    forall i :: 0 <= i < |vs| ==> InLane(t, vs[i])
  }

  function Fold(t: DType, op: ReduceOp, vs: seq<nat>): nat
    requires vs != []
  {
    if |vs| == 1 then vs[0] else Combine(t, op, Fold(t, op, vs[..|vs| - 1]), vs[|vs| - 1])
  }

  lemma FoldNext(t: DType, op: ReduceOp, vs: seq<nat>, v: nat)
    requires vs != []
    ensures Fold(t, op, vs + [v]) == Combine(t, op, Fold(t, op, vs), v)
  {
    assert (vs + [v])[..|vs|] == vs;
  }

  lemma {:induction false} FoldInLane(t: DType, op: ReduceOp, vs: seq<nat>)
    requires vs != [] && AllInLane(t, vs)
    ensures InLane(t, Fold(t, op, vs))
  {
    if |vs| > 1 {
      FoldInLane(t, op, vs[..|vs| - 1]);
      CombineLaws(t, op, Fold(t, op, vs[..|vs| - 1]), vs[|vs| - 1], 0);
    }
  }

  lemma {:induction false} FoldConcat(t: DType, op: ReduceOp, a: seq<nat>, b: seq<nat>)
    requires a != [] && b != [] && AllInLane(t, a) && AllInLane(t, b)
    ensures Fold(t, op, a + b) == Combine(t, op, Fold(t, op, a), Fold(t, op, b))
  {
    var n := |b| - 1;
    assert (a + b)[..|a + b| - 1] == a + b[..n];
    if n == 0 {
      assert a + b[..0] == a;
    } else {
      FoldConcat(t, op, a, b[..n]);
      FoldInLane(t, op, a);
      FoldInLane(t, op, b[..n]);
      CombineLaws(t, op, Fold(t, op, a), Fold(t, op, b[..n]), b[n]);
    }
  }

  /** Moving the value at `i` to the end does not change the fold. */
  lemma FoldMoveLast(t: DType, op: ReduceOp, vs: seq<nat>, i: nat)
    requires |vs| > 1 && i < |vs| && AllInLane(t, vs)
    ensures vs[..i] + vs[i + 1..] != [] && Fold(t, op, vs) == Combine(t, op, Fold(t, op, vs[..i] + vs[i + 1..]), vs[i])
  {
    var a, x, b := vs[..i], vs[i], vs[i + 1..];
    assert vs == a + ([x] + b);
    if a == [] {
      assert vs == [x] + b && a + b == b;
      FoldConcat(t, op, [x], b);
      FoldInLane(t, op, b);
      CombineLaws(t, op, x, Fold(t, op, b), 0);
    } else if b == [] {
      assert vs == a + [x] && a + b == a;
      FoldConcat(t, op, a, [x]);
    } else {
      FoldConcat(t, op, a, [x] + b);
      FoldConcat(t, op, [x], b);
      FoldConcat(t, op, a, b);
      FoldInLane(t, op, a);
      FoldInLane(t, op, b);
      CombineLaws(t, op, x, Fold(t, op, b), 0);
      CombineLaws(t, op, Fold(t, op, a), Fold(t, op, b), x);
    }
  }

  lemma Extract<T>(b: seq<T>, x: T, others: multiset<T>) returns (i: nat)
    requires multiset(b) == others + multiset{x}
    ensures i < |b| && b[i] == x && multiset(b[..i] + b[i + 1..]) == others
  {
    assert x in multiset(b);
    i :| 0 <= i < |b| && b[i] == x;
    assert b == b[..i] + [b[i]] + b[i + 1..];
    assert multiset(b) == multiset(b[..i] + b[i + 1..]) + multiset{x};
    assert multiset(b[..i] + b[i + 1..]) == multiset(b) - multiset{x} == others;
  }

  /** The order of the operands does not matter. */
  lemma {:induction false} FoldPermutes(t: DType, op: ReduceOp, a: seq<nat>, b: seq<nat>)
    requires a != [] && AllInLane(t, a) && AllInLane(t, b) && multiset(a) == multiset(b)
    ensures b != [] && Fold(t, op, a) == Fold(t, op, b)
    decreases |a|
  {
    assert |multiset(a)| == |a| && |multiset(b)| == |b|;
    var n := |a| - 1;
    assert a == a[..n] + [a[n]];
    var i := Extract(b, a[n], multiset(a[..n]));
    if n > 0 {
      var rest := b[..i] + b[i + 1..];
      assert AllInLane(t, rest);
      FoldMoveLast(t, op, b, i);
      FoldPermutes(t, op, a[..n], rest);
    }
  }

  // ---- Whole payloads -------------------------------------------------------------------------

  /** A supported mode: an integer type, an operation, and lanes that fit the payload. */
  predicate Mode(t: DType, op: ReduceOp, count: int) {
    t != FP32 && op != NONE && count > 0 && count * DTypeBits(t) <= 128
  }

  lemma ModeBytes(t: DType, op: ReduceOp, count: int, e: nat)
    requires Mode(t, op, count) && e < count
    ensures LaneBytes(t) > 0 && 0 <= e * LaneBytes(t) <= (e + 1) * LaneBytes(t) <= count * LaneBytes(t) <= 16
    ensures (e + 1) * LaneBytes(t) == e * LaneBytes(t) + LaneBytes(t)
  {
    assert LaneBytes(t) in {1, 4, 8};
  }

  function Lane(p: Payload, t: DType, e: nat): nat
    requires (e + 1) * LaneBytes(t) <= 16
  {
    Value(p[e * LaneBytes(t)..(e + 1) * LaneBytes(t)])
  }

  lemma LaneInLane(p: Payload, t: DType, e: nat)
    requires (e + 1) * LaneBytes(t) <= 16
    ensures InLane(t, Lane(p, t, e))
  {
    Step(e, LaneBytes(t));
    BytesInLane(p[e * LaneBytes(t)..(e + 1) * LaneBytes(t)], t);
  }

  lemma BytesInLane(b: seq<Byte>, t: DType)
    requires |b| == LaneBytes(t)
    ensures InLane(t, Value(b))
  {
    ValueBound(b);
    ModulusIsPow(t);
  }

  function Lanes(values: seq<Payload>, t: DType, e: nat): (r: seq<nat>)
    requires (e + 1) * LaneBytes(t) <= 16
    ensures |r| == |values|
  {
    seq(|values|, i requires 0 <= i < |values| => Lane(values[i], t, e))
  }

  function Pack(vs: seq<nat>, t: DType): (s: seq<Byte>)
    ensures |s| == |vs| * LaneBytes(t)
  {
    if vs == [] then [] else Pack(vs[..|vs| - 1], t) + Digits(vs[|vs| - 1], LaneBytes(t))
  }

  /** The lanes that are folded, in order. */
  function Folded(values: seq<Payload>, t: DType, op: ReduceOp, count: nat): (r: seq<nat>)
    requires values != [] && Mode(t, op, count)
    ensures |r| == count
  {
    seq(count, e requires 0 <= e < count =>
      ModeBytes(t, op, count, e);
      Fold(t, op, Lanes(values, t, e)))
  }

  function Padded(s: seq<Byte>): Payload
    requires |s| <= 16
  {
    s + Zeros(16 - |s|)
  }

  /** Every lane folded, the rest of the payload zero. */
  function Reduce(values: seq<Payload>, t: DType, op: ReduceOp, count: nat): Payload
    requires values != [] && Mode(t, op, count)
  {
    ModeBytes(t, op, count, count - 1);
    Padded(Pack(Folded(values, t, op, count), t))
  }

  lemma {:induction false} PackAt(vs: seq<nat>, t: DType, e: nat)
    requires e < |vs|
    ensures 0 <= e * LaneBytes(t) <= (e + 1) * LaneBytes(t) <= |vs| * LaneBytes(t)
    ensures Pack(vs, t)[e * LaneBytes(t)..(e + 1) * LaneBytes(t)] == Digits(vs[e], LaneBytes(t))
  {
    var w, n := LaneBytes(t), |vs| - 1;
    Step(e, w);
    Step(n, w);
    MulMono(e + 1, n + 1, w);
    var packed := Pack(vs[..n], t);
    if e < n {
      MulMono(e + 1, n, w);
      PackAt(vs[..n], t, e);
      PrefixSlice(packed, Digits(vs[n], w), e * w, (e + 1) * w);
    } else {
      LastSlice(packed, Digits(vs[n], w), (e + 1) * w);
    }
  }

  lemma Step(e: nat, w: nat)
    ensures (e + 1) * w == e * w + w && 0 <= e * w
  {
  }

  lemma PrefixSlice<T>(a: seq<T>, b: seq<T>, lo: nat, hi: nat)
    requires lo <= hi <= |a|
    ensures (a + b)[lo..hi] == a[lo..hi]
  {
  }

  lemma LastSlice<T>(a: seq<T>, b: seq<T>, hi: nat)
    requires hi == |a| + |b|
    ensures (a + b)[|a|..hi] == b
  {
  }

  /** Each valid lane of the result is the fold of that lane over the operands. */
  lemma LaneOfReduce(values: seq<Payload>, t: DType, op: ReduceOp, count: nat, e: nat)
    requires values != [] && Mode(t, op, count) && e < count
    ensures (e + 1) * LaneBytes(t) <= 16
    ensures Lane(Reduce(values, t, op, count), t, e) == Fold(t, op, Lanes(values, t, e))
  {
    ModeBytes(t, op, count, e);
    ModeBytes(t, op, count, count - 1);
    var vs, w := Folded(values, t, op, count), LaneBytes(t);
    PackAt(vs, t, e);
    PrefixSlice(Pack(vs, t), Zeros(16 - |Pack(vs, t)|), e * w, (e + 1) * w);
    forall i | 0 <= i < |values|
      ensures InLane(t, Lanes(values, t, e)[i])
    {
      LaneInLane(values[i], t, e);
    }
    FoldInLane(t, op, Lanes(values, t, e));
    ModulusIsPow(t);
    ValueOfDigits(vs[e], w);
  }

  // ---- What the lanes mean --------------------------------------------------------------------

  /** A lane read as a number: unsigned bytes, two's complement words. */
  function Number(t: DType, v: nat): int
    requires t != FP32
  {
    match t
    case UINT8 => v
    case INT32 => if v < 0x8000_0000 then v else v - 0x1_0000_0000
    case INT64 => if v < 0x8000_0000_0000_0000 then v else v - 0x1_0000_0000_0000_0000
  }

  function Total(vs: seq<nat>): nat {
    if vs == [] then 0 else Total(vs[..|vs| - 1]) + vs[|vs| - 1]
  }

  lemma {:induction false} FoldIsMaximum(t: DType, vs: seq<nat>) returns (k: nat)
    requires t != FP32 && vs != [] && AllInLane(t, vs)
    ensures k < |vs| && Fold(t, MAX, vs) == vs[k]
    ensures forall i :: 0 <= i < |vs| ==> Number(t, vs[i]) <= Number(t, vs[k])
  {
    var n := |vs| - 1;
    k := n;
    if n > 0 {
      var j := FoldIsMaximum(t, vs[..n]);
      assert vs[..n][j] == vs[j];
      if Fold(t, MAX, vs) == vs[j] {
        k := j;
      }
      assert forall i :: 0 <= i < n ==> vs[i] == vs[..n][i];
    }
  }

  lemma {:induction false} FoldIsTotal(t: DType, vs: seq<nat>)
    requires vs != [] && AllInLane(t, vs)
    ensures Fold(t, SUM, vs) == Total(vs) % Modulus(t)
  {
    var n := |vs| - 1;
    if n == 0 {
      assert Total(vs[..0]) == 0;
      SmallMod(vs[0], Modulus(t));
    } else {
      FoldIsTotal(t, vs[..n]);
      ModAdd(Total(vs[..n]), vs[n], Modulus(t));
    }
  }

  lemma ModAdd(a: nat, b: nat, m: nat)
    requires m > 0
    ensures (a % m + b) % m == (a + b) % m
  {
    var q, r := (a % m + b) / m, (a % m + b) % m;
    assert a == a / m * m + a % m;
    assert (a / m + q) * m == a / m * m + q * m;
    DivUnique(a + b, m, a / m + q, r);
  }

  /** MAX: each lane of the result is one of the operands' lanes and, as a number, no less than any. */
  lemma MaxIsMaximum(values: seq<Payload>, t: DType, count: nat, e: nat) returns (k: nat)
    requires values != [] && Mode(t, MAX, count) && e < count
    ensures (e + 1) * LaneBytes(t) <= 16
    ensures k < |values| && Lane(Reduce(values, t, MAX, count), t, e) == Lane(values[k], t, e)
    ensures forall i :: 0 <= i < |values| ==> Number(t, Lane(values[i], t, e)) <= Number(t, Lane(values[k], t, e))
  {
    LaneOfReduce(values, t, MAX, count, e);
    LanesInLane(values, t, e);
    k := FoldIsMaximum(t, Lanes(values, t, e));
    assert forall i :: 0 <= i < |values| ==> Lanes(values, t, e)[i] == Lane(values[i], t, e);
  }

  /** SUM: each lane of the result is the sum of the operands' lanes, modulo two to the lane's width. */
  lemma SumIsSum(values: seq<Payload>, t: DType, count: nat, e: nat)
    requires values != [] && Mode(t, SUM, count) && e < count
    ensures (e + 1) * LaneBytes(t) <= 16
    ensures var r, total := Lane(Reduce(values, t, SUM, count), t, e), Total(Lanes(values, t, e));
            && (t == UINT8 ==> r == total % 0x100)
            && (t == INT32 ==> r == total % 0x1_0000_0000)
            && (t == INT64 ==> r == total % 0x1_0000_0000_0000_0000)
  {
    LaneOfReduce(values, t, SUM, count, e);
    LanesInLane(values, t, e);
    FoldIsTotal(t, Lanes(values, t, e));
  }

  /** Four bytes as a word, least significant first. */
  function Word(b0: int, b1: int, b2: int, b3: int): int {
    b0 + 0x100 * b1 + 0x1_0000 * b2 + 0x100_0000 * b3
  }

  function LongWord(s: seq<Byte>): int
    requires |s| == 8
  {
    Word(s[0], s[1], s[2], s[3]) + 0x1_0000_0000 * Word(s[4], s[5], s[6], s[7])
  }

  lemma ByteLaneIs(p: Payload, e: nat)
    requires e < 16
    ensures Lane(p, UINT8, e) == p[e]
  {
    assert p[e..e + 1] == [p[e]];
    ValueNext([p[e]]);
  }

  lemma WordLaneIs(p: Payload, e: nat)
    requires e < 4
    ensures Lane(p, INT32, e) == Word(p[4 * e], p[4 * e + 1], p[4 * e + 2], p[4 * e + 3])
  {
    ValueOfFour(p[4 * e..4 * e + 4]);
  }

  lemma LongLaneIs(p: Payload, e: nat)
    requires e < 2
    ensures Lane(p, INT64, e) == LongWord(p[8 * e..8 * e + 8])
  {
    LongSlice(p, e);
    ValueOfEight(p[8 * e..8 * e + 8]);
  }

  lemma LongSlice(p: Payload, e: nat)
    requires e < 2
    ensures Lane(p, INT64, e) == Value(p[8 * e..8 * e + 8])
  {
    assert LaneBytes(INT64) == 8;
  }

  lemma ValueNext(s: seq<Byte>)
    requires s != []
    ensures Value(s) == s[0] + 256 * Value(s[1..])
  {
  }

  lemma ValueBefore(s: seq<Byte>)
    requires |s| >= 4
    ensures Value(s) == Word(s[0], s[1], s[2], s[3]) + 0x1_0000_0000 * Value(s[4..])
  {
    ValueNext(s[1..]);
    ValueNext(s[2..]);
    ValueNext(s[3..]);
    assert s[1..][1..] == s[2..] && s[2..][1..] == s[3..] && s[3..][1..] == s[4..];
  }

  lemma ValueOfFour(s: seq<Byte>)
    requires |s| == 4
    ensures Value(s) == Word(s[0], s[1], s[2], s[3])
  {
    ValueBefore(s);
    assert s[4..] == [];
  }

  lemma ValueOfEight(s: seq<Byte>)
    requires |s| == 8
    ensures Value(s) == LongWord(s)
  {
    ValueBefore(s);
    ValueOfFour(s[4..]);
  }

  /** Past the lanes the result is zero. */
  lemma RestIsZero(values: seq<Payload>, t: DType, op: ReduceOp, count: nat, i: nat)
    requires values != [] && Mode(t, op, count) && count * (DTypeBits(t) / 8) <= i < 16
    ensures Reduce(values, t, op, count)[i] == 0
  {
    ModeBytes(t, op, count, count - 1);
  }

  /** The modes: bytes up to sixteen lanes, words up to four, long words up to two, summed or maximised. */
  lemma ModesAre(t: DType, op: ReduceOp, count: int)
    ensures Mode(t, op, count) <==>
              && (op == SUM || op == MAX)
              && (|| (t == UINT8 && 1 <= count <= 16)
                  || (t == INT32 && 1 <= count <= 4)
                  || (t == INT64 && 1 <= count <= 2))
  {
  }

  // ---- Trees ----------------------------------------------------------------------------------

  /** Operands enter at the leaves; every node combines its inputs in the order they happened to arrive. */
  datatype Tree = Leaf(payload: Payload) | Node(inputs: seq<Tree>)

  predicate Grown(tree: Tree) {
    match tree
    case Leaf(_) => true
    case Node(inputs) => inputs != [] && forall i :: 0 <= i < |inputs| ==> Grown(inputs[i])
  }

  function Evaluate(tree: Tree, t: DType, op: ReduceOp, count: nat): Payload
    requires Grown(tree) && Mode(t, op, count)
  {
    match tree
    case Leaf(payload) => payload
    case Node(inputs) =>
      Reduce(seq(|inputs|, i requires 0 <= i < |inputs| => Evaluate(inputs[i], t, op, count)), t, op, count)
  }

  function Leaves(tree: Tree): seq<Payload>
    decreases tree, 0
  {
    match tree
    case Leaf(payload) => [payload]
    case Node(inputs) => LeavesOf(inputs)
  }

  function LeavesOf(trees: seq<Tree>): seq<Payload>
    decreases trees, 1
  {
    if trees == [] then [] else LeavesOf(trees[..|trees| - 1]) + Leaves(trees[|trees| - 1])
  }

  function Evaluations(trees: seq<Tree>, t: DType, op: ReduceOp, count: nat): (r: seq<Payload>)
    requires Mode(t, op, count) && forall i :: 0 <= i < |trees| ==> Grown(trees[i])
    ensures |r| == |trees|
  {
    seq(|trees|, i requires 0 <= i < |trees| => Evaluate(trees[i], t, op, count))
  }

  lemma LanesInLane(values: seq<Payload>, t: DType, e: nat)
    requires (e + 1) * LaneBytes(t) <= 16
    ensures AllInLane(t, Lanes(values, t, e))
  {
    forall i | 0 <= i < |values|
      ensures InLane(t, Lanes(values, t, e)[i])
    {
      LaneInLane(values[i], t, e);
    }
  }

  /** A lane of a subtree's value is the fold of that lane over the subtree's leaves. */
  lemma {:induction false} LaneOfTree(tree: Tree, t: DType, op: ReduceOp, count: nat, e: nat)
    requires Grown(tree) && Mode(t, op, count) && e < count
    ensures (e + 1) * LaneBytes(t) <= 16 && Leaves(tree) != []
    ensures Lane(Evaluate(tree, t, op, count), t, e) == Fold(t, op, Lanes(Leaves(tree), t, e))
    decreases tree, 0
  {
    ModeBytes(t, op, count, e);
    match tree
    case Leaf(payload) =>
    case Node(inputs) =>
      LaneOfTrees(inputs, t, op, count, e);
      LaneOfReduce(Evaluations(inputs, t, op, count), t, op, count, e);
  }

  lemma {:induction false} LaneOfTrees(trees: seq<Tree>, t: DType, op: ReduceOp, count: nat, e: nat)
    requires trees != [] && Mode(t, op, count) && e < count && forall i :: 0 <= i < |trees| ==> Grown(trees[i])
    ensures (e + 1) * LaneBytes(t) <= 16 && LeavesOf(trees) != []
    ensures Fold(t, op, Lanes(Evaluations(trees, t, op, count), t, e)) == Fold(t, op, Lanes(LeavesOf(trees), t, e))
    decreases trees, 1
  {
    ModeBytes(t, op, count, e);
    var before, last := trees[..|trees| - 1], trees[|trees| - 1];
    LaneOfTree(last, t, op, count, e);
    EvaluationsNext(trees, t, op, count);
    if before != [] {
      LaneOfTrees(before, t, op, count, e);
    }
    GatherLane(Evaluations(before, t, op, count), LeavesOf(before), Evaluate(last, t, op, count), Leaves(last), t, op,
        e);
  }

  lemma EvaluationsNext(trees: seq<Tree>, t: DType, op: ReduceOp, count: nat)
    requires trees != [] && Mode(t, op, count) && forall i :: 0 <= i < |trees| ==> Grown(trees[i])
    ensures Evaluations(trees, t, op, count)
            == Evaluations(trees[..|trees| - 1], t, op, count) + [Evaluate(trees[|trees| - 1], t, op, count)]
  {
  }

  /** Folding one more subtree's value in is folding all its leaves in. */
  lemma GatherLane(evals: seq<Payload>, leaves: seq<Payload>, value: Payload, more: seq<Payload>, t: DType,
          op: ReduceOp, e: nat)
    requires (e + 1) * LaneBytes(t) <= 16 && more != [] && (evals == [] <==> leaves == [])
    requires evals != [] ==> Fold(t, op, Lanes(evals, t, e)) == Fold(t, op, Lanes(leaves, t, e))
    requires Lane(value, t, e) == Fold(t, op, Lanes(more, t, e))
    ensures Fold(t, op, Lanes(evals + [value], t, e)) == Fold(t, op, Lanes(leaves + more, t, e))
  {
    if evals == [] {
      assert evals + [value] == [value] && leaves + more == more;
    } else {
      GatherMore(evals, leaves, value, more, t, op, e);
    }
  }

  lemma GatherMore(evals: seq<Payload>, leaves: seq<Payload>, value: Payload, more: seq<Payload>, t: DType,
          op: ReduceOp, e: nat)
    requires (e + 1) * LaneBytes(t) <= 16 && evals != [] && leaves != [] && more != []
    requires Fold(t, op, Lanes(evals, t, e)) == Fold(t, op, Lanes(leaves, t, e))
    requires Lane(value, t, e) == Fold(t, op, Lanes(more, t, e))
    ensures Fold(t, op, Lanes(evals + [value], t, e)) == Fold(t, op, Lanes(leaves + more, t, e))
  {
    LanesConcat(evals, [value], t, e);
    LanesConcat(leaves, more, t, e);
    LanesInLane(leaves, t, e);
    LanesInLane(more, t, e);
    FoldConcat(t, op, Lanes(leaves, t, e), Lanes(more, t, e));
    assert Lanes([value], t, e) == [Lane(value, t, e)];
    FoldNext(t, op, Lanes(evals, t, e), Lane(value, t, e));
  }

  lemma LanesConcat(a: seq<Payload>, b: seq<Payload>, t: DType, e: nat)
    requires (e + 1) * LaneBytes(t) <= 16
    ensures Lanes(a + b, t, e) == Lanes(a, t, e) + Lanes(b, t, e)
  {
  }

  predicate SameFold(a: seq<Payload>, b: seq<Payload>, t: DType, op: ReduceOp, e: nat) {
    a != [] && b != [] && (e + 1) * LaneBytes(t) <= 16 && Fold(t, op, Lanes(a, t, e)) == Fold(t, op, Lanes(b, t, e))
  }

  /** Reductions that agree on every lane's fold are the same payload. */
  lemma SameFolds(a: seq<Payload>, b: seq<Payload>, t: DType, op: ReduceOp, count: nat)
    requires a != [] && b != [] && Mode(t, op, count)
    requires forall e :: 0 <= e < count ==> SameFold(a, b, t, op, e)
    ensures Reduce(a, t, op, count) == Reduce(b, t, op, count)
  {
    forall e | 0 <= e < count
      ensures Folded(a, t, op, count)[e] == Folded(b, t, op, count)[e]
    {
      assert SameFold(a, b, t, op, e);
    }
    assert Folded(a, t, op, count) == Folded(b, t, op, count);
  }

  /** A reduction tree of any shape computes, bit for bit, the flat reduction of all its leaves. */
  lemma TreeIsFlat(tree: Tree, t: DType, op: ReduceOp, count: nat)
    requires tree.Node? && Grown(tree) && Mode(t, op, count)
    ensures Leaves(tree) != []
    ensures Evaluate(tree, t, op, count) == Reduce(Leaves(tree), t, op, count)
  {
    LaneOfTrees(tree.inputs, t, op, count, 0);
    forall e | 0 <= e < count
      ensures SameFold(Evaluations(tree.inputs, t, op, count), Leaves(tree), t, op, e)
    {
      LaneOfTrees(tree.inputs, t, op, count, e);
    }
    SameFolds(Evaluations(tree.inputs, t, op, count), Leaves(tree), t, op, count);
  }

  lemma {:induction false} LanesMultiset(a: seq<Payload>, b: seq<Payload>, t: DType, e: nat)
    requires (e + 1) * LaneBytes(t) <= 16 && multiset(a) == multiset(b)
    ensures multiset(Lanes(a, t, e)) == multiset(Lanes(b, t, e))
    decreases |a|
  {
    assert |multiset(a)| == |a| && |multiset(b)| == |b|;
    if a == [] {
      assert b == [];
    } else {
      var n := |a| - 1;
      assert a == a[..n] + [a[n]];
      var i := Extract(b, a[n], multiset(a[..n]));
      var front, back := b[..i], b[i + 1..];
      LanesMultiset(a[..n], front + back, t, e);
      assert b == front + ([a[n]] + back);
      LanesConcat(a[..n], [a[n]], t, e);
      LanesConcat(front, back, t, e);
      LanesConcat(front, [a[n]] + back, t, e);
      LanesConcat([a[n]], back, t, e);
    }
  }

  /** Neither the shape of the tree nor any node's arrival order shows in the result: only the operands do. */
  lemma ShapeAndOrderIrrelevant(a: Tree, b: Tree, t: DType, op: ReduceOp, count: nat)
    requires a.Node? && b.Node? && Grown(a) && Grown(b) && Mode(t, op, count)
    requires multiset(Leaves(a)) == multiset(Leaves(b))
    ensures Evaluate(a, t, op, count) == Evaluate(b, t, op, count)
  {
    TreeIsFlat(a, t, op, count);
    TreeIsFlat(b, t, op, count);
    ReducePermutes(Leaves(a), Leaves(b), t, op, count);
  }

  lemma ReducePermutes(a: seq<Payload>, b: seq<Payload>, t: DType, op: ReduceOp, count: nat)
    requires a != [] && b != [] && Mode(t, op, count) && multiset(a) == multiset(b)
    ensures Reduce(a, t, op, count) == Reduce(b, t, op, count)
  {
    forall e | 0 <= e < count
      ensures SameFold(a, b, t, op, e)
    {
      ModeBytes(t, op, count, e);
      LanesMultiset(a, b, t, e);
      LanesInLane(a, t, e);
      LanesInLane(b, t, e);
      assert |Lanes(a, t, e)| > 0;
      FoldPermutes(t, op, Lanes(a, t, e), Lanes(b, t, e));
    }
    SameFolds(a, b, t, op, count);
  }
}
