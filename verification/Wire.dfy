/** Bit vectors laid out as consecutive unsigned fields, least significant field first. */
module Wire {
  type Bits = seq<bool>

  function Pow2(n: nat): nat {
    if n == 0 then 1 else 2 * Pow2(n - 1)
  }

  function Value(b: Bits): nat {
    if b == [] then 0 else (if b[0] then 1 else 0) + 2 * Value(b[1..])
  }

  function Encode(v: nat, n: nat): (b: Bits)
    ensures |b| == n
  {
    if n == 0 then [] else [v % 2 == 1] + Encode(v / 2, n - 1)
  }

  lemma {:induction false} ValueOfEncode(v: nat, n: nat)
    requires v < Pow2(n)
    ensures Value(Encode(v, n)) == v
  {
    if n > 0 {
      ValueOfEncode(v / 2, n - 1);
      assert Encode(v, n)[1..] == Encode(v / 2, n - 1);
    }
  }

  lemma {:induction false} EncodeOfValue(b: Bits)
    ensures Encode(Value(b), |b|) == b && Value(b) < Pow2(|b|)
  {
    if b != [] {
      EncodeOfValue(b[1..]);
      var bit := if b[0] then 1 else 0;
      assert (bit + 2 * Value(b[1..])) / 2 == Value(b[1..]);
    }
  }

  /** The source's inclusive bit range. */
  function Range(w: Bits, hi: nat, lo: nat): nat
    requires lo <= hi < |w|
  {
    Value(w[lo..hi + 1])
  }

  // ---- Layouts --------------------------------------------------------------------------------

  function Width(layout: seq<nat>): nat {
    if layout == [] then 0 else Width(layout[..|layout| - 1]) + layout[|layout| - 1]
  }

  predicate Fits(layout: seq<nat>, vs: seq<nat>) {
    |vs| == |layout| && forall i :: 0 <= i < |vs| ==> vs[i] < Pow2(layout[i])
  }

  function Pack(layout: seq<nat>, vs: seq<nat>): (b: Bits)
    requires |vs| == |layout|
    ensures |b| == Width(layout)
  {
    if layout == [] then []
    else
      var n := |layout| - 1;
      Pack(layout[..n], vs[..n]) + Encode(vs[n], layout[n])
  }

  function Unpack(layout: seq<nat>, b: Bits): (vs: seq<nat>)
    requires |b| == Width(layout)
    ensures |vs| == |layout|
  {
    if layout == [] then []
    else
      var n := |layout| - 1;
      Unpack(layout[..n], b[..|b| - layout[n]]) + [Value(b[|b| - layout[n]..])]
  }

  /** Reading back what was written: every field keeps its value. */
  lemma {:induction false} UnpackPack(layout: seq<nat>, vs: seq<nat>)
    requires Fits(layout, vs)
    ensures Unpack(layout, Pack(layout, vs)) == vs
  {
    if layout != [] {
      var n := |layout| - 1;
      var front := Pack(layout[..n], vs[..n]);
      UnpackPack(layout[..n], vs[..n]);
      ValueOfEncode(vs[n], layout[n]);
      var b := Pack(layout, vs);
      assert b[..|b| - layout[n]] == front && b[|b| - layout[n]..] == Encode(vs[n], layout[n]);
    }
  }

  lemma PackLast(layout: seq<nat>, vs: seq<nat>, v: nat)
    requires layout != [] && |vs| == |layout| - 1
    ensures Pack(layout, vs + [v]) == Pack(layout[..|layout| - 1], vs) + Encode(v, layout[|layout| - 1])
  {
    assert (vs + [v])[..|vs|] == vs;
  }

  lemma {:induction false} UnpackFits(layout: seq<nat>, b: Bits)
    requires |b| == Width(layout)
    ensures Fits(layout, Unpack(layout, b))
  {
    if layout != [] {
      var n := |layout| - 1;
      UnpackFits(layout[..n], b[..|b| - layout[n]]);
      EncodeOfValue(b[|b| - layout[n]..]);
    }
  }

  lemma {:induction false} PackBack(layout: seq<nat>, b: Bits)
    requires |b| == Width(layout)
    ensures Pack(layout, Unpack(layout, b)) == b
  {
    if layout != [] {
      var n := |layout| - 1;
      var front, back := b[..|b| - layout[n]], b[|b| - layout[n]..];
      PackBack(layout[..n], front);
      EncodeOfValue(back);
      PackLast(layout, Unpack(layout[..n], front), Value(back));
      assert front + back == b;
    }
  }

  /** Writing what was read: the bits are the same, so a layout without gaps loses nothing. */
  lemma PackUnpack(layout: seq<nat>, b: Bits)
    requires |b| == Width(layout)
    ensures Fits(layout, Unpack(layout, b)) && Pack(layout, Unpack(layout, b)) == b
  {
    UnpackFits(layout, b);
    PackBack(layout, b);
  }

  lemma {:induction false} FieldFitsIn(layout: seq<nat>, i: nat)
    requires i < |layout|
    ensures Width(layout[..i]) + layout[i] <= Width(layout)
  {
    var n := |layout| - 1;
    if i < n {
      FieldFitsIn(layout[..n], i);
      assert layout[..n][..i] == layout[..i];
    }
  }

  /** A field is the bit range its place in the layout gives it. */
  lemma {:induction false} FieldIsRange(layout: seq<nat>, b: Bits, i: nat, lo: nat)
    requires |b| == Width(layout) && i < |layout| && lo == Width(layout[..i])
    ensures lo + layout[i] <= |b|
    ensures Unpack(layout, b)[i] == Value(b[lo..lo + layout[i]])
  {
    var n := |layout| - 1;
    var cut := |b| - layout[n];
    FieldFitsIn(layout, i);
    if i < n {
      assert layout[..n][..i] == layout[..i];
      FieldIsRange(layout[..n], b[..cut], i, lo);
      PrefixRange(b, cut, lo, lo + layout[i]);
    } else {
      assert b[cut..] == b[lo..lo + layout[i]];
    }
  }

  lemma PrefixRange(b: Bits, cut: nat, lo: nat, hi: nat)
    requires lo <= hi <= cut <= |b|
    ensures b[..cut][lo..hi] == b[lo..hi]
  {
  }

  /** Offsets of successive fields. */
  lemma WidthNext(layout: seq<nat>, i: nat)
    requires i < |layout|
    ensures Width(layout[..i + 1]) == Width(layout[..i]) + layout[i]
  {
    assert layout[..i + 1][..i] == layout[..i];
  }

  lemma {:induction false} Pow2Add(a: nat, b: nat)
    ensures Pow2(a + b) == Pow2(a) * Pow2(b)
  {
    if a > 0 {
      Pow2Add(a - 1, b);
      DoubleProduct(Pow2(a - 1), Pow2(b));
    }
  }

  lemma DoubleProduct(x: nat, y: nat)
    ensures 2 * x * y == 2 * (x * y)
  {
  }

  lemma WordSizes()
    ensures Pow2(8) == 256 && Pow2(16) == 0x1_0000 && Pow2(32) == 0x1_0000_0000
    ensures Pow2(64) == 0x1_0000_0000_0000_0000 && Pow2(24) == 0x100_0000
  {
    Pow2Add(8, 8);
    Pow2Add(16, 8);
    Pow2Add(16, 16);
    Pow2Add(32, 32);
  }

  predicate AllZero(b: Bits) {
    forall i :: 0 <= i < |b| ==> !b[i]
  }

  lemma {:induction false} ZeroValue(b: Bits)
    ensures Value(b) == 0 <==> AllZero(b)
  {
    if b != [] {
      ZeroValue(b[1..]);
      assert forall i :: 0 < i < |b| ==> b[i] == b[1..][i - 1];
    }
  }
}
