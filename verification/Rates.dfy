/** Rational link rates, the credit round trip, and the closed-form service time. */
module Rates {
  import opened Basics

  /** A packets-per-cycle rate `num/den`; a physical channel carries at most one packet a cycle. */
  datatype Rate = Rate(num: int, den: int) {
    predicate Valid() {
      0 < num <= den
    }
  }

  /** Interface registers a credit crosses: the sender's boundary and the credit receiver's. */
  const CREDIT_PIPE := 2

  /** A clocked link spends at least one cycle in each direction, even with latency 0. */
  function ServiceLatency(latency: int): (l: int)
    ensures l >= 1
  {
    if latency > 0 then latency else 1
  }

  function CreditRttCycles(latency: int): int {
    2 * ServiceLatency(latency) + CREDIT_PIPE
  }

  /** Packets that must be in the credit loop to cover one round trip at `rate`. */
  function BdpPackets(latency: int, rate: Rate): int
    requires rate.Valid()
  {
    (CreditRttCycles(latency) * rate.num + rate.den - 1) / rate.den
  }

  datatype Service = Cycles(cycles: int) | BadPackets | BadRate | Overflow

  const INT64_MAX := 0x7FFF_FFFF_FFFF_FFFF

  /** Cycles to serialize `packets` packets at `rate`, with the argument checks of the source. */
  function ServiceCycles(packets: int, rate: Rate): Service {
    if packets < 1 then BadPackets
    else if !rate.Valid() then BadRate
    else if packets > INT64_MAX / rate.den then Overflow
    else
      var n := packets * rate.den;
      Cycles(n / rate.num + if n % rate.num != 0 then 1 else 0)
  }

  function CeilDiv(a: nat, b: int): (c: nat)
    requires b > 0
    ensures (c - 1) * b < a <= c * b
  {
    DivBounds(a + b - 1, b);
    (a + b - 1) / b
  }

  lemma DivBounds(a: nat, b: int)
    requires b > 0
    ensures a / b * b <= a < (a / b + 1) * b
    ensures a / b >= 0
  {
    assert a == a / b * b + a % b;
  }

  /** `CeilDiv` is the least integer whose product with `b` reaches `a`. */
  lemma CeilDivLeast(a: nat, b: int, n: int)
    requires b > 0
    ensures n >= CeilDiv(a, b) <==> n * b >= a
  {
    var c: int := CeilDiv(a, b);
    if n >= c {
      MulMono(c, n, b);
    } else {
      MulMono(n, c - 1, b);
    }
  }

  lemma MulSwap(a: int, b: int, c: int)
    ensures a * b * c == a * c * b
  {
  }

  lemma CeilDivExact(a: nat, b: int)
    requires b > 0
    ensures a * b >= 0 && CeilDiv(a * b, b) == a
  {
    MulMono(0, a, b);
    CeilDivLeast(a * b, b, a);
    CeilDivLeast(a * b, b, a - 1);
    assert (a - 1) * b == a * b - b;
  }

  /** A depth covers the bandwidth-delay product exactly when it carries one round trip's packets. */
  lemma BdpCovers(latency: int, rate: Rate, depth: int)
    requires rate.Valid()
    ensures depth >= BdpPackets(latency, rate) <==> CreditRttCycles(latency) * rate.num <= depth * rate.den
  {
    var n := CreditRttCycles(latency) * rate.num;
    assert n >= 0 by { MulMono(0, CreditRttCycles(latency), rate.num); }
    CeilDivLeast(n, rate.den, depth);
  }

  /** The closed-form service time is the first cycle by which the bucket has earned `packets` tokens. */
  lemma ServiceCyclesLeast(packets: int, rate: Rate, n: int)
    requires ServiceCycles(packets, rate).Cycles?
    ensures n >= ServiceCycles(packets, rate).cycles <==> n * rate.num >= packets * rate.den
  {
    var a := packets * rate.den;
    MulMono(1, packets, rate.den);
    var s := ServiceCycles(packets, rate).cycles;
    DivBounds(a, rate.num);
    var q := a / rate.num;
    assert a == q * rate.num + a % rate.num;
    if n >= s {
      MulMono(s, n, rate.num);
      assert (q + 1) * rate.num == q * rate.num + rate.num;
    } else {
      MulMono(n, s - 1, rate.num);
      assert (q - 1) * rate.num == q * rate.num - rate.num;
    }
  }
}
