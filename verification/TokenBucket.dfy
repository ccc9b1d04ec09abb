/** The token bucket that paces one sub-channel of a link. */
module TokenBucket {
  import opened Basics
  import opened Rates

  /** Tokens after a cycle: earn `num`, spend `den` on a packet, then cap so at most one packet is saved up. */
  function Tick(tokens: int, rate: Rate, want: bool): (int, bool)
  {
    var earned := tokens + rate.num;
    var sent := want && earned >= rate.den;
    var left := if sent then earned - rate.den else earned;
    (if left > rate.den then rate.den else left, sent)
  }

  function After(tokens: int, rate: Rate, wants: seq<bool>): int
  {
    if wants == [] then tokens
    else Tick(After(tokens, rate, wants[..|wants| - 1]), rate, wants[|wants| - 1]).0
  }

  function Sent(tokens: int, rate: Rate, wants: seq<bool>): nat
  {
    if wants == [] then 0
    else
      var before := wants[..|wants| - 1];
      Sent(tokens, rate, before)
      + if Tick(After(tokens, rate, before), rate, wants[|wants| - 1]).1 then 1 else 0
  }

  lemma Snoc(tokens: int, rate: Rate, before: seq<bool>, want: bool)
    ensures After(tokens, rate, before + [want]) == Tick(After(tokens, rate, before), rate, want).0
    ensures Sent(tokens, rate, before + [want])
            == Sent(tokens, rate, before) + if Tick(After(tokens, rate, before), rate, want).1 then 1 else 0
  {
    assert (before + [want])[..|before|] == before;
  }

  /** What the bucket would hold had it last been full in cycle `m`; it starts empty in cycle 0. */
  function Allowance(rate: Rate, outs: seq<int>, m: nat): int
    requires m < |outs|
  {
    (if m == 0 then 0 else rate.den) + (|outs| - 1 - m) * rate.num - (outs[|outs| - 1] - outs[m]) * rate.den
  }

  /** `outs[m]` packets had gone by cycle `m`: the balance is the least of the allowances. */
  predicate Balanced(tokens: int, rate: Rate, outs: seq<int>) {
    && outs != []
    && (forall m :: 0 <= m < |outs| ==> tokens <= Allowance(rate, outs, m))
    && (exists m :: 0 <= m < |outs| && tokens == Allowance(rate, outs, m))
  }

  /** At most one packet above what the rate earns in a window, and none in a window that begins at reset. */
  predicate Allows(rate: Rate, packets: int, cycles: int, reset: bool) {
    packets * rate.den <= (if reset then 0 else rate.den) + cycles * rate.num
  }

  /** One packet more in the coming cycle stays within the rate, counted from every earlier cycle on. */
  predicate Affordable(rate: Rate, outs: seq<int>) {
    forall m :: 0 <= m < |outs| ==> Allows(rate, outs[|outs| - 1] + 1 - outs[m], |outs| - m, m == 0)
  }

  lemma AllowanceNext(rate: Rate, outs: seq<int>, sent: bool, m: nat)
    requires m < |outs|
    ensures var outs' := outs + [outs[|outs| - 1] + if sent then 1 else 0];
            Allowance(rate, outs', m) == Allowance(rate, outs, m) + rate.num - if sent then rate.den else 0
  {
    OneMore(|outs| - 1 - m, rate.num);
    OneMore(outs[|outs| - 1] - outs[m], rate.den);
  }

  lemma BalanceNext(tokens: int, rate: Rate, outs: seq<int>, sent: bool)
    requires Balanced(tokens, rate, outs)
    ensures Balanced(Min(tokens + rate.num - if sent then rate.den else 0, rate.den), rate,
                     outs + [outs[|outs| - 1] + if sent then 1 else 0])
  {
    var tokens' := Min(tokens + rate.num - if sent then rate.den else 0, rate.den);
    var outs' := outs + [outs[|outs| - 1] + if sent then 1 else 0];
    forall m | 0 <= m < |outs'|
      ensures tokens' <= Allowance(rate, outs', m)
    {
      if m < |outs| {
        AllowanceNext(rate, outs, sent, m);
      }
    }
    var m :| 0 <= m < |outs| && tokens == Allowance(rate, outs, m);
    AllowanceNext(rate, outs, sent, m);
    assert tokens' == Allowance(rate, outs', m) || tokens' == Allowance(rate, outs', |outs|);
  }

  /** The bucket lets a packet go exactly if that keeps every window within the rate. */
  lemma EnoughIffAffordable(tokens: int, rate: Rate, outs: seq<int>)
    requires Balanced(tokens, rate, outs)
    ensures tokens + rate.num >= rate.den <==> Affordable(rate, outs)
  {
    forall m | 0 <= m < |outs|
      ensures Allowance(rate, outs, m) + rate.num >= rate.den <==>
              Allows(rate, outs[|outs| - 1] + 1 - outs[m], |outs| - m, m == 0)
    {
      OneMore(|outs| - 1 - m, rate.num);
      OneMore(outs[|outs| - 1] - outs[m], rate.den);
    }
  }

  /** In cycle `n + 1` nothing goes, or one packet that is affordable. */
  predicate Paced(rate: Rate, outs: seq<int>, n: nat)
    requires n + 1 < |outs|
  {
    outs[n + 1] == outs[n] || (outs[n + 1] == outs[n] + 1 && Affordable(rate, outs[..n + 1]))
  }

  lemma {:induction false} PacedWindow(rate: Rate, outs: seq<int>, m: nat, n: nat)
    requires rate.Valid() && m <= n < |outs| && forall k :: 0 <= k < |outs| - 1 ==> Paced(rate, outs, k)
    ensures Allows(rate, outs[n] - outs[m], n - m, m == 0)
  {
    if m < n {
      PacedWindow(rate, outs, m, n - 1);
      assert Paced(rate, outs, n - 1);
      OneMore(n - 1 - m, rate.num);
      if outs[n] > outs[n - 1] {
        assert Allows(rate, outs[..n][n - 1] + 1 - outs[..n][m], n - m, m == 0);
      }
    }
  }

  /** A continuously backlogged stretch of `n` cycles. */
  function Backlog(n: nat): seq<bool> {
    seq(n, _ => true)
  }

  lemma BacklogPrefix(n: nat)
    requires n > 0
    ensures Backlog(n)[..n - 1] == Backlog(n - 1)
  {
  }

  lemma {:induction false} TokensBounded(tokens: int, rate: Rate, wants: seq<bool>)
    requires rate.Valid() && 0 <= tokens <= rate.den
    ensures 0 <= After(tokens, rate, wants) <= rate.den
  {
    if wants != [] {
      TokensBounded(tokens, rate, wants[..|wants| - 1]);
    }
  }

  /** Rate bound: no demand pattern gets more than one packet above the earned rate out of any window. */
  lemma {:induction false} WindowBound(tokens: int, rate: Rate, wants: seq<bool>)
    requires rate.Valid() && 0 <= tokens <= rate.den
    ensures Sent(tokens, rate, wants) * rate.den <= rate.den + |wants| * rate.num
  {
    SpendBound(tokens, rate, wants);
    TokensBounded(tokens, rate, wants);
  }

  /** Tokens spent and tokens held never exceed what was earned plus the opening balance. */
  lemma {:induction false} SpendBound(tokens: int, rate: Rate, wants: seq<bool>)
    requires rate.Valid() && 0 <= tokens <= rate.den
    ensures Sent(tokens, rate, wants) * rate.den + After(tokens, rate, wants) <= tokens + |wants| * rate.num
  {
    if wants != [] {
      var before := wants[..|wants| - 1];
      SpendBound(tokens, rate, before);
      assert (Sent(tokens, rate, before) + 1) * rate.den == Sent(tokens, rate, before) * rate.den + rate.den;
      assert |wants| * rate.num == |before| * rate.num + rate.num;
    }
  }

  /** Under backlog the cap never discards a token, so the account is exact. */
  lemma {:induction false} BacklogAccount(tokens: int, rate: Rate, n: nat)
    requires rate.Valid() && 0 <= tokens <= rate.den
    ensures Sent(tokens, rate, Backlog(n)) * rate.den + After(tokens, rate, Backlog(n)) == tokens + n * rate.num
    ensures n > 0 && rate.num < rate.den ==> After(tokens, rate, Backlog(n)) < rate.den
    ensures tokens < rate.den ==> After(tokens, rate, Backlog(n)) < rate.den
    ensures rate.num == rate.den ==> After(tokens, rate, Backlog(n)) == tokens
  {
    if n > 0 {
      BacklogPrefix(n);
      var before := Backlog(n - 1);
      assert Backlog(n)[n - 1];
      BacklogAccount(tokens, rate, n - 1);
      TokensBounded(tokens, rate, before);
      assert (Sent(tokens, rate, before) + 1) * rate.den == Sent(tokens, rate, before) * rate.den + rate.den;
      assert n * rate.num == (n - 1) * rate.num + rate.num;
    }
  }

  /** Steady state: once a backlogged cycle has passed, every `den`-cycle window carries exactly `num` packets. */
  lemma SteadyWindow(tokens: int, rate: Rate, elapsed: nat)
    requires rate.Valid() && 0 <= tokens <= rate.den && elapsed > 0
    ensures var start := After(tokens, rate, Backlog(elapsed));
            Sent(start, rate, Backlog(rate.den)) == rate.num
  {
    var start := After(tokens, rate, Backlog(elapsed));
    BacklogAccount(tokens, rate, elapsed);
    TokensBounded(tokens, rate, Backlog(elapsed));
    BacklogAccount(start, rate, rate.den);
    TokensBounded(start, rate, Backlog(rate.den));
    NearMultiple(Sent(start, rate, Backlog(rate.den)), rate.num, rate.den,
                 start - After(start, rate, Backlog(rate.den)));
  }

  lemma NearMultiple(a: int, b: int, d: int, slack: int)
    requires d > 0 && a * d == b * d + slack && -d < slack < d
    ensures a == b
  {
    if a > b {
      MulMono(b + 1, a, d);
    } else if a < b {
      MulMono(a, b - 1, d);
    }
  }

  /**
   * The behavioural formula is the cycle-accurate schedule: starting from an empty bucket, `packets`
   * packets have left by cycle `n` exactly when `n` reaches the closed-form service time.
   */
  lemma ServiceCyclesIsSchedule(packets: int, rate: Rate, n: nat)
    requires ServiceCycles(packets, rate).Cycles?
    ensures Sent(0, rate, Backlog(n)) >= packets <==> n >= ServiceCycles(packets, rate).cycles
  {
    BacklogAccount(0, rate, n);
    TokensBounded(0, rate, Backlog(n));
    ServiceCyclesLeast(packets, rate, n);
    var sent := Sent(0, rate, Backlog(n));
    if sent >= packets {
      MulMono(packets, sent, rate.den);
    } else {
      MulMono(sent, packets - 1, rate.den);
      assert (packets - 1) * rate.den == packets * rate.den - rate.den;
    }
  }
}
