/** The round-robin arbiter of links that share one physical link group. */
module GroupArbiter {
  import opened Basics
  import opened SafRuntime

  /** The cycle last seen, its grant, the last winner, and the members that asked during it. */
  datatype Arbiter = Arbiter(cycle: int, grant: int, lastWinner: int, pending: set<int>)

  const NONE := -1

  function Idle(): Arbiter {
    Arbiter(NONE, NONE, NONE, {})
  }

  /** The first pending member after the last winner, wrapping to the smallest. */
  ghost predicate IsNext(pending: set<int>, last: int, w: int) {
    && w in pending
    && (if exists p :: p in pending && p > last
        then w > last && forall p :: p in pending && p > last ==> w <= p
        else forall p :: p in pending ==> w <= p)
  }

  ghost predicate Smallest(s: set<int>, w: int) {
    w in s && forall p :: p in s ==> w <= p
  }

  lemma {:induction false} SmallestExists(s: set<int>) returns (w: int)
    requires s != {}
    ensures Smallest(s, w)
  {
    var x := Pick(s);
    w := x;
    if s - {x} != {} {
      var v := SmallestExists(s - {x});
      w := if x < v then x else v;
      forall p | p in s
        ensures w <= p
      {
        assert p == x || p in s - {x};
      }
    } else {
      assert s == {x};
    }
  }

  lemma NextExists(pending: set<int>, last: int)
    requires pending != {}
    ensures exists w :: IsNext(pending, last, w)
  {
    var above := set p | p in pending && p > last;
    if above != {} {
      var w := SmallestExists(above);
      assert forall p :: p in pending && p > last ==> p in above;
      assert IsNext(pending, last, w);
    } else {
      var w := SmallestExists(pending);
      assert forall p :: p in pending && p > last ==> p in above;
      assert IsNext(pending, last, w);
    }
  }

  ghost function Next(pending: set<int>, last: int): (w: int)
    requires pending != {}
    ensures IsNext(pending, last, w)
  {
    NextExists(pending, last);
    var w :| IsNext(pending, last, w);
    w
  }

  /** The first call of a cycle picks among the previous cycle's requests and starts collecting afresh. */
  ghost function Rollover(a: Arbiter, cycle: int): Arbiter {
    if cycle == a.cycle then a
    else if a.pending == {} then Arbiter(cycle, NONE, a.lastWinner, {})
    else
      var w := Next(a.pending, a.lastWinner);
      Arbiter(cycle, w, w, {})
  }

  ghost function Call(a: Arbiter, link: int, cycle: int, request: bool): Arbiter {
    var b := Rollover(a, cycle);
    if request then b.(pending := b.pending + {link}) else b
  }

  ghost predicate Granted(a: Arbiter, link: int, cycle: int, request: bool) {
    request && Rollover(a, cycle).grant == link
  }

  datatype Grant = Answer(granted: bool) | NotInitialised | Backwards

  /** A link outside the table, or in no group, shares nothing and always has its way. */
  predicate Contended(topo: Topology, link: int) {
    0 <= link < |topo| && Grouped(topo, link)
  }

  ghost predicate Initialised(topo: Topology, arbiters: map<GroupKey, Arbiter>) {
    forall i :: Contended(topo, i) ==> GroupOf(topo, i) in arbiters
  }

  /** One arbiter for each link group. */
  class LinkGroups {
    const topo: Topology
    var arbiters: map<GroupKey, Arbiter>

    constructor (t: Topology)
      ensures topo == t && Initialised(t, arbiters) && forall g :: g in arbiters ==> arbiters[g] == Idle()
    {
      topo := t;
      arbiters := map i | 0 <= i < |t| && Grouped(t, i) :: GroupOf(t, i) := Idle();
    }

    /**
     * A caller whose cycle count regresses is in error; so is one whose group has no arbiter. Neither changes
     * anything.
     */
    method LinkGroupGrant(link: int, now: int, request: bool) returns (r: Grant)
      modifies this
      ensures !Contended(topo, link) ==> r == Answer(request) && arbiters == old(arbiters)
      ensures Contended(topo, link) ==>
                var g := GroupOf(topo, link);
                if g !in old(arbiters) then r == NotInitialised && arbiters == old(arbiters)
                else
                  var a := old(arbiters)[g];
                  if now < a.cycle then r == Backwards && arbiters == old(arbiters)
                  else
                    r == Answer(Granted(a, link, now, request))
                    && arbiters == old(arbiters)[g := Call(a, link, now, request)]
      ensures Initialised(topo, old(arbiters)) ==> Initialised(topo, arbiters) && r != NotInitialised
    {
      if link < 0 || link >= |topo| || !Grouped(topo, link) {
        return Answer(request);
      }
      var g := GroupOf(topo, link);
      if g !in arbiters {
        return NotInitialised;
      }
      var a := arbiters[g];
      if now < a.cycle {
        return Backwards;
      }
      if now != a.cycle {
        a := a.(cycle := now, grant := NONE);
        if a.pending != {} {
          var pick := UpperBound(a.pending, a.lastWinner);
          a := a.(grant := pick, lastWinner := pick);
        }
        a := a.(pending := {});
      }
      if request {
        a := a.(pending := a.pending + {link});
      }
      arbiters := arbiters[g := a];
      r := Answer(request && a.grant == link);
    }
  }

  method UpperBound(pending: set<int>, last: int) returns (w: int)
    requires pending != {}
    ensures w == Next(pending, last)
  {
    ghost var some := Pick(pending);
    w :| w in pending;
    var todo := pending - {w};
    ghost var seen := {w};
    while todo != {}
      invariant todo <= pending && seen == pending - todo && IsNext(seen, last, w)
    {
      ghost var left := Pick(todo);
      var p :| p in todo;
      if (p > last && (w <= last || p < w)) || (p <= last && w <= last && p < w) {
        w := p;
      }
      todo, seen := todo - {p}, seen + {p};
    }
    assert seen == pending;
    NextUnique(pending, last, w, Next(pending, last));
  }

  lemma NextUnique(pending: set<int>, last: int, v: int, w: int)
    requires IsNext(pending, last, v) && IsNext(pending, last, w)
    ensures v == w
  {
  }

  // ---- Independence from call order -----------------------------------------------------------

  /** One cycle's calls, in the order the simulator happens to make them. */
  ghost function Calls(a: Arbiter, cycle: int, calls: seq<(int, bool)>): Arbiter {
    if calls == [] then a
    else
      var last := calls[|calls| - 1];
      Call(Calls(a, cycle, calls[..|calls| - 1]), last.0, cycle, last.1)
  }

  ghost predicate Answered(a: Arbiter, cycle: int, calls: seq<(int, bool)>, i: nat)
    requires i < |calls|
  {
    Granted(Calls(a, cycle, calls[..i]), calls[i].0, cycle, calls[i].1)
  }

  function Requesters(calls: seq<(int, bool)>): set<int> {
    set c | c in calls && c.1 :: c.0
  }

  /** The state a cycle leaves depends only on who asked. */
  lemma {:induction false} CycleState(a: Arbiter, cycle: int, calls: seq<(int, bool)>)
    requires calls != [] && cycle != a.cycle
    ensures Calls(a, cycle, calls) == Rollover(a, cycle).(pending := Requesters(calls))
  {
    var n := |calls| - 1;
    var before, last := calls[..n], calls[n];
    assert calls == before + [last];
    assert Requesters(calls) == Requesters(before) + if last.1 then {last.0} else {};
    if before != [] {
      CycleState(a, cycle, before);
    }
  }

  /** An answer depends only on the asker and the cycle's one pick. */
  lemma CycleAnswer(a: Arbiter, cycle: int, calls: seq<(int, bool)>, i: nat)
    requires i < |calls| && cycle != a.cycle
    ensures Answered(a, cycle, calls, i) <==> calls[i].1 && Rollover(a, cycle).grant == calls[i].0
  {
    if i > 0 {
      CycleState(a, cycle, calls[..i]);
    }
  }

  /** Reordering a cycle's calls changes neither the next state nor anyone's answer, and at most one link wins. */
  lemma OrderIndependent(a: Arbiter, cycle: int, calls: seq<(int, bool)>, calls': seq<(int, bool)>)
    requires calls != [] && cycle != a.cycle && multiset(calls) == multiset(calls')
    ensures Calls(a, cycle, calls) == Calls(a, cycle, calls')
    ensures forall i, j :: 0 <= i < |calls| && 0 <= j < |calls'| && calls[i] == calls'[j] ==>
              (Answered(a, cycle, calls, i) <==> Answered(a, cycle, calls', j))
    ensures forall i, j :: 0 <= i < |calls| && 0 <= j < |calls| ==>
              Answered(a, cycle, calls, i) && Answered(a, cycle, calls, j) ==> calls[i].0 == calls[j].0
  {
    assert |multiset(calls)| == |multiset(calls')|;
    CycleState(a, cycle, calls);
    CycleState(a, cycle, calls');
    forall i | 0 <= i < |calls|
      ensures Answered(a, cycle, calls, i) <==> calls[i].1 && Rollover(a, cycle).grant == calls[i].0
    {
      CycleAnswer(a, cycle, calls, i);
    }
    forall i | 0 <= i < |calls'|
      ensures Answered(a, cycle, calls', i) <==> calls'[i].1 && Rollover(a, cycle).grant == calls'[i].0
    {
      CycleAnswer(a, cycle, calls', i);
    }
    forall c
      ensures c in calls <==> c in calls'
    {
      assert c in calls <==> c in multiset(calls);
      assert c in calls' <==> c in multiset(calls');
    }
    assert Requesters(calls) == Requesters(calls');
  }

  // ---- Fairness -------------------------------------------------------------------------------

  /** A whole cycle, by the set of members that asked in it. */
  ghost function Round(a: Arbiter, requests: set<int>): Arbiter {
    Rollover(a, a.cycle + 1).(pending := requests)
  }

  /** That is what the calls of a cycle come to, in whatever order they are made. */
  lemma RoundIsCalls(a: Arbiter, calls: seq<(int, bool)>)
    requires calls != []
    ensures Round(a, Requesters(calls)) == Calls(a, a.cycle + 1, calls)
  {
    CycleState(a, a.cycle + 1, calls);
  }

  /** The arbiter after cycles with these requests. */
  ghost function Rounds(a: Arbiter, requests: seq<set<int>>): Arbiter {
    if requests == [] then a else Round(Rounds(a, requests[..|requests| - 1]), requests[|requests| - 1])
  }

  /**
   * A cycle's grant goes to one of those who asked in the cycle before: the lowest above the last winner if
   * there is one, the lowest of all otherwise; and only if it asks again.
   */
  lemma GrantedIff(a: Arbiter, asked: set<int>, r: int, asks: bool)
    requires forall i :: i in asked ==> i >= 0
    ensures var b := Round(a, asked);
            Granted(b, r, b.cycle + 1, asks) && r >= 0 <==>
            && asks && r in asked
            && (forall i :: i in asked && i < r ==> i <= b.lastWinner < r)
            && (r <= b.lastWinner ==> forall i :: i in asked ==> i <= b.lastWinner)
  {
    var b := Round(a, asked);
    if asked != {} {
      var w := Next(asked, b.lastWinner);
      assert IsNext(asked, b.lastWinner, w);
    }
  }

  /** Members that the rotation reaches before `r`. */
  function Ahead(members: set<int>, last: int, r: int): set<int> {
    set m | m in members && m != r && if last < r then last < m < r else m > last || m < r
  }

  lemma RotationAdvances(members: set<int>, pending: set<int>, last: int, r: int)
    requires r in pending && pending <= members && Next(pending, last) != r
    ensures Ahead(members, Next(pending, last), r) < Ahead(members, last, r)
  {
    var w := Next(pending, last);
    assert w in Ahead(members, last, r);
    assert w !in Ahead(members, w, r);
    assert Ahead(members, w, r) <= Ahead(members, last, r);
  }

  /**
   * A member that keeps asking wins within as many cycles as the group has members. `a` is any state in
   * which its request is registered; `requests[k]` are the requests of the k-th cycle after that.
   */
  lemma {:induction false} WinsInTurn(members: set<int>, a: Arbiter, r: int, requests: seq<set<int>>) returns (k: nat)
    requires r in a.pending && a.pending <= members
    requires forall i :: 0 <= i < |requests| ==> r in requests[i] && requests[i] <= members
    requires |requests| >= |members|
    ensures k < |members|
    ensures Granted(Rounds(a, requests[..k]), r, Rounds(a, requests[..k]).cycle + 1, r in requests[k])
  {
    AheadSmaller(members, a.lastWinner, r);
    k := WinsAfter(members, a, r, requests);
  }

  lemma AheadSmaller(members: set<int>, last: int, r: int)
    requires r in members
    ensures |Ahead(members, last, r)| < |members|
  {
    SubsetSize(Ahead(members, last, r), members);
  }

  lemma {:induction false} WinsAfter(members: set<int>, a: Arbiter, r: int, requests: seq<set<int>>) returns (k: nat)
    requires r in a.pending && a.pending <= members
    requires forall i :: 0 <= i < |requests| ==> r in requests[i] && requests[i] <= members
    requires |requests| > |Ahead(members, a.lastWinner, r)|
    ensures k <= |Ahead(members, a.lastWinner, r)|
    ensures Granted(Rounds(a, requests[..k]), r, Rounds(a, requests[..k]).cycle + 1, r in requests[k])
    decreases |requests|
  {
    if Next(a.pending, a.lastWinner) == r {
      k := 0;
    } else {
      RotationAdvances(members, a.pending, a.lastWinner, r);
      var next := Round(a, requests[0]);
      SubsetSize(Ahead(members, next.lastWinner, r), Ahead(members, a.lastWinner, r));
      var j := WinsAfter(members, next, r, requests[1..]);
      k := j + 1;
      RoundsFromFirst(a, requests[..k]);
      assert requests[..k][1..] == requests[1..][..j];
    }
  }

  lemma {:induction false} RoundsFromFirst(a: Arbiter, requests: seq<set<int>>)
    requires requests != []
    ensures Rounds(a, requests) == Rounds(Round(a, requests[0]), requests[1..])
  {
    if |requests| > 1 {
      RoundsFromFirst(a, requests[..|requests| - 1]);
      assert requests[..|requests| - 1][1..] == requests[1..][..|requests| - 2];
    }
  }
}
