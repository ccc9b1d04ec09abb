/** The process-wide reservation state, updated in place with preflight, commit, rollback and per-hop release. */
module SafRuntimeUnit {
  import opened FlowLedger
  import opened SafRuntime
  import opened SafAgreement
  import opened SafReservation

  lemma NeedSnoc(topo: Topology, hops: seq<Hop>, h: Hop, link: int, g: GroupKey)
    ensures LinkNeed(hops + [h], link) == LinkNeed(hops, link) + if h.link == link then h.packets else 0
    ensures GroupNeed(topo, hops + [h], g) ==
              GroupNeed(topo, hops, g) + if Member(topo, h.link, g) then h.packets else 0
  {
    assert (hops + [h])[..|hops|] == hops;
  }

  lemma HopsSnoc(plans: seq<Plan>, n: nat)
    requires n < |plans|
    ensures Hops(plans[..n + 1]) == Hops(plans[..n]) + PlanHops(plans[n])
  {
    assert plans[..n + 1][..n] == plans[..n];
  }

  /** Hops committed when `n` plans are done and `j` links of the next. */
  function HopsUpTo(plans: seq<Plan>, n: nat, j: nat): seq<Hop>
    requires n < |plans| && j <= |plans[n].path|
  {
    Hops(plans[..n]) + PlanHops(plans[n])[..j]
  }

  lemma HopsUpToNext(plans: seq<Plan>, n: nat, j: nat)
    requires n < |plans| && j < |plans[n].path|
    ensures HopsUpTo(plans, n, j + 1) == HopsUpTo(plans, n, j) + [Hop(plans[n].path[j], plans[n].key, plans[n].packets)]
  {
  }

  lemma {:induction false} HopsPrefix(plans: seq<Plan>, n: nat)
    requires n <= |plans|
    ensures Hops(plans[..n]) <= Hops(plans)
    decreases |plans| - n
  {
    if n < |plans| {
      HopsPrefix(plans, n + 1);
      HopsSnoc(plans, n);
    } else {
      assert plans[..n] == plans;
    }
  }

  lemma {:induction false} AdmitsPrefix(topo: Topology, b: Books, hops: seq<Hop>, prefix: seq<Hop>)
    requires Shaped(topo, b) && OnTopology(topo, hops) && AdmitsAll(topo, b, hops) && prefix <= hops
    ensures AdmitsAll(topo, b, prefix)
  {
    if |prefix| < |hops| {
      AdmitsPrefix(topo, b, hops[..|hops| - 1], prefix);
    } else {
      assert prefix == hops;
    }
  }

  function LinksOf(hops: seq<Hop>): set<int> {
    set h | h in hops :: h.link
  }

  function GroupsIn(topo: Topology, hops: seq<Hop>): set<GroupKey> {
    set h | h in hops && 0 <= h.link < |topo| && Grouped(topo, h.link) :: GroupOf(topo, h.link)
  }

  /** The preflight's tables: every claimed link and group, with the packets claimed from it. */
  ghost predicate LinkTable(hops: seq<Hop>, need: map<int, int>) {
    need.Keys == LinksOf(hops) && forall i :: i in need ==> need[i] == LinkNeed(hops, i)
  }

  ghost predicate GroupTable(topo: Topology, hops: seq<Hop>, need: map<GroupKey, int>) {
    need.Keys == GroupsIn(topo, hops) && forall g :: g in need ==> need[g] == GroupNeed(topo, hops, g)
  }

  function Tally<K(==)>(need: map<K, int>, k: K, packets: int): map<K, int> {
    need[k := (if k in need then need[k] else 0) + packets]
  }

  lemma LinkTableNext(hops: seq<Hop>, h: Hop, need: map<int, int>)
    requires LinkTable(hops, need)
    ensures LinkTable(hops + [h], Tally(need, h.link, h.packets))
  {
    if h.link !in need {
      forall e | e in hops
        ensures e.link != h.link
      {
        assert e.link in LinksOf(hops);
      }
      NoLinkNeed(hops, h.link);
    }
    forall i | i in Tally(need, h.link, h.packets)
      ensures LinkNeed(hops + [h], i) == LinkNeed(hops, i) + if h.link == i then h.packets else 0
    {
      NeedSnoc([], hops, h, i, GroupKey(0, 0, 0));
    }
    assert LinksOf(hops + [h]) == LinksOf(hops) + {h.link};
  }

  lemma GroupTableNext(topo: Topology, hops: seq<Hop>, h: Hop, need: map<GroupKey, int>)
    requires GroupTable(topo, hops, need) && 0 <= h.link < |topo|
    ensures GroupTable(topo, hops + [h],
              if Grouped(topo, h.link) then Tally(need, GroupOf(topo, h.link), h.packets) else need)
  {
    var g := GroupOf(topo, h.link);
    if Grouped(topo, h.link) && g !in need {
      forall e | e in hops
        ensures !Member(topo, e.link, g)
      {
        assert 0 <= e.link < |topo| && Grouped(topo, e.link) ==> GroupOf(topo, e.link) in GroupsIn(topo, hops);
      }
      NoGroupNeed(topo, hops, g);
    }
    forall k
      ensures GroupNeed(topo, hops + [h], k) ==
                GroupNeed(topo, hops, k) + if Member(topo, h.link, k) then h.packets else 0
    {
      NeedSnoc(topo, hops, h, 0, k);
    }
    assert GroupsIn(topo, hops + [h]) == GroupsIn(topo, hops) + if Grouped(topo, h.link) then {g} else {};
  }

  lemma {:induction false} NoLinkNeed(hops: seq<Hop>, link: int)
    requires forall h :: h in hops ==> h.link != link
    ensures LinkNeed(hops, link) == 0
  {
    if hops != [] {
      NoLinkNeed(hops[..|hops| - 1], link);
    }
  }

  lemma {:induction false} NoGroupNeed(topo: Topology, hops: seq<Hop>, g: GroupKey)
    requires forall h :: h in hops ==> !Member(topo, h.link, g)
    ensures GroupNeed(topo, hops, g) == 0
  {
    if hops != [] {
      NoGroupNeed(topo, hops[..|hops| - 1], g);
    }
  }

  /** Taking back one claim is the exact inverse of the step that made it. */
  ghost predicate UndoesLink(after: seq<Ledger>, before: seq<Ledger>, claim: (int, FlowKey)) {
    && 0 <= claim.0 < |after| && claim.1 in after[claim.0].reservations
    && after[claim.0 := after[claim.0].Remove(claim.1)] == before
  }

  ghost predicate UndoesGroup(after: map<GroupKey, Ledger>, before: map<GroupKey, Ledger>, claim: (GroupKey, FlowKey)) {
    && claim.0 in after && claim.1 in after[claim.0].reservations
    && after[claim.0 := after[claim.0].Remove(claim.1)] == before
  }

  ghost predicate LinkTrail(trail: seq<seq<Ledger>>, claims: seq<(int, FlowKey)>) {
    |trail| == |claims| + 1 && forall k :: 0 <= k < |claims| ==> UndoesLink(trail[k + 1], trail[k], claims[k])
  }

  ghost predicate GroupTrail(trail: seq<map<GroupKey, Ledger>>, claims: seq<(GroupKey, FlowKey)>) {
    |trail| == |claims| + 1 && forall k :: 0 <= k < |claims| ==> UndoesGroup(trail[k + 1], trail[k], claims[k])
  }

  class Unit {
    const topo: Topology
    var links: seq<Ledger>
    var groups: map<GroupKey, Ledger>
    var flowLinks: map<FlowKey, set<int>>
    var flowGroups: map<FlowKey, set<GroupKey>>

    ghost function Ledgers(): Books
      reads this
    {
      Books(links, groups)
    }

    ghost function Abs(): Runtime
      reads this
    {
      Runtime(Ledgers(), flowLinks, flowGroups)
    }

    constructor (t: Topology, cap: nat)
      ensures topo == t && Abs() == Fresh(t, cap) && Agree(t, cap, Abs())
    {
      topo := t;
      links := seq(|t|, _ => EmptyLedger(cap));
      groups := map i | 0 <= i < |t| && Grouped(t, i) :: GroupOf(t, i) := EmptyLedger(cap);
      flowLinks, flowGroups := map[], map[];
      new;
      FreshAgrees(t, cap);
    }

    /** Preflight tables, refusing the first plan with a bad size or a key that is still active. */
    method CollectNeeds(plans: seq<Plan>)
      returns (outcome: Outcome, linkNeed: map<int, int>, groupNeed: map<GroupKey, int>)
      requires PathsOnTopology(topo, plans)
      ensures outcome == CheckPlans(Abs(), plans)
      ensures outcome == Reserved ==> LinkTable(Hops(plans), linkNeed) && GroupTable(topo, Hops(plans), groupNeed)
    {
      linkNeed, groupNeed := map[], map[];
      for n := 0 to |plans|
        invariant CheckPlans(Abs(), plans[..n]) == Reserved
        invariant LinkTable(Hops(plans[..n]), linkNeed) && GroupTable(topo, Hops(plans[..n]), groupNeed)
      {
        var p := plans[n];
        assert plans[..n + 1][..n] == plans[..n];
        if p.packets <= 0 {
          CheckStays(Abs(), plans, n + 1);
          return BadFlowSize, linkNeed, groupNeed;
        }
        if p.key in flowLinks {
          CheckStays(Abs(), plans, n + 1);
          return DuplicatePath, linkNeed, groupNeed;
        }
        linkNeed, groupNeed := AddNeeds(plans, n, linkNeed, groupNeed);
        HopsSnoc(plans, n);
      }
      assert plans[..|plans|] == plans;
      outcome := Reserved;
    }

    method AddNeeds(plans: seq<Plan>, n: nat, ln: map<int, int>, gn: map<GroupKey, int>)
      returns (linkNeed: map<int, int>, groupNeed: map<GroupKey, int>)
      requires PathsOnTopology(topo, plans) && n < |plans|
      requires LinkTable(Hops(plans[..n]), ln) && GroupTable(topo, Hops(plans[..n]), gn)
      ensures LinkTable(Hops(plans[..n]) + PlanHops(plans[n]), linkNeed)
      ensures GroupTable(topo, Hops(plans[..n]) + PlanHops(plans[n]), groupNeed)
    {
      var p := plans[n];
      linkNeed, groupNeed := ln, gn;
      assert HopsUpTo(plans, n, 0) == Hops(plans[..n]);
      for j := 0 to |p.path|
        invariant LinkTable(HopsUpTo(plans, n, j), linkNeed)
        invariant GroupTable(topo, HopsUpTo(plans, n, j), groupNeed)
      {
        var i := p.path[j];
        assert p in plans;
        LinkTableNext(HopsUpTo(plans, n, j), Hop(i, p.key, p.packets), linkNeed);
        GroupTableNext(topo, HopsUpTo(plans, n, j), Hop(i, p.key, p.packets), groupNeed);
        HopsUpToNext(plans, n, j);
        linkNeed := Tally(linkNeed, i, p.packets);
        if Grouped(topo, i) {
          groupNeed := Tally(groupNeed, GroupOf(topo, i), p.packets);
        }
      }
      assert PlanHops(p)[..|p.path|] == PlanHops(p);
    }

    method CheckLinks(ghost hops: seq<Hop>, linkNeed: map<int, int>) returns (fit: bool)
      requires Shaped(topo, Ledgers()) && OnTopology(topo, hops) && LinkTable(hops, linkNeed)
      ensures fit == LinksFit(Ledgers(), hops)
    {
      var todo := linkNeed.Keys;
      while todo != {}
        invariant todo <= linkNeed.Keys
        invariant forall h :: h in hops && h.link !in todo ==> LinkNeed(hops, h.link) <= links[h.link].Available()
      {
        var i :| i in todo;
        ghost var h :| h in hops && h.link == i;
        if links[i].Available() < linkNeed[i] {
          return false;
        }
        todo := todo - {i};
      }
      fit := true;
    }

    method CheckGroups(ghost hops: seq<Hop>, groupNeed: map<GroupKey, int>) returns (fit: bool)
      requires Shaped(topo, Ledgers()) && OnTopology(topo, hops) && GroupTable(topo, hops, groupNeed)
      ensures fit == GroupsFit(topo, Ledgers(), hops)
    {
      var todo := groupNeed.Keys;
      while todo != {}
        invariant todo <= groupNeed.Keys
        invariant forall h :: h in hops && 0 <= h.link < |topo| && Grouped(topo, h.link) ==>
                    GroupOf(topo, h.link) in todo
                    || GroupNeed(topo, hops, GroupOf(topo, h.link)) <= groups[GroupOf(topo, h.link)].Available()
      {
        var g :| g in todo;
        ghost var h :| h in hops && 0 <= h.link < |topo| && Grouped(topo, h.link) && GroupOf(topo, h.link) == g;
        if groups[g].Available() < groupNeed[g] {
          return false;
        }
        todo := todo - {g};
      }
      fit := true;
    }

    /** The claims made since `b`, each with the state it was made in, lead back to `b`. */
    ghost predicate Undoable(b: Books, linksDone: seq<(int, FlowKey)>, groupsDone: seq<(GroupKey, FlowKey)>,
                             linkTrail: seq<seq<Ledger>>, groupTrail: seq<map<GroupKey, Ledger>>)
      reads this
    {
      && LinkTrail(linkTrail, linksDone) && linkTrail[0] == b.links && linkTrail[|linksDone|] == links
      && GroupTrail(groupTrail, groupsDone) && groupTrail[0] == b.groups && groupTrail[|groupsDone|] == groups
    }

    /** Reserve hop by hop; if one is refused after all, take back every earlier one and change nothing. */
    method CommitHops(plans: seq<Plan>) returns (ok: bool)
      requires Shaped(topo, Ledgers()) && PathsOnTopology(topo, plans)
      modifies this`links, this`groups
      ensures OnTopology(topo, Hops(plans))
      ensures ok == AdmitsAll(topo, old(Ledgers()), Hops(plans))
      ensures Ledgers() == if ok then AddHops(topo, old(Ledgers()), Hops(plans)) else old(Ledgers())
    {
      HopsOnTopology(topo, plans);
      ghost var b := Ledgers();
      var linksDone: seq<(int, FlowKey)>, groupsDone: seq<(GroupKey, FlowKey)> := [], [];
      ghost var linkTrail, groupTrail := [links], [groups];
      for n := 0 to |plans|
        invariant OnTopology(topo, Hops(plans[..n]))
        invariant AdmitsAll(topo, b, Hops(plans[..n])) && Ledgers() == AddHops(topo, b, Hops(plans[..n]))
        invariant Undoable(b, linksDone, groupsDone, linkTrail, groupTrail)
      {
        ok, linksDone, groupsDone, linkTrail, groupTrail :=
          CommitPlan(plans, n, b, linksDone, groupsDone, linkTrail, groupTrail);
        if !ok {
          Rollback(linksDone, groupsDone, linkTrail, groupTrail);
          return;
        }
        HopsSnoc(plans, n);
      }
      assert plans[..|plans|] == plans;
      ok := true;
    }

    method CommitPlan(plans: seq<Plan>, n: nat, ghost b: Books, ld: seq<(int, FlowKey)>, gd: seq<(GroupKey, FlowKey)>,
                      ghost lt: seq<seq<Ledger>>, ghost gt: seq<map<GroupKey, Ledger>>)
      returns (ok: bool, linksDone: seq<(int, FlowKey)>, groupsDone: seq<(GroupKey, FlowKey)>,
               ghost linkTrail: seq<seq<Ledger>>, ghost groupTrail: seq<map<GroupKey, Ledger>>)
      requires Shaped(topo, b) && PathsOnTopology(topo, plans) && n < |plans| && OnTopology(topo, Hops(plans[..n]))
      requires OnTopology(topo, Hops(plans))
      requires AdmitsAll(topo, b, Hops(plans[..n])) && Ledgers() == AddHops(topo, b, Hops(plans[..n]))
      requires Undoable(b, ld, gd, lt, gt)
      modifies this`links, this`groups
      ensures Undoable(b, linksDone, groupsDone, linkTrail, groupTrail)
      ensures ok ==> var done := Hops(plans[..n]) + PlanHops(plans[n]);
                     OnTopology(topo, done) && AdmitsAll(topo, b, done) && Ledgers() == AddHops(topo, b, done)
      ensures !ok ==> !AdmitsAll(topo, b, Hops(plans))
    {
      var p := plans[n];
      linksDone, groupsDone, linkTrail, groupTrail := ld, gd, lt, gt;
      assert HopsUpTo(plans, n, 0) == Hops(plans[..n]);
      for j := 0 to |p.path|
        invariant OnTopology(topo, HopsUpTo(plans, n, j))
        invariant AdmitsAll(topo, b, HopsUpTo(plans, n, j)) && Ledgers() == AddHops(topo, b, HopsUpTo(plans, n, j))
        invariant Undoable(b, linksDone, groupsDone, linkTrail, groupTrail)
      {
        NextHop(topo, b, plans, n, j);
        ok, linksDone, groupsDone, linkTrail, groupTrail :=
          CommitHop(Hop(p.path[j], p.key, p.packets), b, linksDone, groupsDone, linkTrail, groupTrail);
        if !ok {
          return;
        }
      }
      assert PlanHops(p)[..|p.path|] == PlanHops(p);
      ok := true;
    }

    method CommitHop(h: Hop, ghost b: Books, ld: seq<(int, FlowKey)>, gd: seq<(GroupKey, FlowKey)>,
                     ghost lt: seq<seq<Ledger>>, ghost gt: seq<map<GroupKey, Ledger>>)
      returns (ok: bool, linksDone: seq<(int, FlowKey)>, groupsDone: seq<(GroupKey, FlowKey)>,
               ghost linkTrail: seq<seq<Ledger>>, ghost groupTrail: seq<map<GroupKey, Ledger>>)
      requires 0 <= h.link < |topo| && Shaped(topo, Ledgers()) && Undoable(b, ld, gd, lt, gt)
      modifies this`links, this`groups
      ensures Undoable(b, linksDone, groupsDone, linkTrail, groupTrail)
      ensures ok == Admits(topo, old(Ledgers()), h)
      ensures ok ==> Ledgers() == AddHop(topo, old(Ledgers()), h)
    {
      linksDone, groupsDone, linkTrail, groupTrail := ld, gd, lt, gt;
      ok := ReserveLink(h.link, h.key, h.packets);
      if ok {
        linksDone, linkTrail := linksDone + [(h.link, h.key)], linkTrail + [links];
        if Grouped(topo, h.link) {
          ok := ReserveGroup(GroupOf(topo, h.link), h.key, h.packets);
          if ok {
            groupsDone, groupTrail := groupsDone + [(GroupOf(topo, h.link), h.key)], groupTrail + [groups];
          }
        }
      }
    }

    method ReserveLink(i: int, key: FlowKey, packets: int) returns (ok: bool)
      requires 0 <= i < |links|
      modifies this`links
      ensures ok == (old(links)[i].Admission(key, packets) == Admitted)
      ensures links == if ok then old(links)[i := old(links)[i].Add(key, packets)] else old(links)
      ensures ok ==> UndoesLink(links, old(links), (i, key))
    {
      ok := links[i].Admission(key, packets) == Admitted;
      if ok {
        RemoveUndoesAdd(links[i], key, packets);
        links := links[i := links[i].Add(key, packets)];
      }
    }

    method ReserveGroup(g: GroupKey, key: FlowKey, packets: int) returns (ok: bool)
      requires g in groups
      modifies this`groups
      ensures ok == (old(groups)[g].Admission(key, packets) == Admitted)
      ensures groups == if ok then old(groups)[g := old(groups)[g].Add(key, packets)] else old(groups)
      ensures ok ==> UndoesGroup(groups, old(groups), (g, key))
    {
      ok := groups[g].Admission(key, packets) == Admitted;
      if ok {
        RemoveUndoesAdd(groups[g], key, packets);
        groups := groups[g := groups[g].Add(key, packets)];
      }
    }

    /** Release the groups, then the links, newest claim first. */
    method Rollback(linksDone: seq<(int, FlowKey)>, groupsDone: seq<(GroupKey, FlowKey)>,
                    ghost linkTrail: seq<seq<Ledger>>, ghost groupTrail: seq<map<GroupKey, Ledger>>)
      requires LinkTrail(linkTrail, linksDone) && linkTrail[|linksDone|] == links
      requires GroupTrail(groupTrail, groupsDone) && groupTrail[|groupsDone|] == groups
      modifies this`links, this`groups
      ensures links == linkTrail[0] && groups == groupTrail[0]
    {
      var n := |groupsDone|;
      while n > 0
        invariant 0 <= n <= |groupsDone| && groups == groupTrail[n] && links == linkTrail[|linksDone|]
      {
        n := n - 1;
        assert UndoesGroup(groupTrail[n + 1], groupTrail[n], groupsDone[n]);
        groups := groups[groupsDone[n].0 := groups[groupsDone[n].0].Remove(groupsDone[n].1)];
      }
      n := |linksDone|;
      while n > 0
        invariant 0 <= n <= |linksDone| && links == linkTrail[n] && groups == groupTrail[0]
      {
        n := n - 1;
        assert UndoesLink(linkTrail[n + 1], linkTrail[n], linksDone[n]);
        links := links[linksDone[n].0 := links[linksDone[n].0].Remove(linksDone[n].1)];
      }
    }

    method RecordFlows(plans: seq<Plan>)
      requires PathsOnTopology(topo, plans)
      modifies this`flowLinks, this`flowGroups
      ensures flowLinks == RecordLinks(old(flowLinks), plans)
      ensures flowGroups == RecordGroups(topo, old(flowGroups), plans)
    {
      for n := 0 to |plans|
        invariant flowLinks == RecordLinks(old(flowLinks), plans[..n])
        invariant flowGroups == RecordGroups(topo, old(flowGroups), plans[..n])
      {
        var p := plans[n];
        assert p in plans && plans[..n + 1][..n] == plans[..n];
        flowLinks := flowLinks[p.key := Links(p.path)];
        RecordPlanGroups(p);
      }
      assert plans[..|plans|] == plans;
    }

    method RecordPlanGroups(p: Plan)
      requires forall i :: 0 <= i < |p.path| ==> 0 <= p.path[i] < |topo|
      modifies this`flowGroups
      ensures flowGroups == if GroupsOf(topo, p.path) == {} then old(flowGroups)
                            else old(flowGroups)[p.key := Recorded(old(flowGroups), p.key) + GroupsOf(topo, p.path)]
    {
      ghost var before := flowGroups;
      ghost var seen: set<GroupKey> := {};
      for j := 0 to |p.path|
        invariant seen == GroupsOf(topo, p.path[..j])
        invariant flowGroups == if seen == {} then before else before[p.key := Recorded(before, p.key) + seen]
      {
        var i := p.path[j];
        GroupsOfSnoc(topo, p.path, j);
        if Grouped(topo, i) {
          var g := GroupOf(topo, i);
          assert Recorded(flowGroups, p.key) + {g} == Recorded(before, p.key) + (seen + {g});
          flowGroups := flowGroups[p.key := Recorded(flowGroups, p.key) + {g}];
          seen := seen + {g};
        }
      }
      assert p.path[..|p.path|] == p.path;
    }

    /** The production entry point: all the plans are reserved, or nothing changes and the outcome says why. */
    method ReserveSafPlans(plans: seq<Plan>) returns (outcome: Outcome)
      requires Shaped(topo, Ledgers()) && PathsOnTopology(topo, plans)
      modifies this
      ensures outcome == ReserveOutcome(topo, old(Abs()), plans)
      ensures Abs() == Reserve(topo, old(Abs()), plans)
      ensures old(EachSound(Ledgers())) ==> EachSound(Ledgers())
    {
      HopsOnTopology(topo, plans);
      if EachSound(Ledgers()) {
        ReserveSound(topo, Abs(), plans);
      }
      var linkNeed, groupNeed;
      outcome, linkNeed, groupNeed := CollectNeeds(plans);
      if outcome != Reserved {
        return;
      }
      var fit := CheckLinks(Hops(plans), linkNeed);
      if !fit {
        return LinkFull;
      }
      fit := CheckGroups(Hops(plans), groupNeed);
      if !fit {
        return GroupFull;
      }
      var ok := CommitHops(plans);
      if !ok {
        return CommitMismatch;
      }
      RecordFlows(plans);
      outcome := Reserved;
    }

    /** One link has drained a flow: give back its claim there, and forget the flow with its last claim. */
    method ReleaseWholeFlowSafLink(link: int, key: FlowKey, packets: int) returns (outcome: ReleaseOutcome)
      requires Shaped(topo, Ledgers()) && EachSound(Ledgers()) && 0 <= link < |topo|
      modifies this
      ensures outcome == ReleaseCheck(topo, old(Abs()), link, key, packets)
      ensures Abs() == Release(topo, old(Abs()), link, key, packets)
      ensures Shaped(topo, Ledgers()) && EachSound(Ledgers())
    {
      if key !in flowLinks || link !in flowLinks[key] {
        return NoLinkReservation;
      }
      if links[link].ReservedFor(key) != packets {
        return LinkCountMismatch;
      }
      if Grouped(topo, link) {
        if key !in flowGroups || GroupOf(topo, link) !in flowGroups[key] {
          return NoGroupReservation;
        }
        if groups[GroupOf(topo, link)].ReservedFor(key) != packets {
          return GroupCountMismatch;
        }
      }
      if key !in links[link].reservations {
        return NothingToRelease;
      }
      ReleaseHop(link, key);
      outcome := Released;
    }

    method ReleaseHop(link: int, key: FlowKey)
      requires Shaped(topo, Ledgers()) && EachSound(Ledgers()) && 0 <= link < |topo|
      requires key in links[link].reservations && key in flowLinks
      requires Grouped(topo, link) ==> key in groups[GroupOf(topo, link)].reservations && key in flowGroups
      modifies this
      ensures Abs() == RemoveHop(topo, old(Abs()), link, key)
      ensures Shaped(topo, Ledgers()) && EachSound(Ledgers())
    {
      RemoveKeepsValid(links[link], key);
      links := links[link := links[link].Remove(key)];
      if Grouped(topo, link) {
        var g := GroupOf(topo, link);
        RemoveKeepsValid(groups[g], key);
        groups := groups[g := groups[g].Remove(key)];
        flowGroups := Without(flowGroups, key, g);
      }
      flowLinks := Without(flowLinks, key, link);
    }
  }

  lemma GroupsOfSnoc(topo: Topology, path: seq<int>, j: nat)
    requires j < |path| && 0 <= path[j] < |topo|
    ensures GroupsOf(topo, path[..j + 1])
            == GroupsOf(topo, path[..j]) + if Grouped(topo, path[j]) then {GroupOf(topo, path[j])} else {}
  {
    assert path[..j + 1] == path[..j] + [path[j]];
  }

  /** The next hop extends the committed prefix, and is admitted exactly if the longer prefix is. */
  lemma NextHop(topo: Topology, b: Books, plans: seq<Plan>, n: nat, j: nat)
    requires Shaped(topo, b) && PathsOnTopology(topo, plans) && n < |plans| && j < |plans[n].path|
    requires OnTopology(topo, HopsUpTo(plans, n, j)) && AdmitsAll(topo, b, HopsUpTo(plans, n, j))
    ensures OnTopology(topo, HopsUpTo(plans, n, j + 1)) && OnTopology(topo, Hops(plans))
    ensures var h := Hop(plans[n].path[j], plans[n].key, plans[n].packets);
            var sofar := AddHops(topo, b, HopsUpTo(plans, n, j));
            && 0 <= h.link < |topo|
            && AddHops(topo, b, HopsUpTo(plans, n, j + 1)) == AddHop(topo, sofar, h)
            && (AdmitsAll(topo, b, HopsUpTo(plans, n, j + 1)) <==> Admits(topo, sofar, h))
            && (AdmitsAll(topo, b, Hops(plans)) ==> Admits(topo, sofar, h))
  {
    HopsUpToNext(plans, n, j);
    assert plans[n] in plans;
    var next := HopsUpTo(plans, n, j + 1);
    assert next[..|next| - 1] == HopsUpTo(plans, n, j);
    HopsOnTopology(topo, plans);
    HopsPrefix(plans, n + 1);
    HopsSnoc(plans, n);
    assert next <= Hops(plans[..n + 1]);
    if AdmitsAll(topo, b, Hops(plans)) {
      AdmitsPrefix(topo, b, Hops(plans), next);
    }
  }

  /** Once a plan has failed its check, later plans do not change the verdict. */
  lemma {:induction false} CheckStays(rt: Runtime, plans: seq<Plan>, n: nat)
    requires 0 < n <= |plans| && CheckPlans(rt, plans[..n]) != Reserved
    ensures CheckPlans(rt, plans) == CheckPlans(rt, plans[..n])
  {
    if n < |plans| {
      assert plans[..|plans| - 1][..n] == plans[..n];
      CheckStays(rt, plans[..|plans| - 1], n);
    } else {
      assert plans[..n] == plans;
    }
  }
}
