/** Main results about whole-path reservation: the commit cannot fail, release undoes it, and ledgers always agree. */
module SafReservation {
  import opened FlowLedger
  import opened SafRuntime
  import opened SafAgreement

  // ---- A passed preflight cannot fail to commit -----------------------------------------------

  /** A dimension-ordered path uses each directed link, and each directed die pair, at most once. */
  ghost predicate Routed(topo: Topology, path: seq<int>) {
    forall i, j :: 0 <= i < j < |path| ==> path[i] != path[j] && !SharedGroup(topo, path[i], path[j])
  }

  predicate SharedGroup(topo: Topology, i: int, j: int) {
    0 <= i < |topo| && 0 <= j < |topo| && Grouped(topo, i) && Grouped(topo, j) && GroupOf(topo, i) == GroupOf(topo, j)
  }

  ghost predicate Exclusive(topo: Topology, hops: seq<Hop>) {
    forall i, j :: 0 <= i < j < |hops| && hops[i].key == hops[j].key ==>
      hops[i].link != hops[j].link && !SharedGroup(topo, hops[i].link, hops[j].link)
  }

  lemma KeyNotLast(plans: seq<Plan>, q: Plan)
    requires DistinctKeys(plans) && plans != [] && q in plans[..|plans| - 1]
    ensures q.key != plans[|plans| - 1].key
  {
  }

  lemma {:induction false} HopsExclusive(topo: Topology, plans: seq<Plan>)
    requires DistinctKeys(plans) && forall p :: p in plans ==> Routed(topo, p.path)
    ensures Exclusive(topo, Hops(plans))
  {
    if plans != [] {
      var before, p := plans[..|plans| - 1], plans[|plans| - 1];
      HopsExclusive(topo, before);
      assert plans == before + [p];
      forall h | h in Hops(before)
        ensures h.key != p.key
      {
        HopIffPlan(before, h);
        var q :| q in before && q.key == h.key;
        KeyNotLast(plans, q);
      }
      var hops, old' := Hops(plans), Hops(before);
      forall i, j | 0 <= i < j < |hops|
        ensures hops[i].key == hops[j].key ==>
                  hops[i].link != hops[j].link && !SharedGroup(topo, hops[i].link, hops[j].link)
      {
        if j < |old'| {
          assert hops[i] == old'[i] && hops[j] == old'[j];
        } else {
          assert hops[j] == PlanHops(p)[j - |old'|];
          assert i < |old'| ==> hops[i] == old'[i] && old'[i] in old';
          assert i >= |old'| ==> hops[i] == PlanHops(p)[i - |old'|];
        }
      }
    }
  }

  predicate Positive(hops: seq<Hop>) {
    forall h :: h in hops ==> h.packets > 0
  }

  lemma {:induction false} NeedGrows(topo: Topology, hops: seq<Hop>, m: nat, link: int, g: GroupKey)
    requires m <= |hops| && Positive(hops)
    ensures LinkNeed(hops[..m], link) <= LinkNeed(hops, link)
    ensures GroupNeed(topo, hops[..m], g) <= GroupNeed(topo, hops, g)
  {
    if m < |hops| {
      var before := hops[..|hops| - 1];
      assert hops == before + [hops[|hops| - 1]];
      NeedGrows(topo, before, m, link, g);
      assert before[..m] == hops[..m];
    } else {
      assert hops[..m] == hops;
    }
  }

  /** Everything a preflight establishes about the hops it is about to commit. */
  ghost predicate Preflighted(topo: Topology, b: Books, hops: seq<Hop>) {
    && Shaped(topo, b) && OnTopology(topo, hops)
    && Exclusive(topo, hops) && Positive(hops)
    && (forall h :: h in hops ==> NoClaim(topo, b, h.key))
    && LinksFit(b, hops) && GroupsFit(topo, b, hops)
  }

  lemma PrefixOnTopology(topo: Topology, hops: seq<Hop>, m: nat)
    requires OnTopology(topo, hops) && m <= |hops|
    ensures OnTopology(topo, hops[..m])
  {
  }

  lemma LinkAdmits(topo: Topology, b: Books, hops: seq<Hop>, m: nat)
    requires Preflighted(topo, b, hops) && 0 < m <= |hops|
    ensures OnTopology(topo, hops[..m - 1])
    ensures AddHops(topo, b, hops[..m - 1]).links[hops[m - 1].link].Admission(hops[m - 1].key, hops[m - 1].packets)
              == Admitted
  {
    var before, h := hops[..m - 1], hops[m - 1];
    PrefixOnTopology(topo, hops, m - 1);
    assert h in hops;
    AddHopsHolds(topo, b, before, h.link, h.key);
    NeedGrows(topo, hops, m, h.link, GroupKey(0, 0, 0));
    assert hops[..m][..m - 1] == before && hops[..m][m - 1] == h;
    assert LinkNeed(hops[..m], h.link) == LinkNeed(before, h.link) + h.packets;
    forall e | e in before && e.link == h.link
      ensures e.key != h.key
    {
      var i :| 0 <= i < m - 1 && hops[i] == e;
    }
  }

  lemma GroupAdmits(topo: Topology, b: Books, hops: seq<Hop>, m: nat)
    requires Preflighted(topo, b, hops) && 0 < m <= |hops| && Grouped(topo, hops[m - 1].link)
    ensures OnTopology(topo, hops[..m - 1])
    ensures GroupOf(topo, hops[m - 1].link) in AddHops(topo, b, hops[..m - 1]).groups
    ensures AddHops(topo, b, hops[..m - 1]).groups[GroupOf(topo, hops[m - 1].link)].Admission(hops[m - 1].key,
              hops[m - 1].packets) == Admitted
  {
    var before, h := hops[..m - 1], hops[m - 1];
    var g := GroupOf(topo, h.link);
    PrefixOnTopology(topo, hops, m - 1);
    assert h in hops;
    AddHopsGroup(topo, b, before, g, h.key);
    NeedGrows(topo, hops, m, h.link, g);
    assert hops[..m][..m - 1] == before && hops[..m][m - 1] == h;
    assert GroupNeed(topo, hops[..m], g) == GroupNeed(topo, before, g) + h.packets;
    forall e | e in before && Member(topo, e.link, g)
      ensures e.key != h.key
    {
      var i :| 0 <= i < m - 1 && hops[i] == e;
    }
  }

  lemma {:induction false} PrefixAdmits(topo: Topology, b: Books, hops: seq<Hop>, m: nat)
    requires Preflighted(topo, b, hops) && m <= |hops|
    ensures OnTopology(topo, hops[..m]) && AdmitsAll(topo, b, hops[..m])
  {
    PrefixOnTopology(topo, hops, m);
    if m > 0 {
      PrefixAdmits(topo, b, hops, m - 1);
      LinkAdmits(topo, b, hops, m);
      if Grouped(topo, hops[m - 1].link) {
        GroupAdmits(topo, b, hops, m);
      }
      assert hops[..m][..m - 1] == hops[..m - 1];
    }
  }

  /** No ledger mentions the flow. */
  ghost predicate NoClaim(topo: Topology, b: Books, key: FlowKey) {
    && (forall i :: !Holds(b, i, key))
    && (forall g :: g in b.groups ==> key !in b.groups[g].reservations)
  }

  lemma InactiveNoClaim(topo: Topology, cap: int, rt: Runtime, k: FlowKey)
    requires Agree(topo, cap, rt) && k !in rt.flowLinks
    ensures NoClaim(topo, rt.books, k)
  {
    InactiveFlow(topo, rt, k);
  }

  /**
   * With distinct flow keys on dimension-ordered paths, a reservation is refused only by its preflight:
   * the commit mismatch the source guards against is unreachable.
   */
  lemma CommitCannotFail(topo: Topology, cap: int, rt: Runtime, plans: seq<Plan>)
    requires Agree(topo, cap, rt) && PathsOnTopology(topo, plans) && DistinctKeys(plans)
    requires forall p :: p in plans ==> Routed(topo, p.path)
    ensures ReserveOutcome(topo, rt, plans) != CommitMismatch
    ensures ReserveOutcome(topo, rt, plans) == Reserved <==>
              && (forall p :: p in plans ==> p.packets > 0 && p.key !in rt.flowLinks)
              && LinksFit(rt.books, Hops(plans)) && GroupsFit(topo, rt.books, Hops(plans))
  {
    HopsOnTopology(topo, plans);
    var hops := Hops(plans);
    ChecksIff(rt, plans);
    if CheckPlans(rt, plans) == Reserved && LinksFit(rt.books, hops) && GroupsFit(topo, rt.books, hops) {
      forall h | h in hops
        ensures h.packets > 0 && NoClaim(topo, rt.books, h.key)
      {
        HopIffPlan(plans, h);
        InactiveNoClaim(topo, cap, rt, h.key);
      }
      HopsExclusive(topo, plans);
      PrefixAdmits(topo, rt.books, hops, |hops|);
      assert hops[..|hops|] == hops;
    }
  }

  lemma {:induction false} ChecksIff(rt: Runtime, plans: seq<Plan>)
    ensures CheckPlans(rt, plans) == Reserved <==> forall p :: p in plans ==> p.packets > 0 && p.key !in rt.flowLinks
    ensures CheckPlans(rt, plans) in {Reserved, BadFlowSize, DuplicatePath}
  {
    if plans != [] {
      var before, p := plans[..|plans| - 1], plans[|plans| - 1];
      ChecksIff(rt, before);
      assert plans == before + [p];
    }
  }

  /** The plan at `i` has a bad size, or an active key, and none before it has either. */
  ghost predicate FirstBad(rt: Runtime, plans: seq<Plan>, i: nat)
    requires i < |plans|
  {
    && (plans[i].packets <= 0 || plans[i].key in rt.flowLinks)
    && forall j :: 0 <= j < i ==> plans[j].packets > 0 && plans[j].key !in rt.flowLinks
  }

  lemma {:induction false} ChecksName(rt: Runtime, plans: seq<Plan>)
    ensures CheckPlans(rt, plans) == BadFlowSize <==>
              exists i :: 0 <= i < |plans| && FirstBad(rt, plans, i) && plans[i].packets <= 0
    ensures CheckPlans(rt, plans) == DuplicatePath <==>
              exists i :: 0 <= i < |plans| && FirstBad(rt, plans, i) && plans[i].packets > 0
  {
    if plans != [] {
      var n := |plans| - 1;
      ChecksName(rt, plans[..n]);
      ChecksIff(rt, plans[..n]);
      FirstBadNext(rt, plans);
    }
  }

  lemma FirstBadNext(rt: Runtime, plans: seq<Plan>)
    requires plans != []
    ensures var n := |plans| - 1;
            && (forall i :: 0 <= i < n ==> (FirstBad(rt, plans[..n], i) <==> FirstBad(rt, plans, i)))
            && (FirstBad(rt, plans, n) <==>
                 && (plans[n].packets <= 0 || plans[n].key in rt.flowLinks)
                 && forall p :: p in plans[..n] ==> p.packets > 0 && p.key !in rt.flowLinks)
  {
    var n := |plans| - 1;
    assert forall j :: 0 <= j < n ==> plans[j] in plans[..n];
  }

  /** What all hops together ask of link `i`, beyond what it has already reserved, is more than it holds. */
  ghost predicate LinkOverrun(cap: int, rt: Runtime, hops: seq<Hop>, i: int)
    requires 0 <= i < |rt.books.links|
  {
    Sum(rt.books.links[i].reservations) + LinkNeed(hops, i) > cap
  }

  ghost predicate GroupOverrun(topo: Topology, cap: int, rt: Runtime, hops: seq<Hop>, g: GroupKey)
    requires g in rt.books.groups
  {
    Sum(rt.books.groups[g].reservations) + GroupNeed(topo, hops, g) > cap
  }

  ghost predicate LinksHold(topo: Topology, cap: int, rt: Runtime, hops: seq<Hop>)
    requires Agree(topo, cap, rt) && OnTopology(topo, hops)
  {
    forall h :: h in hops ==> !LinkOverrun(cap, rt, hops, h.link)
  }

  ghost predicate GroupsHold(topo: Topology, cap: int, rt: Runtime, hops: seq<Hop>)
    requires Agree(topo, cap, rt) && OnTopology(topo, hops)
  {
    forall h :: h in hops && Grouped(topo, h.link) ==> !GroupOverrun(topo, cap, rt, hops, GroupOf(topo, h.link))
  }

  /** Why a reservation is refused: the first bad plan, else an overrun link, else an overrun group. */
  lemma RefusalsAre(topo: Topology, cap: int, rt: Runtime, plans: seq<Plan>)
    requires Agree(topo, cap, rt) && PathsOnTopology(topo, plans) && DistinctKeys(plans)
    requires forall p :: p in plans ==> Routed(topo, p.path)
    ensures OnTopology(topo, Hops(plans))
    ensures var r, hops := ReserveOutcome(topo, rt, plans), Hops(plans);
            var good := forall p :: p in plans ==> p.packets > 0 && p.key !in rt.flowLinks;
            var links, groups := LinksHold(topo, cap, rt, hops), GroupsHold(topo, cap, rt, hops);
            && (r == BadFlowSize <==> exists i :: 0 <= i < |plans| && FirstBad(rt, plans, i) && plans[i].packets <= 0)
            && (r == DuplicatePath <==> exists i :: 0 <= i < |plans| && FirstBad(rt, plans, i) && plans[i].packets > 0)
            && (r == LinkFull <==> good && !links)
            && (r == GroupFull <==> good && links && !groups)
            && (r == Reserved <==> good && links && groups)
  {
    HopsOnTopology(topo, plans);
    CommitCannotFail(topo, cap, rt, plans);
    ChecksName(rt, plans);
    ChecksIff(rt, plans);
    LinksFitIff(topo, cap, rt, Hops(plans));
    GroupsFitIff(topo, cap, rt, Hops(plans));
  }

  lemma LinksFitIff(topo: Topology, cap: int, rt: Runtime, hops: seq<Hop>)
    requires Agree(topo, cap, rt) && OnTopology(topo, hops)
    ensures LinksFit(rt.books, hops) <==> LinksHold(topo, cap, rt, hops)
  {
  }

  lemma GroupsFitIff(topo: Topology, cap: int, rt: Runtime, hops: seq<Hop>)
    requires Agree(topo, cap, rt) && OnTopology(topo, hops)
    ensures GroupsFit(topo, rt.books, hops) <==> GroupsHold(topo, cap, rt, hops)
  {
  }

  // ---- Release --------------------------------------------------------------------------------

  /**
   * A release succeeds exactly when the flow holds that many packets on that link; the group-side checks
   * can never be the ones to fail.
   */
  lemma ReleaseIff(topo: Topology, cap: int, rt: Runtime, link: int, key: FlowKey, packets: int)
    requires Agree(topo, cap, rt) && 0 <= link < |topo|
    ensures ReleaseCheck(topo, rt, link, key, packets) == Released <==>
              Holds(rt.books, link, key) && rt.books.links[link].reservations[key] == packets
    ensures ReleaseCheck(topo, rt, link, key, packets) !in {NoGroupReservation, GroupCountMismatch, NothingToRelease}
  {
    assert FlowAgrees(topo, rt, key);
    assert InMap(rt.flowLinks, key, link) <==> Holds(rt.books, link, key);
    if Holds(rt.books, link, key) && Grouped(topo, link) {
      assert Member(topo, link, GroupOf(topo, link));
      assert InMap(rt.flowGroups, key, GroupOf(topo, link));
    }
  }

  /** Why a release is refused: the flow holds nothing on that link, or another count than the one returned. */
  lemma ReleaseRefusalsAre(topo: Topology, cap: int, rt: Runtime, link: int, key: FlowKey, packets: int)
    requires Agree(topo, cap, rt) && 0 <= link < |topo|
    ensures var r, holds := ReleaseCheck(topo, rt, link, key, packets), Holds(rt.books, link, key);
            && (r == NoLinkReservation <==> !holds)
            && (r == LinkCountMismatch <==> holds && rt.books.links[link].reservations[key] != packets)
  {
    ReleaseIff(topo, cap, rt, link, key, packets);
    assert FlowAgrees(topo, rt, key);
    assert InMap(rt.flowLinks, key, link) <==> Holds(rt.books, link, key);
  }

  ghost function Release(topo: Topology, rt: Runtime, link: int, key: FlowKey, packets: int): Runtime
    requires Shaped(topo, rt.books) && 0 <= link < |topo|
  {
    if ReleaseCheck(topo, rt, link, key, packets) == Released
       && (Grouped(topo, link) ==> key in rt.books.groups[GroupOf(topo, link)].reservations)
    then RemoveHop(topo, rt, link, key)
    else rt
  }

  lemma RemoveHolds(topo: Topology, b: Books, link: int, key: FlowKey, i: int, k: FlowKey)
    requires |topo| == |b.links| && Holds(b, link, key)
    ensures Holds(RemoveClaim(topo, b, link, key), i, k) <==> Holds(b, i, k) && !(i == link && k == key)
  {
  }

  /** The claims left after one is removed. */
  lemma RemovedHolds(topo: Topology, b: Books, link: int, key: FlowKey)
    requires |topo| == |b.links| && Holds(b, link, key)
    ensures forall i, k :: Holds(RemoveClaim(topo, b, link, key), i, k) <==> Holds(b, i, k) && !(i == link && k == key)
  {
    forall i, k
      ensures Holds(RemoveClaim(topo, b, link, key), i, k) <==> Holds(b, i, k) && !(i == link && k == key)
    {
      RemoveHolds(topo, b, link, key, i, k);
    }
  }

  lemma RemoveBacked(topo: Topology, b: Books, link: int, key: FlowKey, g: GroupKey, k: FlowKey)
    requires Shaped(topo, b) && GroupsMirrorLinks(topo, b) && Holds(b, link, key)
    requires g in RemoveClaim(topo, b, link, key).groups && k in RemoveClaim(topo, b, link, key).groups[g].reservations
    ensures exists i :: Member(topo, i, g) && Holds(RemoveClaim(topo, b, link, key), i, k)
  {
    var i :| Member(topo, i, g) && Holds(b, i, k);
    RemoveHolds(topo, b, link, key, i, k);
    assert Holds(RemoveClaim(topo, b, link, key), i, k);
  }

  lemma RemoveMirrors(topo: Topology, b: Books, link: int, key: FlowKey)
    requires Shaped(topo, b) && GroupsMirrorLinks(topo, b) && Holds(b, link, key)
    ensures Grouped(topo, link) ==> key in b.groups[GroupOf(topo, link)].reservations
    ensures var b' := RemoveClaim(topo, b, link, key); Shaped(topo, b') && GroupsMirrorLinks(topo, b')
  {
    var b' := RemoveClaim(topo, b, link, key);
    assert Shaped(topo, b');
    RemovedHolds(topo, b, link, key);
    forall g, k | g in b'.groups && k in b'.groups[g].reservations
      ensures exists i :: Member(topo, i, g) && Holds(b', i, k)
    {
      RemoveBacked(topo, b, link, key, g, k);
    }
  }

  function RemoveClaim(topo: Topology, b: Books, link: int, key: FlowKey): Books
    requires 0 <= link < |topo| == |b.links| && Holds(b, link, key)
  {
    Books(b.links[link := b.links[link].Remove(key)],
          if Grouped(topo, link) && GroupOf(topo, link) in b.groups && key in b.groups[GroupOf(topo, link)].reservations
          then b.groups[GroupOf(topo, link) := b.groups[GroupOf(topo, link)].Remove(key)]
          else b.groups)
  }

  lemma RemoveBooksAgree(topo: Topology, cap: int, b: Books, link: int, key: FlowKey)
    requires BooksAgree(topo, cap, b) && Holds(b, link, key)
    ensures BooksAgree(topo, cap, RemoveClaim(topo, b, link, key))
  {
    RemoveMirrors(topo, b, link, key);
    var b' := RemoveClaim(topo, b, link, key);
    RemoveKeepsValid(b.links[link], key);
    if Grouped(topo, link) {
      RemoveKeepsValid(b.groups[GroupOf(topo, link)], key);
    }
    forall g | g in b'.groups
      ensures b'.groups[g].reserved == MemberTotal(topo, b'.links, g)
    {
      MemberTotalUpdate(topo, b.links, link, b'.links[link], g);
    }
  }

  lemma RemoveFlowAgrees(topo: Topology, cap: int, rt: Runtime, link: int, key: FlowKey, k: FlowKey)
    requires Agree(topo, cap, rt) && Holds(rt.books, link, key)
    requires key in rt.flowLinks
    requires Grouped(topo, link) ==> key in rt.flowGroups && key in rt.books.groups[GroupOf(topo, link)].reservations
    ensures FlowAgrees(topo, RemoveHop(topo, rt, link, key), k)
  {
    var rt' := RemoveHop(topo, rt, link, key);
    assert FlowAgrees(topo, rt, k);
    forall i
      ensures InMap(rt'.flowLinks, k, i) <==> Holds(rt'.books, i, k)
    {
      assert InMap(rt.flowLinks, k, i) <==> Holds(rt.books, i, k);
      assert Holds(rt'.books, i, k) <==> Holds(rt.books, i, k) && !(i == link && k == key);
    }
    forall g
      ensures InMap(rt'.flowGroups, k, g) <==> exists i :: Member(topo, i, g) && Holds(rt'.books, i, k)
    {
      RemoveGroupAgrees(topo, cap, rt, link, key, k, g);
    }
  }

  lemma RemoveGroupAgrees(topo: Topology, cap: int, rt: Runtime, link: int, key: FlowKey, k: FlowKey, g: GroupKey)
    requires Agree(topo, cap, rt) && Holds(rt.books, link, key)
    requires key in rt.flowLinks
    requires Grouped(topo, link) ==> key in rt.flowGroups && key in rt.books.groups[GroupOf(topo, link)].reservations
    ensures var rt' := RemoveHop(topo, rt, link, key);
            InMap(rt'.flowGroups, k, g) <==> exists i :: Member(topo, i, g) && Holds(rt'.books, i, k)
  {
    var rt' := RemoveHop(topo, rt, link, key);
    assert FlowAgrees(topo, rt, k);
    assert rt'.books == RemoveClaim(topo, rt.books, link, key);
    WithoutMember(topo, rt, link, key, k, g);
    forall i
      ensures Holds(rt'.books, i, k) <==> Holds(rt.books, i, k) && !(i == link && k == key)
    {
      RemoveHolds(topo, rt.books, link, key, i, k);
    }
    if k == key && Member(topo, link, g) {
      forall i | Member(topo, i, g) && Holds(rt.books, i, k)
        ensures i == link
      {
      }
    }
  }

  lemma WithoutMember(topo: Topology, rt: Runtime, link: int, key: FlowKey, k: FlowKey, g: GroupKey)
    requires 0 <= link < |topo| == |rt.books.links| && Holds(rt.books, link, key)
    requires key in rt.flowLinks
    requires Grouped(topo, link) ==>
               && GroupOf(topo, link) in rt.books.groups && key in rt.books.groups[GroupOf(topo, link)].reservations
               && key in rt.flowGroups
    ensures InMap(RemoveHop(topo, rt, link, key).flowGroups, k, g) <==>
              InMap(rt.flowGroups, k, g) && !(k == key && Member(topo, link, g))
  {
    if Grouped(topo, link) {
      InWithout(rt.flowGroups, key, GroupOf(topo, link), k, g);
    }
  }

  lemma InWithout<K, V>(m: map<K, set<V>>, key: K, v: V, k: K, w: V)
    requires key in m
    ensures InMap(Without(m, key, v), k, w) <==> InMap(m, k, w) && !(k == key && w == v)
  {
    assert w in m[key] && w != v ==> w in m[key] - {v};
  }

  lemma ReleaseAgrees(topo: Topology, cap: int, rt: Runtime, link: int, key: FlowKey, packets: int)
    requires Agree(topo, cap, rt) && 0 <= link < |topo|
    ensures Agree(topo, cap, Release(topo, rt, link, key, packets))
    ensures ReleaseCheck(topo, rt, link, key, packets) == Released ==>
              && Holds(rt.books, link, key)
              && Release(topo, rt, link, key, packets).books == RemoveClaim(topo, rt.books, link, key)
  {
    ReleaseIff(topo, cap, rt, link, key, packets);
    if ReleaseCheck(topo, rt, link, key, packets) == Released {
      RemoveBooksAgree(topo, cap, rt.books, link, key);
      forall k
        ensures FlowAgrees(topo, RemoveHop(topo, rt, link, key), k)
      {
        RemoveFlowAgrees(topo, cap, rt, link, key, k);
      }
    }
  }

  // ---- Runs -----------------------------------------------------------------------------------

  datatype Op = DoReserve(plans: seq<Plan>) | DoRelease(link: int, key: FlowKey, packets: int)

  ghost predicate OpOnTopology(topo: Topology, op: Op) {
    match op
    case DoReserve(plans) => PathsOnTopology(topo, plans) && DistinctKeys(plans)
    case DoRelease(link, _, _) => 0 <= link < |topo|
  }

  ghost function Perform(topo: Topology, rt: Runtime, op: Op): Runtime
    requires Shaped(topo, rt.books) && OpOnTopology(topo, op)
  {
    match op
    case DoReserve(plans) => Reserve(topo, rt, plans)
    case DoRelease(link, key, packets) => Release(topo, rt, link, key, packets)
  }

  ghost predicate OpsOnTopology(topo: Topology, ops: seq<Op>) {
    forall i :: 0 <= i < |ops| ==> OpOnTopology(topo, ops[i])
  }

  /** The runtime after a run of reservations and releases from reset, refused ones included. */
  ghost function After(topo: Topology, cap: nat, ops: seq<Op>): (rt: Runtime)
    requires OpsOnTopology(topo, ops)
    ensures Agree(topo, cap, rt)
  {
    if ops == [] then
      FreshAgrees(topo, cap);
      Fresh(topo, cap)
    else
      var rt := After(topo, cap, ops[..|ops| - 1]);
      PerformAgrees(topo, cap, rt, ops[|ops| - 1]);
      Perform(topo, rt, ops[|ops| - 1])
  }

  lemma PerformAgrees(topo: Topology, cap: int, rt: Runtime, op: Op)
    requires Agree(topo, cap, rt) && OpOnTopology(topo, op)
    ensures Agree(topo, cap, Perform(topo, rt, op))
  {
    match op
    case DoReserve(plans) => ReserveAgrees(topo, cap, rt, plans);
    case DoRelease(link, key, packets) => ReleaseAgrees(topo, cap, rt, link, key, packets);
  }

  /**
   * In every reachable state a shared group has reserved exactly what its member links have, and no more than it
   * holds.
   */
  lemma GroupTotalAlways(topo: Topology, cap: nat, ops: seq<Op>, g: GroupKey)
    requires OpsOnTopology(topo, ops) && g in After(topo, cap, ops).books.groups
    ensures var b := After(topo, cap, ops).books;
            b.groups[g].reserved == MemberTotal(topo, b.links, g) <= cap
  {
    assert Agree(topo, cap, After(topo, cap, ops));
  }

  /** The link ledgers determine everything else. */
  lemma LinksDetermine(topo: Topology, cap: int, a: Runtime, b: Runtime)
    requires Agree(topo, cap, a) && Agree(topo, cap, b) && a.books.links == b.books.links
    ensures a == b
  {
    forall g
      ensures g in a.books.groups <==> g in b.books.groups
      ensures g in a.books.groups ==> a.books.groups[g] == b.books.groups[g]
    {
      if exists i :: Member(topo, i, g) {
        var i :| Member(topo, i, g);
        GroupDetermined(topo, cap, a.books, b.books, g);
      }
    }
    assert a.books.groups == b.books.groups;
    FlowMapsDetermined(topo, a, b);
  }

  lemma GroupDetermined(topo: Topology, cap: int, a: Books, b: Books, g: GroupKey)
    requires BooksAgree(topo, cap, a) && BooksAgree(topo, cap, b) && a.links == b.links
    requires g in a.groups && g in b.groups
    ensures a.groups[g] == b.groups[g]
  {
    ClaimsDetermined(topo, a, b, g);
    SameLedger(a.groups[g], b.groups[g]);
  }

  lemma SameLedger(a: Ledger, b: Ledger)
    requires a.Valid() && b.Valid() && a.capacity == b.capacity && a.reservations == b.reservations
    ensures a == b
  {
  }

  lemma ClaimsDetermined(topo: Topology, a: Books, b: Books, g: GroupKey)
    requires Shaped(topo, a) && Shaped(topo, b) && GroupsMirrorLinks(topo, a) && GroupsMirrorLinks(topo, b)
    requires a.links == b.links && g in a.groups && g in b.groups
    ensures a.groups[g].reservations == b.groups[g].reservations
  {
    forall k
      ensures SameClaim(a.groups[g].reservations, b.groups[g].reservations, k)
    {
      ClaimsShared(topo, a, b, g, k);
    }
    assert forall k :: SameClaim(a.groups[g].reservations, b.groups[g].reservations, k);
    SameClaimsEqual(a.groups[g].reservations, b.groups[g].reservations);
  }

  predicate SameClaim(a: map<FlowKey, int>, b: map<FlowKey, int>, k: FlowKey) {
    (k in a <==> k in b) && (k in a && k in b ==> a[k] == b[k])
  }

  lemma SameClaimsEqual(a: map<FlowKey, int>, b: map<FlowKey, int>)
    requires forall k :: SameClaim(a, b, k)
    ensures a == b
  {
    assert forall k :: k in a ==> SameClaim(a, b, k);
    assert forall k :: k in b ==> SameClaim(a, b, k);
  }

  lemma ClaimsShared(topo: Topology, a: Books, b: Books, g: GroupKey, k: FlowKey)
    requires Shaped(topo, a) && Shaped(topo, b) && GroupsMirrorLinks(topo, a) && GroupsMirrorLinks(topo, b)
    requires a.links == b.links && g in a.groups && g in b.groups
    ensures SameClaim(a.groups[g].reservations, b.groups[g].reservations, k)
  {
    if k in a.groups[g].reservations {
      ClaimShared(topo, a, b, g, k);
    } else if k in b.groups[g].reservations {
      ClaimShared(topo, b, a, g, k);
    }
  }

  lemma ClaimShared(topo: Topology, a: Books, b: Books, g: GroupKey, k: FlowKey)
    requires Shaped(topo, a) && Shaped(topo, b) && GroupsMirrorLinks(topo, a) && GroupsMirrorLinks(topo, b)
    requires a.links == b.links && g in a.groups && g in b.groups && k in a.groups[g].reservations
    ensures k in b.groups[g].reservations && b.groups[g].reservations[k] == a.groups[g].reservations[k]
  {
    var i :| Member(topo, i, g) && Holds(a, i, k);
    assert Holds(b, i, k);
  }

  lemma FlowMapsDetermined(topo: Topology, a: Runtime, b: Runtime)
    requires FlowsAgree(topo, a) && FlowsAgree(topo, b) && a.books.links == b.books.links
    ensures a.flowLinks == b.flowLinks && a.flowGroups == b.flowGroups
  {
    forall k
      ensures k in a.flowLinks <==> k in b.flowLinks
      ensures k in a.flowLinks ==> a.flowLinks[k] == b.flowLinks[k]
      ensures k in a.flowGroups <==> k in b.flowGroups
      ensures k in a.flowGroups ==> a.flowGroups[k] == b.flowGroups[k]
    {
      assert FlowAgrees(topo, a, k) && FlowAgrees(topo, b, k);
      assert forall i :: Holds(a.books, i, k) <==> Holds(b.books, i, k);
      assert forall i :: InMap(a.flowLinks, k, i) <==> InMap(b.flowLinks, k, i);
      assert forall g :: InMap(a.flowGroups, k, g) <==> InMap(b.flowGroups, k, g);
      SameSets(a.flowLinks, b.flowLinks, k);
      SameSets(a.flowGroups, b.flowGroups, k);
    }
  }

  lemma SameSets<K, V>(a: map<K, set<V>>, b: map<K, set<V>>, k: K)
    requires k in a ==> a[k] != {}
    requires k in b ==> b[k] != {}
    requires forall v :: InMap(a, k, v) <==> InMap(b, k, v)
    ensures k in a <==> k in b
    ensures k in a ==> a[k] == b[k]
  {
    if k in a {
      var v :| v in a[k];
      assert InMap(a, k, v);
    }
    if k in b {
      var v :| v in b[k];
      assert InMap(b, k, v);
    }
    if k in a && k in b {
      assert forall v :: v in a[k] <==> InMap(a, k, v);
      assert forall v :: v in b[k] <==> InMap(b, k, v);
    }
  }

  // ---- Releasing every hop undoes the reservation ---------------------------------------------

  lemma {:induction false} AddHopsValue(topo: Topology, b: Books, hops: seq<Hop>, i: int, k: FlowKey)
    requires Shaped(topo, b) && OnTopology(topo, hops) && AdmitsAll(topo, b, hops)
    ensures var b' := AddHops(topo, b, hops);
            && (Holds(b, i, k) ==> Holds(b', i, k) && b'.links[i].reservations[k] == b.links[i].reservations[k])
            && (Holds(b, i, k) ==> forall h :: h in hops && h.link == i ==> h.key != k)
            && (forall h :: h in hops && h.link == i && h.key == k ==>
                  Holds(b', i, k) && b'.links[i].reservations[k] == h.packets)
  {
    if hops != [] {
      var before, h := hops[..|hops| - 1], hops[|hops| - 1];
      AddHopsValue(topo, b, before, i, k);
      assert hops == before + [h];
    }
  }

  ghost function ReleaseAll(topo: Topology, rt: Runtime, hops: seq<Hop>): (r: Runtime)
    requires Shaped(topo, rt.books) && OnTopology(topo, hops)
    ensures Shaped(topo, r.books)
  {
    if hops == [] then rt
    else
      var h := hops[|hops| - 1];
      Release(topo, ReleaseAll(topo, rt, hops[..|hops| - 1]), h.link, h.key, h.packets)
  }

  /** No link is released twice for the same flow. */
  ghost predicate NoRepeat(hops: seq<Hop>) {
    forall i, j :: 0 <= i < j < |hops| ==> !(hops[i].link == hops[j].link && hops[i].key == hops[j].key)
  }

  predicate Frees(hops: seq<Hop>, i: int, k: FlowKey) {
    exists h :: h in hops && h.link == i && h.key == k
  }

  /** Releases of standing claims, in any order, take away those claims and no others. */
  lemma {:induction false} ReleaseAllFrees(topo: Topology, cap: int, rt: Runtime, hops: seq<Hop>)
    requires Agree(topo, cap, rt) && OnTopology(topo, hops) && NoRepeat(hops)
    requires forall h :: h in hops ==>
               Holds(rt.books, h.link, h.key) && rt.books.links[h.link].reservations[h.key] == h.packets
    ensures var rt' := ReleaseAll(topo, rt, hops);
            && Agree(topo, cap, rt')
            && (forall i, k :: Holds(rt'.books, i, k) <==> Holds(rt.books, i, k) && !Frees(hops, i, k))
            && (forall i, k :: Holds(rt'.books, i, k) ==>
                rt'.books.links[i].reservations[k] == rt.books.links[i].reservations[k])
  {
    if hops != [] {
      var before, h := hops[..|hops| - 1], hops[|hops| - 1];
      assert hops == before + [h];
      ReleaseAllFrees(topo, cap, rt, before);
      var rtm := ReleaseAll(topo, rt, before);
      assert !Frees(before, h.link, h.key);
      ReleaseIff(topo, cap, rtm, h.link, h.key, h.packets);
      ReleaseAgrees(topo, cap, rtm, h.link, h.key, h.packets);
      forall i, k
        ensures Frees(hops, i, k) <==> Frees(before, i, k) || (i == h.link && k == h.key)
      {
      }
      ReleaseFrees(topo, cap, rtm, h);
    }
  }

  lemma ReleaseFrees(topo: Topology, cap: int, rt: Runtime, h: Hop)
    requires Agree(topo, cap, rt) && 0 <= h.link < |topo|
    requires Holds(rt.books, h.link, h.key) && rt.books.links[h.link].reservations[h.key] == h.packets
    ensures var rt' := Release(topo, rt, h.link, h.key, h.packets);
            && (forall i, k :: Holds(rt'.books, i, k) <==> Holds(rt.books, i, k) && !(i == h.link && k == h.key))
            && (forall i, k :: Holds(rt'.books, i, k) ==>
                rt'.books.links[i].reservations[k] == rt.books.links[i].reservations[k])
  {
    ReleaseIff(topo, cap, rt, h.link, h.key, h.packets);
    ReleaseAgrees(topo, cap, rt, h.link, h.key, h.packets);
    forall i, k
      ensures Holds(RemoveClaim(topo, rt.books, h.link, h.key), i, k) <==>
                Holds(rt.books, i, k) && !(i == h.link && k == h.key)
    {
      RemoveHolds(topo, rt.books, h.link, h.key, i, k);
    }
  }

  /**
   * Once a reservation has succeeded, releasing each of its hops once, in any order, restores every
   * ledger and both flow maps to what they were before it.
   */
  lemma ReleaseUndoesReserve(topo: Topology, cap: int, rt: Runtime, plans: seq<Plan>, releases: seq<Hop>)
    requires Agree(topo, cap, rt) && PathsOnTopology(topo, plans) && DistinctKeys(plans)
    requires ReserveOutcome(topo, rt, plans) == Reserved
    requires NoRepeat(releases) && OnTopology(topo, releases) && forall h :: h in releases <==> h in Hops(plans)
    ensures Shaped(topo, Reserve(topo, rt, plans).books)
    ensures ReleaseAll(topo, Reserve(topo, rt, plans), releases) == rt
  {
    HopsOnTopology(topo, plans);
    ReserveAgrees(topo, cap, rt, plans);
    var reserved := Reserve(topo, rt, plans);
    forall h | h in releases
      ensures Holds(reserved.books, h.link, h.key) && reserved.books.links[h.link].reservations[h.key] == h.packets
    {
      AddHopsValue(topo, rt.books, Hops(plans), h.link, h.key);
    }
    ReleaseAllFrees(topo, cap, reserved, releases);
    var final := ReleaseAll(topo, reserved, releases);
    forall i, k
      ensures Holds(final.books, i, k) <==> Holds(rt.books, i, k)
      ensures Holds(rt.books, i, k) ==> final.books.links[i].reservations[k] == rt.books.links[i].reservations[k]
    {
      AddHopsValue(topo, rt.books, Hops(plans), i, k);
      if 0 <= i < |topo| {
        AddHopsHolds(topo, rt.books, Hops(plans), i, k);
      }
    }
    SameClaims(topo, cap, final.books, rt.books);
    LinksDetermine(topo, cap, final, rt);
  }

  lemma SameClaims(topo: Topology, cap: int, a: Books, b: Books)
    requires BooksAgree(topo, cap, a) && BooksAgree(topo, cap, b)
    requires forall i, k :: Holds(a, i, k) <==> Holds(b, i, k)
    requires forall i, k :: Holds(b, i, k) ==> a.links[i].reservations[k] == b.links[i].reservations[k]
    ensures a.links == b.links
  {
    forall i | 0 <= i < |topo|
      ensures a.links[i] == b.links[i]
    {
      forall k
        ensures k in a.links[i].reservations <==> k in b.links[i].reservations
        ensures k in b.links[i].reservations ==> a.links[i].reservations[k] == b.links[i].reservations[k]
      {
        assert Holds(a, i, k) <==> Holds(b, i, k);
      }
      assert a.links[i].reservations == b.links[i].reservations;
      SameLedger(a.links[i], b.links[i]);
    }
  }
}
