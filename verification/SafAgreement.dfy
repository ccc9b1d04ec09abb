/** Every reachable reservation state is one set of claims seen four ways: links, groups and two flow maps. */
module SafAgreement {
  import opened FlowLedger
  import opened SafRuntime

  predicate Holds(b: Books, link: int, key: FlowKey) {
    0 <= link < |b.links| && key in b.links[link].reservations
  }

  function MemberTotal(topo: Topology, links: seq<Ledger>, g: GroupKey): int
    requires |links| <= |topo|
  {
    if links == [] then 0
    else
      var last := |links| - 1;
      MemberTotal(topo, links[..last], g) + if Member(topo, last, g) then links[last].reserved else 0
  }

  /** Every ledger is sound in itself, as its own operations keep it. */
  ghost predicate EachSound(b: Books) {
    && (forall i :: 0 <= i < |b.links| ==> b.links[i].Valid())
    && (forall g :: g in b.groups ==> b.groups[g].Valid())
  }

  ghost predicate LedgersValid(cap: int, b: Books) {
    && (forall i :: 0 <= i < |b.links| ==> b.links[i].Valid() && b.links[i].capacity == cap)
    && (forall g :: g in b.groups ==> b.groups[g].Valid() && b.groups[g].capacity == cap)
  }

  /** A group records exactly what its member links record, and no flow crosses one group twice. */
  ghost predicate GroupsMirrorLinks(topo: Topology, b: Books)
    requires Shaped(topo, b)
  {
    && (forall i, k :: Holds(b, i, k) && Grouped(topo, i) ==>
          k in b.groups[GroupOf(topo, i)].reservations
          && b.groups[GroupOf(topo, i)].reservations[k] == b.links[i].reservations[k])
    && (forall g, k :: g in b.groups && k in b.groups[g].reservations ==>
        exists i :: Member(topo, i, g) && Holds(b, i, k))
    && (forall i, j, k ::
          Holds(b, i, k) && Holds(b, j, k) && Grouped(topo, i) && Grouped(topo, j)
              && GroupOf(topo, i) == GroupOf(topo, j)
          ==> i == j)
  }

  ghost predicate GroupTotals(topo: Topology, b: Books)
    requires Shaped(topo, b)
  {
    forall g :: g in b.groups ==> b.groups[g].reserved == MemberTotal(topo, b.links, g)
  }

  ghost predicate BooksAgree(topo: Topology, cap: int, b: Books) {
    Shaped(topo, b) && LedgersValid(cap, b) && GroupsMirrorLinks(topo, b) && GroupTotals(topo, b)
  }

  predicate InMap<K, V(==)>(m: map<K, set<V>>, k: K, v: V) {
    k in m && v in m[k]
  }

  /** The flow maps list the links and groups on which a flow still holds packets, and nothing else. */
  ghost predicate FlowAgrees(topo: Topology, rt: Runtime, k: FlowKey) {
    && (forall i :: InMap(rt.flowLinks, k, i) <==> Holds(rt.books, i, k))
    && (k in rt.flowLinks ==> rt.flowLinks[k] != {})
    && (forall g :: InMap(rt.flowGroups, k, g) <==> exists i :: Member(topo, i, g) && Holds(rt.books, i, k))
    && (k in rt.flowGroups ==> rt.flowGroups[k] != {})
  }

  ghost predicate FlowsAgree(topo: Topology, rt: Runtime) {
    forall k :: FlowAgrees(topo, rt, k)
  }

  ghost predicate Agree(topo: Topology, cap: int, rt: Runtime) {
    BooksAgree(topo, cap, rt.books) && FlowsAgree(topo, rt)
  }

  function FreshBooks(topo: Topology, cap: int): Books {
    Books(seq(|topo|, _ => EmptyLedger(cap)),
          map i | 0 <= i < |topo| && Grouped(topo, i) :: GroupOf(topo, i) := EmptyLedger(cap))
  }

  function Fresh(topo: Topology, cap: int): Runtime {
    Runtime(FreshBooks(topo, cap), map[], map[])
  }

  // ---- Group totals ---------------------------------------------------------------------------

  lemma {:induction false} MemberTotalUpdate(topo: Topology, links: seq<Ledger>, i: int, l: Ledger, g: GroupKey)
    requires |links| <= |topo| && 0 <= i < |links|
    ensures MemberTotal(topo, links[i := l], g)
            == MemberTotal(topo, links, g) + if Member(topo, i, g) then l.reserved - links[i].reserved else 0
  {
    var last := |links| - 1;
    if i < last {
      MemberTotalUpdate(topo, links[..last], i, l, g);
      assert links[i := l][..last] == links[..last][i := l];
    } else {
      assert links[i := l][..last] == links[..last];
    }
  }

  lemma {:induction false} MemberTotalEmpty(topo: Topology, links: seq<Ledger>, g: GroupKey)
    requires |links| <= |topo| && forall i :: 0 <= i < |links| ==> links[i].reserved == 0
    ensures MemberTotal(topo, links, g) == 0
  {
    if links != [] {
      MemberTotalEmpty(topo, links[..|links| - 1], g);
    }
  }

  lemma FreshAgrees(topo: Topology, cap: int)
    requires cap >= 0
    ensures Agree(topo, cap, Fresh(topo, cap))
  {
    var b := FreshBooks(topo, cap);
    forall g | g in b.groups
      ensures exists i :: Member(topo, i, g)
    {
      var i :| 0 <= i < |topo| && Grouped(topo, i) && GroupOf(topo, i) == g;
      assert Member(topo, i, g);
    }
    forall g | g in b.groups
      ensures b.groups[g].reserved == MemberTotal(topo, b.links, g)
    {
      MemberTotalEmpty(topo, b.links, g);
    }
  }

  // ---- Reservation keeps agreement ------------------------------------------------------------

  lemma AddedHolds(topo: Topology, b: Books, h: Hop)
    requires Shaped(topo, b) && 0 <= h.link < |topo|
    ensures forall i, k :: Holds(AddHop(topo, b, h), i, k) <==> Holds(b, i, k) || (i == h.link && k == h.key)
  {
  }

  lemma AddBacked(topo: Topology, b: Books, h: Hop, g: GroupKey, k: FlowKey)
    requires Shaped(topo, b) && 0 <= h.link < |topo| && GroupsMirrorLinks(topo, b)
    requires g in AddHop(topo, b, h).groups && k in AddHop(topo, b, h).groups[g].reservations
    ensures exists i :: Member(topo, i, g) && Holds(AddHop(topo, b, h), i, k)
  {
    var b' := AddHop(topo, b, h);
    AddedHolds(topo, b, h);
    if k in b.groups[g].reservations {
      var i :| Member(topo, i, g) && Holds(b, i, k);
      assert Holds(b', i, k);
    } else {
      assert Member(topo, h.link, g) && Holds(b', h.link, k);
    }
  }

  lemma AddMirrored(topo: Topology, b: Books, h: Hop, i: int, k: FlowKey)
    requires Shaped(topo, b) && 0 <= h.link < |topo| && GroupsMirrorLinks(topo, b) && Admits(topo, b, h)
    requires Holds(AddHop(topo, b, h), i, k) && Grouped(topo, i)
    ensures var b' := AddHop(topo, b, h);
            k in b'.groups[GroupOf(topo, i)].reservations
                && b'.groups[GroupOf(topo, i)].reservations[k] == b'.links[i].reservations[k]
  {
    AddedHolds(topo, b, h);
  }

  /** A group admits a flow only if none of its members already carries it. */
  lemma AddUnique(topo: Topology, b: Books, h: Hop, i: int, j: int, k: FlowKey)
    requires Shaped(topo, b) && 0 <= h.link < |topo| && GroupsMirrorLinks(topo, b) && Admits(topo, b, h)
    requires Holds(AddHop(topo, b, h), i, k) && Holds(AddHop(topo, b, h), j, k)
    requires Grouped(topo, i) && Grouped(topo, j) && GroupOf(topo, i) == GroupOf(topo, j)
    ensures i == j
  {
    AddedHolds(topo, b, h);
  }

  lemma AddHopMirrors(topo: Topology, b: Books, h: Hop)
    requires Shaped(topo, b) && 0 <= h.link < |topo|
    requires GroupsMirrorLinks(topo, b) && Admits(topo, b, h)
    ensures Shaped(topo, AddHop(topo, b, h)) && GroupsMirrorLinks(topo, AddHop(topo, b, h))
  {
    var b' := AddHop(topo, b, h);
    forall i, k | Holds(b', i, k) && Grouped(topo, i)
      ensures k in b'.groups[GroupOf(topo, i)].reservations
                && b'.groups[GroupOf(topo, i)].reservations[k] == b'.links[i].reservations[k]
    {
      AddMirrored(topo, b, h, i, k);
    }
    forall g, k | g in b'.groups && k in b'.groups[g].reservations
      ensures exists i :: Member(topo, i, g) && Holds(b', i, k)
    {
      AddBacked(topo, b, h, g, k);
    }
    forall i, j, k |
      Holds(b', i, k) && Holds(b', j, k) && Grouped(topo, i) && Grouped(topo, j) && GroupOf(topo, i) == GroupOf(topo, j)
      ensures i == j
    {
      AddUnique(topo, b, h, i, j, k);
    }
  }

  lemma AddHopAgrees(topo: Topology, cap: int, b: Books, h: Hop)
    requires BooksAgree(topo, cap, b) && 0 <= h.link < |topo| && Admits(topo, b, h)
    ensures BooksAgree(topo, cap, AddHop(topo, b, h))
  {
    AddHopMirrors(topo, b, h);
    var b' := AddHop(topo, b, h);
    AddKeepsValid(b.links[h.link], h.key, h.packets);
    if Grouped(topo, h.link) {
      AddKeepsValid(b.groups[GroupOf(topo, h.link)], h.key, h.packets);
    }
    forall g | g in b'.groups
      ensures b'.groups[g].reserved == MemberTotal(topo, b'.links, g)
    {
      MemberTotalUpdate(topo, b.links, h.link, b'.links[h.link], g);
    }
  }

  lemma {:induction false} AddHopsAgree(topo: Topology, cap: int, b: Books, hops: seq<Hop>)
    requires BooksAgree(topo, cap, b) && OnTopology(topo, hops) && AdmitsAll(topo, b, hops)
    ensures BooksAgree(topo, cap, AddHops(topo, b, hops))
  {
    if hops != [] {
      AddHopsAgree(topo, cap, b, hops[..|hops| - 1]);
      AddHopAgrees(topo, cap, AddHops(topo, b, hops[..|hops| - 1]), hops[|hops| - 1]);
    }
  }

  /** After a commit a link holds a flow if it did before or a hop put it there; totals grow by the need. */
  lemma {:induction false} AddHopsHolds(topo: Topology, b: Books, hops: seq<Hop>, i: int, k: FlowKey)
    requires Shaped(topo, b) && OnTopology(topo, hops) && 0 <= i < |topo|
    ensures var b' := AddHops(topo, b, hops);
            && (Holds(b', i, k) <==> Holds(b, i, k) || exists h :: h in hops && h.link == i && h.key == k)
            && b'.links[i].reserved == b.links[i].reserved + LinkNeed(hops, i)
            && b'.links[i].capacity == b.links[i].capacity
  {
    if hops != [] {
      var before, h := hops[..|hops| - 1], hops[|hops| - 1];
      AddHopsHolds(topo, b, before, i, k);
      assert hops == before + [h];
    }
  }

  lemma {:induction false} AddHopsGroup(topo: Topology, b: Books, hops: seq<Hop>, g: GroupKey, k: FlowKey)
    requires Shaped(topo, b) && OnTopology(topo, hops) && g in b.groups
    ensures var b' := AddHops(topo, b, hops);
            && (k in b'.groups[g].reservations <==>
                k in b.groups[g].reservations || exists h :: h in hops && Member(topo, h.link, g) && h.key == k)
            && b'.groups[g].reserved == b.groups[g].reserved + GroupNeed(topo, hops, g)
            && b'.groups[g].capacity == b.groups[g].capacity
  {
    if hops != [] {
      var before, h := hops[..|hops| - 1], hops[|hops| - 1];
      AddHopsGroup(topo, b, before, g, k);
      assert hops == before + [h];
    }
  }

  /** Admitted reservations leave every ledger sound, whatever the ledgers have to do with each other. */
  lemma {:induction false} AddHopsSound(topo: Topology, b: Books, hops: seq<Hop>)
    requires Shaped(topo, b) && EachSound(b) && OnTopology(topo, hops) && AdmitsAll(topo, b, hops)
    ensures EachSound(AddHops(topo, b, hops))
  {
    if hops != [] {
      var before, h := hops[..|hops| - 1], hops[|hops| - 1];
      AddHopsSound(topo, b, before);
      var b' := AddHops(topo, b, before);
      AddKeepsValid(b'.links[h.link], h.key, h.packets);
      if Grouped(topo, h.link) {
        AddKeepsValid(b'.groups[GroupOf(topo, h.link)], h.key, h.packets);
      }
    }
  }

  lemma ReserveSound(topo: Topology, rt: Runtime, plans: seq<Plan>)
    requires Shaped(topo, rt.books) && EachSound(rt.books) && PathsOnTopology(topo, plans)
    ensures Shaped(topo, Reserve(topo, rt, plans).books) && EachSound(Reserve(topo, rt, plans).books)
  {
    HopsOnTopology(topo, plans);
    if ReserveOutcome(topo, rt, plans) == Reserved {
      AddHopsSound(topo, rt.books, Hops(plans));
    }
  }

  ghost predicate DistinctKeys(plans: seq<Plan>) {
    forall i, j :: 0 <= i < j < |plans| ==> plans[i].key != plans[j].key
  }

  lemma {:induction false} ChecksPassed(rt: Runtime, plans: seq<Plan>)
    requires CheckPlans(rt, plans) == Reserved
    ensures forall p :: p in plans ==> p.packets > 0 && p.key !in rt.flowLinks
  {
    if plans != [] {
      ChecksPassed(rt, plans[..|plans| - 1]);
      assert plans == plans[..|plans| - 1] + [plans[|plans| - 1]];
    }
  }

  lemma {:induction false} RecordLinksAt(m: map<FlowKey, set<int>>, plans: seq<Plan>, k: FlowKey)
    requires DistinctKeys(plans)
    ensures var m' := RecordLinks(m, plans);
            && (forall p :: p in plans && p.key == k ==> k in m' && m'[k] == Links(p.path))
            && ((forall p :: p in plans ==> p.key != k) ==> (k in m' <==> k in m) && (k in m ==> m'[k] == m[k]))
  {
    if plans != [] {
      var p := plans[|plans| - 1];
      RecordLinksAt(m, plans[..|plans| - 1], k);
      assert plans == plans[..|plans| - 1] + [p];
    }
  }

  lemma {:induction false} RecordGroupsAt(topo: Topology, m: map<FlowKey, set<GroupKey>>, plans: seq<Plan>, k: FlowKey)
    requires DistinctKeys(plans)
    requires forall p :: p in plans && p.key == k ==> k !in m
    ensures var m' := RecordGroups(topo, m, plans);
            && (forall p :: p in plans && p.key == k ==>
                  (k in m' <==> GroupsOf(topo, p.path) != {}) && Recorded(m', k) == GroupsOf(topo, p.path))
            && ((forall p :: p in plans ==> p.key != k) ==> (k in m' <==> k in m) && (k in m ==> m'[k] == m[k]))
  {
    if plans != [] {
      var p := plans[|plans| - 1];
      RecordGroupsAt(topo, m, plans[..|plans| - 1], k);
      assert plans == plans[..|plans| - 1] + [p];
    }
  }

  lemma PlanOfKey(plans: seq<Plan>, p: Plan, q: Plan)
    requires DistinctKeys(plans) && p in plans && q in plans && p.key == q.key
    ensures p == q
  {
    var i :| 0 <= i < |plans| && plans[i] == p;
    var j :| 0 <= j < |plans| && plans[j] == q;
    assert !(i < j) && !(j < i);
  }

  /** What a committed runtime holds for one flow: the path of its plan, or what it held before. */
  lemma CommitHolds(topo: Topology, rt: Runtime, plans: seq<Plan>, i: int, k: FlowKey)
    requires Shaped(topo, rt.books) && PathsOnTopology(topo, plans) && DistinctKeys(plans) && FlowsAgree(topo, rt)
    requires CheckPlans(rt, plans) == Reserved
    ensures var rt' := Commit(topo, rt, plans);
            && (forall p :: p in plans && p.key == k ==> (Holds(rt'.books, i, k) <==> i in p.path))
            && ((forall p :: p in plans ==> p.key != k) ==> (Holds(rt'.books, i, k) <==> Holds(rt.books, i, k)))
  {
    HopsOnTopology(topo, plans);
    ChecksPassed(rt, plans);
    var b' := AddHops(topo, rt.books, Hops(plans));
    if 0 <= i < |topo| {
      AddHopsHolds(topo, rt.books, Hops(plans), i, k);
      forall h | h in Hops(plans)
        ensures exists p :: p in plans && p.key == h.key && p.packets == h.packets && h.link in p.path
      {
        HopIffPlan(plans, h);
      }
      forall p | p in plans && p.key == k
        ensures Holds(b', i, k) <==> i in p.path
      {
        InactiveFlow(topo, rt, k);
        HopIffPlan(plans, Hop(i, k, p.packets));
        if Holds(b', i, k) {
          var h :| h in Hops(plans) && h.link == i && h.key == k;
          var q :| q in plans && q.key == h.key && q.packets == h.packets && h.link in q.path;
          PlanOfKey(plans, p, q);
        }
      }
    } else {
      assert |b'.links| == |topo|;
    }
  }

  lemma CommitFlowsAgree(topo: Topology, rt: Runtime, plans: seq<Plan>)
    requires Shaped(topo, rt.books) && PathsOnTopology(topo, plans) && DistinctKeys(plans) && FlowsAgree(topo, rt)
    requires CheckPlans(rt, plans) == Reserved
    ensures FlowsAgree(topo, Commit(topo, rt, plans))
  {
    forall k
      ensures FlowAgrees(topo, Commit(topo, rt, plans), k)
    {
      CommitFlowAgrees(topo, rt, plans, k);
    }
  }

  lemma GroupsOfPath(topo: Topology, path: seq<int>, g: GroupKey)
    ensures g in GroupsOf(topo, path) <==> exists i :: Member(topo, i, g) && i in path
  {
    if g in GroupsOf(topo, path) {
      var i :| i in path && 0 <= i < |topo| && Grouped(topo, i) && GroupOf(topo, i) == g;
      assert Member(topo, i, g);
    }
  }

  /** A flow with no claims before is recorded on exactly its path, and in exactly its path's groups. */
  lemma PlannedFlowAgrees(topo: Topology, rt': Runtime, p: Plan)
    requires p.path != []
    requires forall i :: Holds(rt'.books, i, p.key) <==> i in p.path
    requires p.key in rt'.flowLinks && rt'.flowLinks[p.key] == Links(p.path)
    requires p.key in rt'.flowGroups <==> GroupsOf(topo, p.path) != {}
    requires Recorded(rt'.flowGroups, p.key) == GroupsOf(topo, p.path)
    ensures FlowAgrees(topo, rt', p.key)
  {
    assert p.path[0] in Links(p.path);
    forall g
      ensures InMap(rt'.flowGroups, p.key, g) <==> exists i :: Member(topo, i, g) && Holds(rt'.books, i, p.key)
    {
      GroupsOfPath(topo, p.path, g);
    }
  }

  lemma InactiveFlow(topo: Topology, rt: Runtime, k: FlowKey)
    requires FlowsAgree(topo, rt) && k !in rt.flowLinks
    ensures k !in rt.flowGroups && forall i :: !Holds(rt.books, i, k)
  {
    assert FlowAgrees(topo, rt, k);
    forall i
      ensures !Holds(rt.books, i, k)
    {
      assert !InMap(rt.flowLinks, k, i);
    }
    if k in rt.flowGroups {
      var g :| g in rt.flowGroups[k];
      assert InMap(rt.flowGroups, k, g);
    }
  }

  lemma CommitFlowAgrees(topo: Topology, rt: Runtime, plans: seq<Plan>, k: FlowKey)
    requires Shaped(topo, rt.books) && PathsOnTopology(topo, plans) && DistinctKeys(plans) && FlowsAgree(topo, rt)
    requires CheckPlans(rt, plans) == Reserved
    ensures FlowAgrees(topo, Commit(topo, rt, plans), k)
  {
    var rt' := Commit(topo, rt, plans);
    ChecksPassed(rt, plans);
    RecordLinksAt(rt.flowLinks, plans, k);
    if p :| p in plans && p.key == k {
      InactiveFlow(topo, rt, k);
      RecordGroupsAt(topo, rt.flowGroups, plans, k);
      forall i
        ensures Holds(rt'.books, i, k) <==> i in p.path
      {
        CommitHolds(topo, rt, plans, i, k);
      }
      PlannedFlowAgrees(topo, rt', p);
    } else {
      RecordGroupsAt(topo, rt.flowGroups, plans, k);
      forall i
        ensures Holds(rt'.books, i, k) <==> Holds(rt.books, i, k)
      {
        CommitHolds(topo, rt, plans, i, k);
      }
      UnchangedFlowAgrees(topo, rt, rt', k);
    }
  }

  lemma UnchangedFlowAgrees(topo: Topology, rt: Runtime, rt': Runtime, k: FlowKey)
    requires FlowsAgree(topo, rt)
    requires forall i :: Holds(rt'.books, i, k) <==> Holds(rt.books, i, k)
    requires k in rt'.flowLinks <==> k in rt.flowLinks
    requires k in rt.flowLinks ==> rt'.flowLinks[k] == rt.flowLinks[k]
    requires k in rt'.flowGroups <==> k in rt.flowGroups
    requires k in rt.flowGroups ==> rt'.flowGroups[k] == rt.flowGroups[k]
    ensures FlowAgrees(topo, rt', k)
  {
    assert FlowAgrees(topo, rt, k);
    assert forall i :: InMap(rt'.flowLinks, k, i) <==> InMap(rt.flowLinks, k, i);
    assert forall g :: InMap(rt'.flowGroups, k, g) <==> InMap(rt.flowGroups, k, g);
  }

  /** Reservation keeps all four views of the claims in step, whether it succeeds or not. */
  lemma ReserveAgrees(topo: Topology, cap: int, rt: Runtime, plans: seq<Plan>)
    requires Agree(topo, cap, rt) && PathsOnTopology(topo, plans) && DistinctKeys(plans)
    ensures Agree(topo, cap, Reserve(topo, rt, plans))
  {
    if ReserveOutcome(topo, rt, plans) == Reserved {
      HopsOnTopology(topo, plans);
      AddHopsAgree(topo, cap, rt.books, Hops(plans));
      CommitFlowsAgree(topo, rt, plans);
    }
  }
}
