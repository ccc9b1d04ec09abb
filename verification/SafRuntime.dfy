/**
 * Whole-path reservation for whole-flow store-and-forward: every directed link keeps a ledger, links that
 * share a physical group keep a common one, and two maps say which links and groups a flow still holds.
 */
module SafRuntime {
  import opened FlowLedger

  datatype LinkDesc = LinkDesc(localDie: int, remoteDie: int, group: int)

  datatype GroupKey = GroupKey(localDie: int, remoteDie: int, group: int)

  type Topology = seq<LinkDesc>

  predicate Grouped(topo: Topology, link: int)
    requires 0 <= link < |topo|
  {
    topo[link].group >= 0
  }

  function GroupOf(topo: Topology, link: int): GroupKey
    requires 0 <= link < |topo|
  {
    GroupKey(topo[link].localDie, topo[link].remoteDie, topo[link].group)
  }

  predicate Member(topo: Topology, link: int, g: GroupKey) {
    0 <= link < |topo| && Grouped(topo, link) && GroupOf(topo, link) == g
  }

  /** One flow's claim on one link. */
  datatype Hop = Hop(link: int, key: FlowKey, packets: int)

  datatype Plan = Plan(key: FlowKey, packets: int, path: seq<int>)

  datatype Books = Books(links: seq<Ledger>, groups: map<GroupKey, Ledger>)

  datatype Runtime = Runtime(books: Books, flowLinks: map<FlowKey, set<int>>, flowGroups: map<FlowKey, set<GroupKey>>)

  /** Ledgers exist for every link and every group. */
  ghost predicate Shaped(topo: Topology, b: Books) {
    && |b.links| == |topo|
    && (forall i :: 0 <= i < |topo| && Grouped(topo, i) ==> GroupOf(topo, i) in b.groups)
    && (forall g :: g in b.groups ==> exists i :: Member(topo, i, g))
  }

  predicate OnTopology(topo: Topology, hops: seq<Hop>) {
    forall i :: 0 <= i < |hops| ==> 0 <= hops[i].link < |topo|
  }

  // ---- Committing hops one at a time ----------------------------------------------------------

  function AddHop(topo: Topology, b: Books, h: Hop): Books
    requires 0 <= h.link < |b.links| && |b.links| == |topo|
    requires Grouped(topo, h.link) ==> GroupOf(topo, h.link) in b.groups
  {
    Books(b.links[h.link := b.links[h.link].Add(h.key, h.packets)],
          if Grouped(topo, h.link)
          then b.groups[GroupOf(topo, h.link) := b.groups[GroupOf(topo, h.link)].Add(h.key, h.packets)]
          else b.groups)
  }

  predicate Admits(topo: Topology, b: Books, h: Hop)
    requires 0 <= h.link < |b.links| && |b.links| == |topo|
    requires Grouped(topo, h.link) ==> GroupOf(topo, h.link) in b.groups
  {
    && b.links[h.link].Admission(h.key, h.packets) == Admitted
    && (Grouped(topo, h.link) ==> b.groups[GroupOf(topo, h.link)].Admission(h.key, h.packets) == Admitted)
  }

  ghost function AddHops(topo: Topology, b: Books, hops: seq<Hop>): (r: Books)
    requires Shaped(topo, b) && OnTopology(topo, hops)
    ensures Shaped(topo, r)
    ensures r.groups.Keys == b.groups.Keys
  {
    if hops == [] then b
    else AddHop(topo, AddHops(topo, b, hops[..|hops| - 1]), hops[|hops| - 1])
  }

  /** Each reservation, made in turn, is admitted by its link and its group. */
  ghost predicate AdmitsAll(topo: Topology, b: Books, hops: seq<Hop>)
    requires Shaped(topo, b) && OnTopology(topo, hops)
  {
    hops != [] ==>
      var before := hops[..|hops| - 1];
      AdmitsAll(topo, b, before) && Admits(topo, AddHops(topo, b, before), hops[|hops| - 1])
  }

  function PlanHops(p: Plan): (r: seq<Hop>)
    ensures |r| == |p.path|
  {
    seq(|p.path|, i requires 0 <= i < |p.path| => Hop(p.path[i], p.key, p.packets))
  }

  function Hops(plans: seq<Plan>): seq<Hop> {
    if plans == [] then [] else Hops(plans[..|plans| - 1]) + PlanHops(plans[|plans| - 1])
  }

  predicate PathsOnTopology(topo: Topology, plans: seq<Plan>) {
    forall p :: p in plans ==> p.path != [] && forall i :: 0 <= i < |p.path| ==> 0 <= p.path[i] < |topo|
  }

  lemma {:induction false} HopsOnTopology(topo: Topology, plans: seq<Plan>)
    requires PathsOnTopology(topo, plans)
    ensures OnTopology(topo, Hops(plans))
  {
    if plans != [] {
      HopsOnTopology(topo, plans[..|plans| - 1]);
      assert plans[|plans| - 1] in plans;
    }
  }

  lemma {:induction false} HopIffPlan(plans: seq<Plan>, h: Hop)
    ensures h in Hops(plans) <==> exists p :: p in plans && p.key == h.key && p.packets == h.packets && h.link in p.path
  {
    if plans != [] {
      var p := plans[|plans| - 1];
      HopIffPlan(plans[..|plans| - 1], h);
      assert plans == plans[..|plans| - 1] + [p];
      assert h in PlanHops(p) <==> p.key == h.key && p.packets == h.packets && h.link in p.path by {
        if i :| 0 <= i < |p.path| && p.path[i] == h.link {
          assert PlanHops(p)[i].link == h.link;
        }
      }
    }
  }

  /** Packets a list of hops claims from one link, and from one group. */
  function LinkNeed(hops: seq<Hop>, link: int): int {
    if hops == [] then 0
    else LinkNeed(hops[..|hops| - 1], link) + if hops[|hops| - 1].link == link then hops[|hops| - 1].packets else 0
  }

  function GroupNeed(topo: Topology, hops: seq<Hop>, g: GroupKey): int {
    if hops == [] then 0
    else GroupNeed(topo, hops[..|hops| - 1], g)
         + if Member(topo, hops[|hops| - 1].link, g) then hops[|hops| - 1].packets else 0
  }

  predicate LinksFit(b: Books, hops: seq<Hop>) {
    forall h :: h in hops ==> 0 <= h.link < |b.links| && LinkNeed(hops, h.link) <= b.links[h.link].Available()
  }

  predicate GroupsFit(topo: Topology, b: Books, hops: seq<Hop>) {
    forall h :: h in hops && 0 <= h.link < |topo| && Grouped(topo, h.link) ==>
      && GroupOf(topo, h.link) in b.groups
      && GroupNeed(topo, hops, GroupOf(topo, h.link)) <= b.groups[GroupOf(topo, h.link)].Available()
  }

  // ---- Recording and releasing a flow ---------------------------------------------------------

  function GroupsOf(topo: Topology, path: seq<int>): set<GroupKey> {
    set i | i in path && 0 <= i < |topo| && Grouped(topo, i) :: GroupOf(topo, i)
  }

  function Links(path: seq<int>): set<int> {
    set i | i in path
  }

  function RecordLinks(m: map<FlowKey, set<int>>, plans: seq<Plan>): map<FlowKey, set<int>> {
    if plans == [] then m
    else
      var p := plans[|plans| - 1];
      RecordLinks(m, plans[..|plans| - 1])[p.key := Links(p.path)]
  }

  function Recorded(m: map<FlowKey, set<GroupKey>>, key: FlowKey): set<GroupKey> {
    if key in m then m[key] else {}
  }

  function RecordGroups(topo: Topology, m: map<FlowKey, set<GroupKey>>, plans: seq<Plan>): map<FlowKey, set<GroupKey>> {
    if plans == [] then m
    else
      var p := plans[|plans| - 1];
      var before := RecordGroups(topo, m, plans[..|plans| - 1]);
      if GroupsOf(topo, p.path) == {} then before
      else before[p.key := Recorded(before, p.key) + GroupsOf(topo, p.path)]
  }

  datatype Outcome = Reserved | BadFlowSize | DuplicatePath | LinkFull | GroupFull | CommitMismatch

  /** The first plan with a bad size or an active key decides. */
  function CheckPlans(rt: Runtime, plans: seq<Plan>): Outcome {
    if plans == [] then Reserved
    else
      var before := CheckPlans(rt, plans[..|plans| - 1]);
      if before != Reserved then before
      else if plans[|plans| - 1].packets <= 0 then BadFlowSize
      else if plans[|plans| - 1].key in rt.flowLinks then DuplicatePath
      else Reserved
  }

  ghost function ReserveOutcome(topo: Topology, rt: Runtime, plans: seq<Plan>): Outcome
    requires Shaped(topo, rt.books) && PathsOnTopology(topo, plans)
  {
    HopsOnTopology(topo, plans);
    if CheckPlans(rt, plans) != Reserved then CheckPlans(rt, plans)
    else if !LinksFit(rt.books, Hops(plans)) then LinkFull
    else if !GroupsFit(topo, rt.books, Hops(plans)) then GroupFull
    else if !AdmitsAll(topo, rt.books, Hops(plans)) then CommitMismatch
    else Reserved
  }

  ghost function Commit(topo: Topology, rt: Runtime, plans: seq<Plan>): Runtime
    requires Shaped(topo, rt.books) && PathsOnTopology(topo, plans)
  {
    HopsOnTopology(topo, plans);
    Runtime(AddHops(topo, rt.books, Hops(plans)), RecordLinks(rt.flowLinks, plans),
        RecordGroups(topo, rt.flowGroups, plans))
  }

  /** A reservation is all or nothing. */
  ghost function Reserve(topo: Topology, rt: Runtime, plans: seq<Plan>): Runtime
    requires Shaped(topo, rt.books) && PathsOnTopology(topo, plans)
  {
    if ReserveOutcome(topo, rt, plans) == Reserved then Commit(topo, rt, plans) else rt
  }

  /** `NothingToRelease` is the ledger's own error, raised when a release of no packets passes all the other checks. */
  datatype ReleaseOutcome = Released | NoLinkReservation | LinkCountMismatch | NoGroupReservation | GroupCountMismatch
                          | NothingToRelease

  function ReleaseCheck(topo: Topology, rt: Runtime, link: int, key: FlowKey, packets: int): ReleaseOutcome
    requires 0 <= link < |topo| && |rt.books.links| == |topo|
    requires Grouped(topo, link) ==> GroupOf(topo, link) in rt.books.groups
  {
    if key !in rt.flowLinks || link !in rt.flowLinks[key] then NoLinkReservation
    else if rt.books.links[link].ReservedFor(key) != packets then LinkCountMismatch
    else if Grouped(topo, link) && (key !in rt.flowGroups || GroupOf(topo, link) !in rt.flowGroups[key]) then
      NoGroupReservation
    else if Grouped(topo, link) && rt.books.groups[GroupOf(topo, link)].ReservedFor(key) != packets then
      GroupCountMismatch
    else if key !in rt.books.links[link].reservations then NothingToRelease
    else Released
  }

  function Without<K, V>(m: map<K, set<V>>, key: K, v: V): map<K, set<V>>
    requires key in m
  {
    if m[key] - {v} == {} then m - {key} else m[key := m[key] - {v}]
  }

  function RemoveHop(topo: Topology, rt: Runtime, link: int, key: FlowKey): Runtime
    requires 0 <= link < |topo| && |rt.books.links| == |topo|
    requires key in rt.books.links[link].reservations && key in rt.flowLinks
    requires Grouped(topo, link) ==>
               && GroupOf(topo, link) in rt.books.groups && key in rt.books.groups[GroupOf(topo, link)].reservations
               && key in rt.flowGroups
  {
    var links := rt.books.links[link := rt.books.links[link].Remove(key)];
    if Grouped(topo, link) then
      var g := GroupOf(topo, link);
      Runtime(Books(links, rt.books.groups[g := rt.books.groups[g].Remove(key)]),
              Without(rt.flowLinks, key, link), Without(rt.flowGroups, key, g))
    else
      Runtime(Books(links, rt.books.groups), Without(rt.flowLinks, key, link), rt.flowGroups)
  }
}
