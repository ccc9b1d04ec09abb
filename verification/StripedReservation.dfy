/** A striped transfer reserves all its stripes' routes in one step, or nothing. */
module StripedReservation {
  import opened Basics
  import opened FlowLedger
  import opened SafRuntime
  import opened SafAgreement
  import opened SafReservation
  import opened SafRuntimeUnit
  import opened DieMesh
  import opened LinkTable
  import DieRoute

  datatype Striped = InvalidInput | SameDie | NoLink | Attempted(outcome: Outcome)

  function CoresPerDie(m: Dies): int {
    m.gridX * m.gridY
  }

  function DieOf(m: Dies, core: int): int
    requires CoresPerDie(m) > 0
  {
    core / CoresPerDie(m)
  }

  predicate LegalCore(m: Dies, core: int) {
    0 <= core < m.Count() * CoresPerDie(m)
  }

  lemma DieOfLegal(m: Dies, core: int)
    requires m.Valid() && LegalCore(m, core)
    ensures CoresPerDie(m) > 0 && m.Has(DieOf(m, core))
  {
    MulMono(1, m.gridX, m.gridY);
    var c := CoresPerDie(m);
    var d := core / c;
    assert core == d * c + core % c;
    if d >= m.Count() {
      MulMono(m.Count(), d, c);
    } else if d < 0 {
      OneMore(d, c);
      MulMono(d + 1, 0, c);
    }
  }

  /** Each stripe has its own flow key, its declared packets, and a dimension-ordered path. */
  ghost predicate StripesOf(m: Dies, links: seq<Link>, source: int, dest: int, tag: int, counts: seq<int>,
          plans: seq<Plan>)
    requires m.Valid() && CoresPerDie(m) > 0
  {
    && |plans| <= |counts| && m.Has(DieOf(m, source)) && m.Has(DieOf(m, dest))
    && forall s :: 0 <= s < |plans| ==> StripeOf(m, links, source, dest, tag, counts, plans[s], s)
  }

  ghost predicate StripeOf(m: Dies, links: seq<Link>, source: int, dest: int, tag: int, counts: seq<int>, p: Plan,
          s: int)
    requires m.Valid() && CoresPerDie(m) > 0 && m.Has(DieOf(m, source)) && m.Has(DieOf(m, dest))
  {
    && 0 <= s < |counts| && p.key == FlowKey(source, tag, s) && p.packets == counts[s]
    && DieRoute.Follows(links, DiePath(m, DieOf(m, source), DieOf(m, dest)), p.path)
  }

  lemma StripesFit(m: Dies, links: seq<Link>, source: int, dest: int, tag: int, counts: seq<int>, plans: seq<Plan>)
    requires m.Valid() && CoresPerDie(m) > 0 && StripesOf(m, links, source, dest, tag, counts, plans)
    requires DieOf(m, source) != DieOf(m, dest)
    ensures DistinctKeys(plans) && PathsOnTopology(DieRoute.Described(links), plans)
    ensures forall p :: p in plans ==> Routed(DieRoute.Described(links), p.path)
  {
    forall i, j | 0 <= i < j < |plans|
      ensures plans[i].key != plans[j].key
    {
      assert StripeOf(m, links, source, dest, tag, counts, plans[i], i);
      assert StripeOf(m, links, source, dest, tag, counts, plans[j], j);
    }
    forall p | p in plans
      ensures Routed(DieRoute.Described(links), p.path)
      ensures p.path != [] && forall i :: 0 <= i < |p.path| ==> 0 <= p.path[i] < |links|
    {
      var s :| 0 <= s < |plans| && plans[s] == p;
      assert StripeOf(m, links, source, dest, tag, counts, plans[s], s);
      PathFits(m, links, DieOf(m, source), DieOf(m, dest), p.path);
    }
  }

  lemma PathFits(m: Dies, links: seq<Link>, from: int, to: int, path: seq<int>)
    requires m.Valid() && m.Has(from) && m.Has(to) && from != to && DieRoute.Follows(links, DiePath(m, from, to), path)
    ensures Routed(DieRoute.Described(links), path)
    ensures path != [] && forall i :: 0 <= i < |path| ==> 0 <= path[i] < |links|
  {
    var dies := DiePath(m, from, to);
    DieRoute.RouteIsExclusive(m, links, from, to, path);
    DiePathExact(m, from, to);
    HopNearer(m, from, to);
    forall i | 0 <= i < |path|
      ensures 0 <= path[i] < |links|
    {
      assert DieRoute.Hops(links, dies[i], dies[i + 1], path[i]);
    }
  }

  /** For stripe `s`, no die on the way selects a link that leads elsewhere than the first hop to `to`. */
  ghost predicate StripeDirected(m: Dies, links: seq<Link>, exit: (int, int) -> int, s: int, to: int) {
    DieRoute.Directed(m, links, to, die => exit(die, s))
  }

  /** And every one of them has a link at its exit. */
  ghost predicate StripeLinked(m: Dies, links: seq<Link>, exit: (int, int) -> int, s: int, from: int, to: int)
    requires m.Valid() && m.Has(from) && m.Has(to)
  {
    DieRoute.Linked(links, DiePath(m, from, to), die => exit(die, s))
  }

  method PlanStripes(m: Dies, links: seq<Link>, source: int, dest: int, tag: int, counts: seq<int>,
          exit: (int, int) -> int)
    returns (ok: bool, plans: seq<Plan>)
    requires m.Valid() && CoresPerDie(m) > 0 && m.Has(DieOf(m, source)) && m.Has(DieOf(m, dest))
    requires forall s :: 0 <= s < |counts| ==> StripeDirected(m, links, exit, s, DieOf(m, dest))
    ensures ok <==> forall s :: 0 <= s < |counts| ==> StripeLinked(m, links, exit, s, DieOf(m, source), DieOf(m, dest))
    ensures ok ==> |plans| == |counts| && StripesOf(m, links, source, dest, tag, counts, plans)
  {
    var from, to := DieOf(m, source), DieOf(m, dest);
    plans := [];
    for s := 0 to |counts|
      invariant |plans| == s && StripesOf(m, links, source, dest, tag, counts, plans)
      invariant forall k :: 0 <= k < s ==> StripeLinked(m, links, exit, k, from, to)
    {
      assert StripeDirected(m, links, exit, s, to);
      var found, path := DieRoute.WholeFlowSafPath(m, links, from, to, die => exit(die, s));
      if !found {
        assert !StripeLinked(m, links, exit, s, from, to);
        return false, [];
      }
      plans := plans + [Plan(FlowKey(source, tag, s), counts[s], path)];
      assert StripeOf(m, links, source, dest, tag, counts, plans[s], s);
    }
    ok := true;
  }

  /** Over a built link table, exits of the first-hop direction give every stripe its route. */
  lemma ReadyStripe(m: Dies, ports: seq<Port>, links: seq<Link>, exit: (int, int) -> int, s: int, from: int, to: int)
    requires DieRoute.Ready(m, ports, links, to, die => exit(die, s)) && m.Has(from) && m.Has(to)
    ensures StripeDirected(m, links, exit, s, to) && StripeLinked(m, links, exit, s, from, to)
  {
    DieRoute.ReadyRoutes(m, ports, links, from, to, die => exit(die, s));
  }

  /**
   * Stripes on the routes the die mesh gives them are refused only by the preflight. The commit mismatch the
   * source guards against is unreachable, and admission is exactly positive sizes, idle keys and room.
   */
  lemma StripesAdmittedIff(m: Dies, links: seq<Link>, cap: int, rt: Runtime, source: int, dest: int, tag: int,
          counts: seq<int>, plans: seq<Plan>)
    requires m.Valid() && CoresPerDie(m) > 0 && StripesOf(m, links, source, dest, tag, counts, plans)
    requires DieOf(m, source) != DieOf(m, dest) && Agree(DieRoute.Described(links), cap, rt)
    ensures PathsOnTopology(DieRoute.Described(links), plans)
    ensures ReserveOutcome(DieRoute.Described(links), rt, plans) != CommitMismatch
    ensures ReserveOutcome(DieRoute.Described(links), rt, plans) == Reserved <==>
              && (forall p :: p in plans ==> p.packets > 0 && p.key !in rt.flowLinks)
              && LinksFit(rt.books, Hops(plans)) && GroupsFit(DieRoute.Described(links), rt.books, Hops(plans))
    ensures Agree(DieRoute.Described(links), cap, Reserve(DieRoute.Described(links), rt, plans))
  {
    StripesFit(m, links, source, dest, tag, counts, plans);
    CommitCannotFail(DieRoute.Described(links), cap, rt, plans);
    ReserveAgrees(DieRoute.Described(links), cap, rt, plans);
  }

  predicate Rejectable(m: Dies, source: int, dest: int, counts: seq<int>) {
    !LegalCore(m, source) || !LegalCore(m, dest) || counts == [] || |counts| > 4
  }

  /**
   * The production reservation of a striped transfer: with exits that keep to the first hop it either commits
   * every stripe's whole route or changes nothing.
   */
  method ReserveStripedWholeFlowSafPaths(m: Dies, links: seq<Link>, unit: Unit, source: int, dest: int, tag: int,
                                         counts: seq<int>, exit: (int, int) -> int)
    returns (r: Striped, ghost plans: seq<Plan>)
    requires m.Valid() && CoresPerDie(m) > 0 && unit.topo == DieRoute.Described(links)
               && Shaped(unit.topo, unit.Ledgers())
    requires forall s :: 0 <= s < |counts| && m.Has(DieOf(m, dest)) ==>
               StripeDirected(m, links, exit, s, DieOf(m, dest))
    modifies unit
    ensures r == InvalidInput <==> Rejectable(m, source, dest, counts)
    ensures r == SameDie <==> !Rejectable(m, source, dest, counts) && DieOf(m, source) == DieOf(m, dest)
    ensures r == NoLink || r.Attempted? ==> m.Has(DieOf(m, source)) && m.Has(DieOf(m, dest))
    ensures r == NoLink ==>
              exists s :: 0 <= s < |counts| && !StripeLinked(m, links, exit, s, DieOf(m, source), DieOf(m, dest))
    ensures r.Attempted? ==> forall s :: 0 <= s < |counts| ==>
              StripeLinked(m, links, exit, s, DieOf(m, source), DieOf(m, dest))
    ensures !r.Attempted? ==> unit.Abs() == old(unit.Abs())
    ensures r.Attempted? ==>
              && |plans| == |counts| && StripesOf(m, links, source, dest, tag, counts, plans)
              && PathsOnTopology(unit.topo, plans)
              && r.outcome == ReserveOutcome(unit.topo, old(unit.Abs()), plans)
              && unit.Abs() == Reserve(unit.topo, old(unit.Abs()), plans)
  {
    plans := [];
    var total := m.dieX * m.dieY * (m.gridX * m.gridY);
    if source < 0 || source >= total || dest < 0 || dest >= total || counts == [] || |counts| > 4 {
      return InvalidInput, [];
    }
    DieOfLegal(m, source);
    DieOfLegal(m, dest);
    var from, to := DieOf(m, source), DieOf(m, dest);
    if from == to {
      return SameDie, [];
    }
    var ok, built := PlanStripes(m, links, source, dest, tag, counts, exit);
    if !ok {
      return NoLink, [];
    }
    plans := built;
    StripesFit(m, links, source, dest, tag, counts, built);
    var outcome := unit.ReserveSafPlans(built);
    r := Attempted(outcome);
  }
}
