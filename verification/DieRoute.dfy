/** Routes over the link table: exactly as long as the distance, simple, and fit for whole-path reservation. */
module DieRoute {
  import opened DieMesh
  import opened LinkTable
  import SafRuntime
  import SafReservation

  /** One link for each step of a die path. */
  ghost predicate Follows(links: seq<Link>, dies: seq<int>, path: seq<int>) {
    && |dies| == |path| + 1
    && (forall k :: 0 <= k < |path| ==> Hops(links, dies[k], dies[k + 1], path[k]))
  }

  predicate Hops(links: seq<Link>, from: int, to: int, l: int) {
    0 <= l < |links| && links[l].localDie == from && links[l].remoteDie == to
  }

  /** The lowest-numbered link that leaves the die by this port, or the link count. */
  function LinkIndex(links: seq<Link>, die: int, port: int): (i: nat)
    ensures i <= |links| && (i < |links| ==> Origin(links[i], die, port))
    ensures forall j :: 0 <= j < i ==> !Origin(links[j], die, port)
  {
    if links == [] then 0 else if Origin(links[0], die, port) then 0 else LinkIndex(links[1..], die, port) + 1
  }

  /** The exit chosen in a die is one of the template's ports for the first-hop direction. */
  predicate GoodExit(m: Dies, ports: seq<Port>, die: int, dest: int, exit: int)
    requires m.Valid()
  {
    0 <= exit < |ports| && ports[exit].role == C2C && ports[exit].dir == FirstHop(m, die, dest)
  }

  /** From a table built on a valid template, the chosen exit's link leads to the next die of the route. */
  lemma ExitLeadsOn(m: Dies, ports: seq<Port>, die: int, dest: int, exit: int)
    requires m.Valid() && Template(m, ports) && AllPaired(m, ports) && m.Has(die) && m.Has(dest) && die != dest
    requires GoodExit(m, ports, die, dest, exit) && m.Count() >= 0
    ensures var links := AllLinks(m, ports, m.Count());
            var i := LinkIndex(links, die, exit);
            i < |links| && links[i].remoteDie == Neighbour(m, die, FirstHop(m, die, dest))
            && 0 <= links[i].remotePort < |ports| && Mirrors(m, ports[exit], ports[links[i].remotePort])
  {
    var links := AllLinks(m, ports, m.Count());
    var l := ExitStarts(m, ports, die, dest, exit);
    var k := Listed(m, ports, die, exit, l);
    AllOrigins(m, ports, m.Count());
    OnlyOrigin(links, die, exit, k);
  }

  lemma ExitStarts(m: Dies, ports: seq<Port>, die: int, dest: int, exit: int) returns (l: Link)
    requires m.Valid() && Template(m, ports) && AllPaired(m, ports) && m.Has(die) && m.Has(dest) && die != dest
    requires GoodExit(m, ports, die, dest, exit)
    ensures Begins(m, ports, die, exit, l) && Origin(l, die, exit)
    ensures l.remoteDie == Neighbour(m, die, FirstHop(m, die, dest))
    ensures 0 <= l.remotePort < |ports| && Mirrors(m, ports[exit], ports[l.remotePort])
  {
    HopNearer(m, die, dest);
    assert Starts(m, ports, die, exit);
    assert Paired(m, ports, exit);
    l := LinkFrom(m, ports, die, exit);
    var mirror := MirrorOf(m, ports, ports[exit]);
    assert ports[mirror].id == mirror && ports[exit].id == exit;
  }

  lemma Listed(m: Dies, ports: seq<Port>, die: int, i: nat, l: Link) returns (k: nat)
    requires m.Valid() && m.Count() >= 0 && m.Has(die) && Begins(m, ports, die, i, l)
    ensures k < |AllLinks(m, ports, m.Count())| && AllLinks(m, ports, m.Count())[k] == l
  {
    assert BeginsAt(m, ports, die, |ports|, l);
    InAllLinks(m, ports, m.Count(), l);
    k :| 0 <= k < |AllLinks(m, ports, m.Count())| && AllLinks(m, ports, m.Count())[k] == l;
  }

  lemma OnlyOrigin(links: seq<Link>, die: int, port: int, k: nat)
    requires DistinctOrigins(links) && k < |links| && Origin(links[k], die, port)
    ensures LinkIndex(links, die, port) == k
  {
    var i := LinkIndex(links, die, port);
    assert i <= k;
  }

  /** A built table, and a port selection that offers exits in the first-hop direction. */
  ghost predicate Ready(m: Dies, ports: seq<Port>, links: seq<Link>, dest: int, exit: int -> int) {
    && m.Valid() && Template(m, ports) && AllPaired(m, ports)
    && m.Count() >= 0 && links == AllLinks(m, ports, m.Count())
    && (forall die :: m.Has(die) && die != dest ==> GoodExit(m, ports, die, dest, exit(die)))
  }

  /** With those, every die of a route has its link, found by port alone or by port and next die. */
  lemma ReadyHop(m: Dies, ports: seq<Port>, links: seq<Link>, at: int, dest: int, exit: int -> int)
    requires Ready(m, ports, links, dest, exit) && m.Has(at) && m.Has(dest) && at != dest
    ensures GoodExit(m, ports, at, dest, exit(at)) && ports[exit(at)].side == ports[exit(at)].dir
    ensures var i := LinkIndex(links, at, exit(at));
            i < |links| && links[i].remoteDie == Neighbour(m, at, FirstHop(m, at, dest))
    ensures forall j :: 0 <= j < |links| ==> 0 <= links[j].remotePort < |ports|
  {
    assert GoodExit(m, ports, at, dest, exit(at));
    assert Faces(m, ports[exit(at)]);
    ExitLeadsOn(m, ports, at, dest, exit(at));
    forall j | 0 <= j < |links|
      ensures 0 <= links[j].remotePort < |ports|
    {
      InAllLinks(m, ports, m.Count(), links[j]);
      var die :| 0 <= die < m.Count() && BeginsAt(m, ports, die, |ports|, links[j]);
      var k :| 0 <= k < |ports| && Begins(m, ports, die, k, links[j]);
      assert ports[MirrorOf(m, ports, ports[k])].id == MirrorOf(m, ports, ports[k]);
    }
  }

  datatype Route = Routed(dies: seq<int>, links: seq<int>)
                 | IllegalEndpoint | MissingExit | InvalidExit | LeavesMesh | NoPeer | IllegalRemotePort

  /** The part of the route behind: its dies so far, one link between each two. */
  ghost predicate Partway(m: Dies, links: seq<Link>, src: int, at: int, dest: int, dies: seq<int>, path: seq<int>) {
    && m.Valid() && m.Has(src) && m.Has(at) && m.Has(dest)
    && dies != [] && dies[|dies| - 1] == at && Follows(links, dies, path)
    && dies[..|dies| - 1] + DiePath(m, at, dest) == DiePath(m, src, dest)
  }

  lemma StepOnward(m: Dies, links: seq<Link>, src: int, at: int, dest: int, dies: seq<int>, path: seq<int>, next: int,
          i: int)
    requires Partway(m, links, src, at, dest, dies, path) && at != dest
    requires next == Neighbour(m, at, FirstHop(m, at, dest)) && Hops(links, at, next, i)
    ensures m.Has(next) && Manhattan(m, next, dest) < Manhattan(m, at, dest)
    ensures Partway(m, links, src, next, dest, dies + [next], path + [i])
  {
    HopNearer(m, at, dest);
    assert (dies + [next])[..|dies|] == dies == dies[..|dies| - 1] + [at];
    assert dies[..|dies| - 1] + ([at] + DiePath(m, next, dest)) == dies[..|dies| - 1] + [at] + DiePath(m, next, dest);
  }

  lemma Arrived(m: Dies, links: seq<Link>, src: int, dest: int, dies: seq<int>, path: seq<int>)
    requires Partway(m, links, src, dest, dest, dies, path)
    ensures dies == DiePath(m, src, dest) && Follows(links, dies, path) && |path| == Manhattan(m, src, dest)
  {
    DiePathExact(m, src, dest);
    assert dies[..|dies| - 1] + [dest] == dies;
  }

  /** The route loop. `exit` is the port selection, which may keep state but chooses once for each die of the route. */
  method BuildRoute(m: Dies, ports: seq<Port>, links: seq<Link>, src: int, dest: int, exit: int -> int)
    returns (route: Route)
    requires m.Valid()
    ensures route == IllegalEndpoint <==> !m.Has(src) || !m.Has(dest)
    ensures route.Routed? ==>
              && route.dies == DiePath(m, src, dest) && Follows(links, route.dies, route.links)
              && |route.links| == Manhattan(m, src, dest)
    ensures route != LeavesMesh
    ensures Ready(m, ports, links, dest, exit) ==> route.Routed? || route == IllegalEndpoint
  {
    if !m.Has(src) || !m.Has(dest) {
      return IllegalEndpoint;
    }
    var at, dies, path := src, [src], [];
    while at != dest
      invariant Partway(m, links, src, at, dest, dies, path)
      decreases Manhattan(m, at, dest)
    {
      if Ready(m, ports, links, dest, exit) {
        ReadyHop(m, ports, links, at, dest, exit);
      }
      var dir := FirstHop(m, at, dest);
      HopNearer(m, at, dest);
      var port := exit(at);
      if port < 0 || port >= |ports| {
        return MissingExit;
      }
      var p := ports[port];
      if p.role != C2C || p.dir != dir || p.side != dir {
        return InvalidExit;
      }
      var next := Neighbour(m, at, dir);
      if next < 0 {
        return LeavesMesh;
      }
      var i := FindLink(links, at, port, next);
      if i == |links| {
        return NoPeer;
      }
      if links[i].remotePort < 0 || links[i].remotePort >= |ports| {
        return IllegalRemotePort;
      }
      StepOnward(m, links, src, at, dest, dies, path, next, i);
      path, dies, at := path + [i], dies + [next], next;
    }
    Arrived(m, links, src, dest, dies, path);
    route := Routed(dies, path);
  }

  method FindLink(links: seq<Link>, die: int, port: int, next: int) returns (i: nat)
    ensures i <= |links|
    ensures i < |links| ==> Origin(links[i], die, port) && links[i].remoteDie == next
    ensures forall j :: 0 <= j < i ==> !(Origin(links[j], die, port) && links[j].remoteDie == next)
  {
    i := 0;
    while i < |links| && !(links[i].localDie == die && links[i].localPort == port && links[i].remoteDie == next)
      invariant i <= |links|
      invariant forall j :: 0 <= j < i ==> !(Origin(links[j], die, port) && links[j].remoteDie == next)
    {
      i := i + 1;
    }
  }

  /** If the chosen exit has a link, it leads to the next die of the route. */
  predicate LeadsOn(m: Dies, links: seq<Link>, die: int, dest: int, port: int)
    requires m.Valid()
  {
    var i := LinkIndex(links, die, port);
    i < |links| ==> links[i].remoteDie == Neighbour(m, die, FirstHop(m, die, dest))
  }

  /** The port selection never chooses a link in another direction than the first hop's. */
  ghost predicate Directed(m: Dies, links: seq<Link>, dest: int, exit: int -> int) {
    m.Valid() && forall die :: m.Has(die) && die != dest ==> LeadsOn(m, links, die, dest, exit(die))
  }

  /** Every die of the route but the last has a link at its chosen exit. */
  ghost predicate Linked(links: seq<Link>, dies: seq<int>, exit: int -> int) {
    forall k :: 0 <= k < |dies| - 1 ==> LinkIndex(links, dies[k], exit(dies[k])) < |links|
  }

  /** A built table and exits of the first-hop direction make both sure. */
  lemma ReadyRoutes(m: Dies, ports: seq<Port>, links: seq<Link>, src: int, dest: int, exit: int -> int)
    requires Ready(m, ports, links, dest, exit) && m.Has(src) && m.Has(dest)
    ensures Directed(m, links, dest, exit) && Linked(links, DiePath(m, src, dest), exit)
  {
    forall die | m.Has(die) && die != dest
      ensures LeadsOn(m, links, die, dest, exit(die)) && LinkIndex(links, die, exit(die)) < |links|
    {
      ReadyHop(m, ports, links, die, dest, exit);
    }
    var dies := DiePath(m, src, dest);
    DiePathExact(m, src, dest);
    forall k | 0 <= k < |dies| - 1
      ensures LinkIndex(links, dies[k], exit(dies[k])) < |links|
    {
      assert Manhattan(m, dies[k], dest) == |dies| - 1 - k;
      assert Manhattan(m, dest, dest) == 0;
    }
  }

  lemma NextDie(m: Dies, links: seq<Link>, src: int, at: int, dest: int, dies: seq<int>, path: seq<int>)
    requires Partway(m, links, src, at, dest, dies, path)
    ensures |dies| <= |DiePath(m, src, dest)| && DiePath(m, src, dest)[|dies| - 1] == at
    ensures at != dest ==> |dies| < |DiePath(m, src, dest)|
  {
    var n := |dies| - 1;
    assert (dies[..n] + DiePath(m, at, dest))[n] == DiePath(m, at, dest)[0];
    if at != dest {
      HopNearer(m, at, dest);
    }
  }

  /**
   * The reservation path of one flow, which follows each link to wherever it leads. It terminates on exactly
   * the dimension-ordered route, unless a die on it has no link at the chosen exit.
   */
  method WholeFlowSafPath(m: Dies, links: seq<Link>, src: int, dest: int, exit: int -> int)
    returns (found: bool, path: seq<int>)
    requires Directed(m, links, dest, exit) && m.Has(src) && m.Has(dest)
    ensures found <==> Linked(links, DiePath(m, src, dest), exit)
    ensures found ==> Follows(links, DiePath(m, src, dest), path) && |path| == Manhattan(m, src, dest)
  {
    var at := src;
    ghost var dies := [src];
    path := [];
    while at != dest
      invariant Partway(m, links, src, at, dest, dies, path)
      invariant Linked(links, dies, exit)
      decreases Manhattan(m, at, dest)
    {
      NextDie(m, links, src, at, dest, dies, path);
      assert LeadsOn(m, links, at, dest, exit(at));
      var port := exit(at);
      var idx := LinkIndex(links, at, port);
      if idx == |links| {
        return false, path;
      }
      var next := links[idx].remoteDie;
      StepOnward(m, links, src, at, dest, dies, path, next, idx);
      path, dies, at := path + [idx], dies + [next], next;
    }
    Arrived(m, links, src, dest, dies, path);
    found := true;
  }

  // ---- What routes give a reservation ---------------------------------------------------------

  function Described(links: seq<Link>): (t: SafRuntime.Topology)
    ensures |t| == |links|
  {
    seq(|links|, i requires 0 <= i < |links| => SafRuntime.LinkDesc(links[i].localDie, links[i].remoteDie,
        links[i].group))
  }

  lemma NoRepeat(dies: seq<int>, i: nat, j: nat)
    requires Simple(dies) && i < j < |dies|
    ensures dies[i] != dies[j]
  {
  }

  /**
   * A dimension-ordered route repeats no link and no directed die pair, which is what an all-or-nothing commit needs.
   */
  lemma RouteIsExclusive(m: Dies, links: seq<Link>, src: int, dest: int, path: seq<int>)
    requires m.Valid() && m.Has(src) && m.Has(dest) && Follows(links, DiePath(m, src, dest), path)
    ensures SafReservation.Routed(Described(links), path)
  {
    var dies := DiePath(m, src, dest);
    DiePathSimple(m, src, dest);
    forall i, j | 0 <= i < j < |path|
      ensures path[i] != path[j] && !SafReservation.SharedGroup(Described(links), path[i], path[j])
    {
      assert Hops(links, dies[i], dies[i + 1], path[i]) && Hops(links, dies[j], dies[j + 1], path[j]);
      NoRepeat(dies, i, j);
    }
  }

  /** All stripes of a flow take as many links, so the striped estimate's hop-count error cannot arise. */
  lemma StripesSameLength(m: Dies, links: seq<Link>, src: int, dest: int, paths: seq<seq<int>>)
    requires m.Valid() && m.Has(src) && m.Has(dest)
    requires forall k :: 0 <= k < |paths| ==> Follows(links, DiePath(m, src, dest), paths[k])
    ensures forall k :: 0 <= k < |paths| ==> |paths[k]| == Manhattan(m, src, dest)
  {
    DiePathExact(m, src, dest);
    forall k | 0 <= k < |paths|
      ensures |paths[k]| == Manhattan(m, src, dest)
    {
      assert Follows(links, DiePath(m, src, dest), paths[k]);
    }
  }
}
