/** The table of directed die-to-die links, built from one port template that every die shares. */
module LinkTable {
  import opened Basics
  import opened DieMesh

  datatype Role = HOST | MEM | C2C

  datatype Port = Port(id: int, tile: int, side: Direction, role: Role, dir: Direction, bw: int, latency: int,
      group: int)

  datatype Link = Link(localDie: int, localPort: int, remoteDie: int, remotePort: int,
                       txBw: int, rxBw: int, latency: int, group: int)

  datatype Built = Links(links: seq<Link>) | NoReciprocalPort | PairMismatch | EndpointReused | NotReciprocal

  /** A port's coordinate along its side. */
  function PerpCoord(m: Dies, p: Port): int
    requires m.Valid()
  {
    if p.side == EAST || p.side == WEST then p.tile / m.gridX else p.tile % m.gridX
  }

  function EdgeLength(m: Dies, side: Direction): int {
    if side == NORTH || side == SOUTH then m.gridX else m.gridY
  }

  function TileFor(m: Dies, side: Direction, idx: int): int {
    match side
    case NORTH => (m.gridY - 1) * m.gridX + idx
    case SOUTH => idx
    case WEST => idx * m.gridX
    case EAST => idx * m.gridX + (m.gridX - 1)
    case CENTER => 0
  }

  /** Where a port sits on its side. */
  ghost predicate At(m: Dies, p: Port, idx: int) {
    p.side != CENTER && 0 <= idx < EdgeLength(m, p.side) && p.tile == TileFor(m, p.side, idx)
  }

  lemma CoordIsIndex(m: Dies, p: Port, idx: int)
    requires m.Valid() && At(m, p, idx)
    ensures PerpCoord(m, p) == idx
  {
    match p.side
    case NORTH => DivUnique(p.tile, m.gridX, m.gridY - 1, idx);
    case SOUTH => DivUnique(p.tile, m.gridX, 0, idx);
    case WEST => DivUnique(p.tile, m.gridX, idx, 0);
    case EAST => DivUnique(p.tile, m.gridX, idx, m.gridX - 1);
  }

  /** What parsing guarantees: ports are numbered in order, sit on a side, at most one to a place, and face outward. */
  ghost predicate Template(m: Dies, ports: seq<Port>) {
    && (forall i :: 0 <= i < |ports| ==> ports[i].id == i && Faces(m, ports[i]))
    && (forall i, j, idx :: 0 <= i < |ports| && 0 <= j < |ports| && SamePlace(m, ports[i], ports[j], idx) ==> i == j)
  }

  ghost predicate SamePlace(m: Dies, p: Port, q: Port, idx: int) {
    p.side == q.side && At(m, p, idx) && At(m, q, idx)
  }

  ghost predicate Faces(m: Dies, p: Port) {
    (exists idx :: At(m, p, idx)) && (p.role == C2C ==> p.dir == p.side)
  }

  predicate Mirrors(m: Dies, p: Port, q: Port)
    requires m.Valid()
  {
    q.role == C2C && q.side == Opposite(p.side) && q.dir == Opposite(p.dir) && PerpCoord(m, q) == PerpCoord(m, p)
  }

  /** The first port facing `p` across the gap, or the port count if there is none. */
  function MirrorOf(m: Dies, ports: seq<Port>, p: Port): (i: nat)
    requires m.Valid()
    ensures i <= |ports| && (i < |ports| ==> Mirrors(m, p, ports[i]))
    ensures forall j :: 0 <= j < i ==> !Mirrors(m, p, ports[j])
  {
    if ports == [] then 0 else if Mirrors(m, p, ports[0]) then 0 else MirrorOf(m, ports[1..], p) + 1
  }

  predicate Compatible(p: Port, q: Port) {
    p.bw == q.bw && p.latency == q.latency && p.group == q.group
  }

  /** This port of this die starts a link. */
  predicate Starts(m: Dies, ports: seq<Port>, die: int, i: nat)
    requires m.Valid() && i < |ports|
  {
    ports[i].role == C2C && Neighbour(m, die, ports[i].dir) >= 0
  }

  predicate Paired(m: Dies, ports: seq<Port>, i: nat)
    requires m.Valid() && i < |ports|
  {
    MirrorOf(m, ports, ports[i]) < |ports| && Compatible(ports[i], ports[MirrorOf(m, ports, ports[i])])
  }

  function LinkFrom(m: Dies, ports: seq<Port>, die: int, i: nat): Link
    requires m.Valid() && i < |ports| && Paired(m, ports, i)
  {
    var p := ports[i];
    var q := ports[MirrorOf(m, ports, p)];
    Link(die, p.id, Neighbour(m, die, p.dir), q.id, p.bw, q.bw, p.latency, p.group)
  }

  /** The links of one die's first `n` ports. */
  function DieLinks(m: Dies, ports: seq<Port>, die: int, n: nat): seq<Link>
    requires m.Valid() && n <= |ports|
  {
    if n == 0 then []
    else
      DieLinks(m, ports, die, n - 1)
      + if Starts(m, ports, die, n - 1) && Paired(m, ports, n - 1) then [LinkFrom(m, ports, die, n - 1)] else []
  }

  function AllLinks(m: Dies, ports: seq<Port>, dies: nat): seq<Link>
    requires m.Valid()
  {
    if dies == 0 then [] else AllLinks(m, ports, dies - 1) + DieLinks(m, ports, dies - 1, |ports|)
  }

  /** Every port that has a neighbour to link to finds a compatible mirror. */
  ghost predicate AllPaired(m: Dies, ports: seq<Port>)
    requires m.Valid()
  {
    forall die, i :: 0 <= die < m.Count() && 0 <= i < |ports| && Starts(m, ports, die, i) ==> Paired(m, ports, i)
  }

  // ---- What the table holds -------------------------------------------------------------------

  /** The link is the one that port `i` of die `die` starts. */
  predicate Begins(m: Dies, ports: seq<Port>, die: int, i: int, l: Link)
    requires m.Valid()
  {
    0 <= i < |ports| && Starts(m, ports, die, i) && Paired(m, ports, i) && l == LinkFrom(m, ports, die, i)
  }

  ghost predicate BeginsAt(m: Dies, ports: seq<Port>, die: int, n: int, l: Link)
    requires m.Valid()
  {
    exists i :: 0 <= i < n && Begins(m, ports, die, i, l)
  }

  lemma {:induction false} InDieLinks(m: Dies, ports: seq<Port>, die: int, n: nat, l: Link)
    requires m.Valid() && n <= |ports|
    ensures l in DieLinks(m, ports, die, n) <==> BeginsAt(m, ports, die, n, l)
  {
    if n > 0 {
      InDieLinks(m, ports, die, n - 1, l);
      assert Begins(m, ports, die, n - 1, l) <==>
               Starts(m, ports, die, n - 1) && Paired(m, ports, n - 1) && l == LinkFrom(m, ports, die, n - 1);
    }
  }

  ghost predicate BeginsBelow(m: Dies, ports: seq<Port>, dies: int, l: Link)
    requires m.Valid()
  {
    exists die :: 0 <= die < dies && BeginsAt(m, ports, die, |ports|, l)
  }

  lemma BelowNext(m: Dies, ports: seq<Port>, dies: nat, l: Link)
    requires m.Valid()
    ensures BeginsBelow(m, ports, dies + 1, l) <==>
              BeginsBelow(m, ports, dies, l) || BeginsAt(m, ports, dies, |ports|, l)
  {
  }

  lemma {:induction false} InAllLinks(m: Dies, ports: seq<Port>, dies: nat, l: Link)
    requires m.Valid()
    ensures l in AllLinks(m, ports, dies) <==> BeginsBelow(m, ports, dies, l)
  {
    if dies > 0 {
      InAllLinks(m, ports, dies - 1, l);
      InDieLinks(m, ports, dies - 1, |ports|, l);
      BelowNext(m, ports, dies - 1, l);
    }
  }

  /** On a valid template a mirror is unique, and mirroring is its own inverse. */
  lemma MirrorBack(m: Dies, ports: seq<Port>, i: nat)
    requires m.Valid() && Template(m, ports) && i < |ports| && ports[i].role == C2C
               && MirrorOf(m, ports, ports[i]) < |ports|
    ensures MirrorOf(m, ports, ports[MirrorOf(m, ports, ports[i])]) == i
  {
    var q := MirrorOf(m, ports, ports[i]);
    assert Faces(m, ports[i]) && Faces(m, ports[q]);
    assert Mirrors(m, ports[q], ports[i]);
    var back := MirrorOf(m, ports, ports[q]);
    assert back <= i;
    assert Faces(m, ports[back]);
    var a :| At(m, ports[i], a);
    var b :| At(m, ports[back], b);
    CoordIsIndex(m, ports[i], a);
    CoordIsIndex(m, ports[back], b);
    assert SamePlace(m, ports[i], ports[back], a);
  }

  /** Two ports face each other across a gap: opposite sides, the same place along them, both carrying links. */
  ghost predicate Facing(m: Dies, p: Port, q: Port) {
    && p.role == C2C && q.role == C2C && q.side == Opposite(p.side)
    && exists idx :: At(m, p, idx) && At(m, q, idx)
  }

  /** One port's end of the joint: who it is, and the settings both ends must share. */
  ghost predicate Matches(m: Dies, ports: seq<Port>, i: nat, j: nat)
    requires i < |ports| && j < |ports|
  {
    Facing(m, ports[i], ports[j]) && (ports[i].bw, ports[i].latency, ports[i].group)
                                     == (ports[j].bw, ports[j].latency, ports[j].group)
  }

  lemma MirrorsFace(m: Dies, ports: seq<Port>, i: nat, j: nat)
    requires m.Valid() && Template(m, ports) && i < |ports| && j < |ports| && ports[i].role == C2C
    ensures Mirrors(m, ports[i], ports[j]) <==> Facing(m, ports[i], ports[j])
  {
    assert Faces(m, ports[i]) && Faces(m, ports[j]);
    var a :| At(m, ports[i], a);
    var b :| At(m, ports[j], b);
    CoordIsIndex(m, ports[i], a);
    CoordIsIndex(m, ports[j], b);
    forall idx | At(m, ports[i], idx) && At(m, ports[j], idx)
      ensures a == idx == b
    {
      CoordIsIndex(m, ports[i], idx);
      CoordIsIndex(m, ports[j], idx);
    }
  }

  /** No second port of the template faces the same one. */
  lemma FacingOnce(m: Dies, ports: seq<Port>, i: nat, j: nat, k: nat)
    requires m.Valid() && Template(m, ports) && i < |ports| && j < |ports| && k < |ports|
    requires Facing(m, ports[i], ports[j]) && Facing(m, ports[i], ports[k])
    ensures j == k
  {
    var a :| At(m, ports[i], a) && At(m, ports[j], a);
    var b :| At(m, ports[i], b) && At(m, ports[k], b);
    CoordIsIndex(m, ports[i], a);
    CoordIsIndex(m, ports[i], b);
    assert SamePlace(m, ports[j], ports[k], a);
  }

  /** A port is paired exactly if the port that faces it exists and shares its bandwidth, latency and group. */
  lemma PairedIff(m: Dies, ports: seq<Port>, i: nat)
    requires m.Valid() && Template(m, ports) && i < |ports| && ports[i].role == C2C
    ensures Paired(m, ports, i) <==> exists j :: 0 <= j < |ports| && Matches(m, ports, i, j)
    ensures Paired(m, ports, i) ==> Matches(m, ports, i, MirrorOf(m, ports, ports[i]))
  {
    var q := MirrorOf(m, ports, ports[i]);
    if q < |ports| {
      MirrorsFace(m, ports, i, q);
      assert Paired(m, ports, i) <==> Matches(m, ports, i, q);
    }
    forall j | 0 <= j < |ports| && Matches(m, ports, i, j)
      ensures q == j
    {
      MirrorsFace(m, ports, i, j);
      FacingOnce(m, ports, i, q, j);
    }
  }

  /** The link from die `die` over port `i` to the port `j` that faces it on the die next door. */
  ghost predicate Joins(m: Dies, ports: seq<Port>, l: Link, die: int, i: nat, j: nat)
    requires m.Valid() && i < |ports| && j < |ports|
  {
    && m.Has(die) && ports[i].role == C2C && Neighbour(m, die, ports[i].side) >= 0 && Matches(m, ports, i, j)
    && l == Link(die, i, Neighbour(m, die, ports[i].side), j, ports[i].bw, ports[j].bw, ports[i].latency,
                 ports[i].group)
  }

  /** A built table holds exactly the links that join facing ports of neighbouring dies. */
  lemma TableIs(m: Dies, ports: seq<Port>, l: Link)
    requires m.Valid() && Template(m, ports) && AllPaired(m, ports) && m.Count() >= 0
    ensures l in AllLinks(m, ports, m.Count()) <==>
            exists die, i, j :: 0 <= i < |ports| && 0 <= j < |ports| && Joins(m, ports, l, die, i, j)
  {
    InAllLinks(m, ports, m.Count(), l);
    if l in AllLinks(m, ports, m.Count()) {
      var die :| 0 <= die < m.Count() && BeginsAt(m, ports, die, |ports|, l);
      var i :| 0 <= i < |ports| && Begins(m, ports, die, i, l);
      BeginsJoins(m, ports, l, die, i);
    }
    forall die, i, j | 0 <= i < |ports| && 0 <= j < |ports| && Joins(m, ports, l, die, i, j)
      ensures BeginsAt(m, ports, die, |ports|, l)
    {
      JoinsBegins(m, ports, l, die, i, j);
    }
  }

  lemma BeginsJoins(m: Dies, ports: seq<Port>, l: Link, die: int, i: nat)
    requires m.Valid() && Template(m, ports) && m.Has(die) && i < |ports| && Begins(m, ports, die, i, l)
    ensures Joins(m, ports, l, die, i, MirrorOf(m, ports, ports[i]))
  {
    PairedIff(m, ports, i);
    assert Faces(m, ports[i]);
    assert ports[MirrorOf(m, ports, ports[i])].id == MirrorOf(m, ports, ports[i]);
  }

  lemma JoinsBegins(m: Dies, ports: seq<Port>, l: Link, die: int, i: nat, j: nat)
    requires m.Valid() && Template(m, ports) && i < |ports| && j < |ports| && Joins(m, ports, l, die, i, j)
    ensures Begins(m, ports, die, i, l) && BeginsAt(m, ports, die, |ports|, l)
  {
    PairedIff(m, ports, i);
    assert Faces(m, ports[i]) && Faces(m, ports[j]);
    FacingOnce(m, ports, i, j, MirrorOf(m, ports, ports[i]));
    assert Begins(m, ports, die, i, l);
  }

  function Ends(l: Link): (int, int, int, int) {
    (l.localDie, l.localPort, l.remoteDie, l.remotePort)
  }

  function ReverseEnds(l: Link): (int, int, int, int) {
    (l.remoteDie, l.remotePort, l.localDie, l.localPort)
  }

  /** Every link has its exact reverse in the table. */
  lemma Reciprocal(m: Dies, ports: seq<Port>, l: Link) returns (r: Link)
    requires m.Valid() && Template(m, ports) && AllPaired(m, ports)
    requires m.Count() >= 0 && l in AllLinks(m, ports, m.Count())
    ensures r in AllLinks(m, ports, m.Count()) && Ends(r) == ReverseEnds(l)
  {
    InAllLinks(m, ports, m.Count(), l);
    var die :| 0 <= die < m.Count() && BeginsAt(m, ports, die, |ports|, l);
    var i :| 0 <= i < |ports| && Begins(m, ports, die, i, l);
    var q := MirrorOf(m, ports, ports[i]);
    var far := Neighbour(m, die, ports[i].dir);
    NeighbourBack(m, die, ports[i].dir);
    MirrorBack(m, ports, i);
    assert Starts(m, ports, far, q);
    assert Paired(m, ports, q);
    r := LinkFrom(m, ports, far, q);
    assert Begins(m, ports, far, q, r) && BeginsAt(m, ports, far, |ports|, r);
    InAllLinks(m, ports, m.Count(), r);
  }

  predicate Origin(l: Link, die: int, port: int) {
    l.localDie == die && l.localPort == port
  }

  ghost predicate DistinctOrigins(links: seq<Link>) {
    forall i, j :: 0 <= i < j < |links| ==> !Origin(links[j], links[i].localDie, links[i].localPort)
  }

  lemma DistinctConcat(a: seq<Link>, b: seq<Link>)
    requires DistinctOrigins(a) && DistinctOrigins(b)
    requires forall x, y :: x in a && y in b ==> !Origin(y, x.localDie, x.localPort)
    ensures DistinctOrigins(a + b)
  {
    forall i, j | 0 <= i < j < |a + b|
      ensures !Origin((a + b)[j], (a + b)[i].localDie, (a + b)[i].localPort)
    {
      if i < |a| <= j {
        assert (a + b)[i] in a && (a + b)[j] in b;
      }
    }
  }

  lemma {:induction false} DieOrigins(m: Dies, ports: seq<Port>, die: int, n: nat)
    requires m.Valid() && Template(m, ports) && n <= |ports|
    ensures DistinctOrigins(DieLinks(m, ports, die, n))
    ensures forall l :: l in DieLinks(m, ports, die, n) ==> l.localDie == die && 0 <= l.localPort < n
  {
    if n > 0 {
      DieOrigins(m, ports, die, n - 1);
      if Starts(m, ports, die, n - 1) && Paired(m, ports, n - 1) {
        DistinctConcat(DieLinks(m, ports, die, n - 1), [LinkFrom(m, ports, die, n - 1)]);
      }
    }
  }

  /** No die's port starts two links. */
  lemma {:induction false} AllOrigins(m: Dies, ports: seq<Port>, dies: nat)
    requires m.Valid() && Template(m, ports)
    ensures DistinctOrigins(AllLinks(m, ports, dies))
    ensures forall l :: l in AllLinks(m, ports, dies) ==> 0 <= l.localDie < dies
  {
    if dies > 0 {
      AllOrigins(m, ports, dies - 1);
      DieOrigins(m, ports, dies - 1, |ports|);
      DistinctConcat(AllLinks(m, ports, dies - 1), DieLinks(m, ports, dies - 1, |ports|));
    }
  }

  // ---- The construction -----------------------------------------------------------------------

  method FindMirror(m: Dies, ports: seq<Port>, p: Port) returns (i: nat)
    requires m.Valid()
    ensures i == MirrorOf(m, ports, p)
  {
    i := 0;
    while i < |ports| && !Mirrors(m, p, ports[i])
      invariant i <= |ports| && forall j :: 0 <= j < i ==> !Mirrors(m, p, ports[j])
    {
      i := i + 1;
    }
  }

  method ConnectDie(m: Dies, ports: seq<Port>, die: int, sofar: seq<Link>) returns (error: Built, links: seq<Link>)
    requires m.Valid()
    ensures error.Links? <==> forall i :: 0 <= i < |ports| && Starts(m, ports, die, i) ==> Paired(m, ports, i)
    ensures error.Links? ==> links == sofar + DieLinks(m, ports, die, |ports|)
    ensures !error.Links? ==> error == NoReciprocalPort || error == PairMismatch
  {
    links := sofar;
    for i := 0 to |ports|
      invariant links == sofar + DieLinks(m, ports, die, i)
      invariant forall j :: 0 <= j < i && Starts(m, ports, die, j) ==> Paired(m, ports, j)
    {
      var p := ports[i];
      var next := Neighbour(m, die, p.dir);
      if p.role == C2C && next >= 0 {
        var k := FindMirror(m, ports, p);
        if k == |ports| {
          assert Starts(m, ports, die, i) && !Paired(m, ports, i);
          return NoReciprocalPort, links;
        }
        if p.bw != ports[k].bw || p.latency != ports[k].latency || p.group != ports[k].group {
          assert Starts(m, ports, die, i) && !Paired(m, ports, i);
          return PairMismatch, links;
        }
        links := links + [Link(die, p.id, next, ports[k].id, p.bw, ports[k].bw, p.latency, p.group)];
      }
    }
    error := Links(links);
  }

  method OriginsUnique(links: seq<Link>) returns (unique: bool)
    ensures unique <==> DistinctOrigins(links)
  {
    var seen: set<(int, int)> := {};
    for i := 0 to |links|
      invariant DistinctOrigins(links[..i])
      invariant forall die, port :: (die, port) in seen <==> exists k :: 0 <= k < i && Origin(links[k], die, port)
    {
      var key := (links[i].localDie, links[i].localPort);
      if key in seen {
        ghost var k :| 0 <= k < i && Origin(links[k], key.0, key.1);
        assert Origin(links[i], links[k].localDie, links[k].localPort);
        return false;
      }
      seen := seen + {key};
      assert links[..i + 1] == links[..i] + [links[i]];
    }
    assert links[..|links|] == links;
    unique := true;
  }

  predicate HasEnds(links: seq<Link>, ends: (int, int, int, int)) {
    exists k :: 0 <= k < |links| && Ends(links[k]) == ends
  }

  ghost predicate AllReversed(links: seq<Link>) {
    forall i :: 0 <= i < |links| ==> HasEnds(links, ReverseEnds(links[i]))
  }

  method EndsReciprocal(links: seq<Link>) returns (reciprocal: bool)
    ensures reciprocal <==> AllReversed(links)
  {
    var ends: set<(int, int, int, int)> := {};
    for i := 0 to |links|
      invariant forall e :: e in ends <==> HasEnds(links[..i], e)
    {
      HasEndsNext(links, i);
      ends := ends + {Ends(links[i])};
    }
    assert links[..|links|] == links;
    for i := 0 to |links|
      invariant forall j :: 0 <= j < i ==> HasEnds(links, ReverseEnds(links[j]))
    {
      if ReverseEnds(links[i]) !in ends {
        return false;
      }
    }
    reciprocal := true;
  }

  lemma HasEndsNext(links: seq<Link>, i: nat)
    requires i < |links|
    ensures forall e :: HasEnds(links[..i + 1], e) <==> HasEnds(links[..i], e) || e == Ends(links[i])
  {
    forall e
      ensures HasEnds(links[..i + 1], e) <==> HasEnds(links[..i], e) || e == Ends(links[i])
    {
      if HasEnds(links[..i], e) {
        var k :| 0 <= k < i && Ends(links[..i][k]) == e;
        assert links[..i + 1][k] == links[..i][k];
      }
      assert links[..i + 1][i] == links[i];
    }
  }

  /**
   * On a valid template only the mirror search can fail: when it succeeds everywhere the table holds exactly
   * one link for each die and port with a neighbour, and both final checks pass.
   */
  method BuildLinks(m: Dies, ports: seq<Port>) returns (built: Built)
    requires m.Valid() && Template(m, ports)
    ensures m.Count() >= 0
    ensures built.Links? <==> AllPaired(m, ports)
    ensures built.Links? ==> built.links == AllLinks(m, ports, m.Count())
    ensures built != EndpointReused && built != NotReciprocal
  {
    MulMono(0, m.dieX, m.dieY);
    var links: seq<Link> := [];
    for die := 0 to m.Count()
      invariant links == AllLinks(m, ports, die)
      invariant forall d, i :: 0 <= d < die && 0 <= i < |ports| && Starts(m, ports, d, i) ==> Paired(m, ports, i)
    {
      var error;
      error, links := ConnectDie(m, ports, die, links);
      if !error.Links? {
        return error;
      }
    }
    AllOrigins(m, ports, m.Count());
    var unique := OriginsUnique(links);
    if !unique {
      return EndpointReused;
    }
    TableReversed(m, ports);
    var reciprocal := EndsReciprocal(links);
    if !reciprocal {
      return NotReciprocal;
    }
    built := Links(links);
  }

  lemma TableReversed(m: Dies, ports: seq<Port>)
    requires m.Valid() && Template(m, ports) && AllPaired(m, ports) && m.Count() >= 0
    ensures AllReversed(AllLinks(m, ports, m.Count()))
  {
    var links := AllLinks(m, ports, m.Count());
    forall i | 0 <= i < |links|
      ensures HasEnds(links, ReverseEnds(links[i]))
    {
      var r := Reciprocal(m, ports, links[i]);
      var k :| 0 <= k < |links| && links[k] == r;
    }
  }
}
