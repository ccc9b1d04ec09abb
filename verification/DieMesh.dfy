/** The mesh of dies: directions, neighbours and dimension-ordered routes. */
module DieMesh {
  import opened Basics

  datatype Direction = WEST | EAST | NORTH | SOUTH | CENTER

  /** Dies in a row and a column, and tiles in a row and a column of each die. */
  datatype Dies = Dies(dieX: int, dieY: int, gridX: int, gridY: int) {
    predicate Valid() {
      dieX > 0 && dieY > 0 && gridX > 0 && gridY > 0
    }
    function Count(): int {
      dieX * dieY
    }
    predicate Has(die: int) {
      0 <= die < Count()
    }
    function X(die: int): int
      requires Valid()
    {
      die % dieX
    }
    function Y(die: int): int
      requires Valid()
    {
      die / dieX
    }
  }

  function Opposite(d: Direction): Direction {
    match d
    case NORTH => SOUTH
    case SOUTH => NORTH
    case EAST => WEST
    case WEST => EAST
    case CENTER => CENTER
  }

  /** Towards the destination, first along the row, then along the column. */
  function FirstHop(m: Dies, at: int, dest: int): Direction
    requires m.Valid()
  {
    if m.X(dest) != m.X(at) then if m.X(dest) > m.X(at) then EAST else WEST
    else if m.Y(dest) != m.Y(at) then if m.Y(dest) > m.Y(at) then NORTH else SOUTH
    else CENTER
  }

  function Distance(a: int, b: int): nat {
    if a > b then a - b else b - a
  }

  function Manhattan(m: Dies, a: int, b: int): nat
    requires m.Valid()
  {
    Distance(m.X(a), m.X(b)) + Distance(m.Y(a), m.Y(b))
  }

  function MoveX(x: int, d: Direction): int {
    if d == EAST then x + 1 else if d == WEST then x - 1 else x
  }

  function MoveY(y: int, d: Direction): int {
    if d == NORTH then y + 1 else if d == SOUTH then y - 1 else y
  }

  /** The die next door, or -1 at the edge of the mesh and for no direction. */
  function Neighbour(m: Dies, die: int, d: Direction): int
    requires m.Valid()
  {
    var x, y := MoveX(m.X(die), d), MoveY(m.Y(die), d);
    if d == CENTER || x < 0 || x >= m.dieX || y < 0 || y >= m.dieY then -1 else y * m.dieX + x
  }

  lemma Coordinates(m: Dies, x: int, y: int)
    requires m.Valid() && 0 <= x < m.dieX && 0 <= y < m.dieY
    ensures m.Has(y * m.dieX + x) && m.X(y * m.dieX + x) == x && m.Y(y * m.dieX + x) == y
  {
    assert (y + 1) * m.dieX <= m.dieY * m.dieX by { MulMono(y + 1, m.dieY, m.dieX); }
    assert (y + 1) * m.dieX == y * m.dieX + m.dieX;
    MulMono(0, y, m.dieX);
    DivUnique(y * m.dieX + x, m.dieX, y, x);
  }

  lemma Inside(m: Dies, die: int)
    requires m.Valid() && m.Has(die)
    ensures 0 <= m.X(die) < m.dieX && 0 <= m.Y(die) < m.dieY
    ensures die == m.Y(die) * m.dieX + m.X(die)
  {
    OneMore(m.Y(die), m.dieX);
    if m.Y(die) >= m.dieY {
      MulMono(m.dieY, m.Y(die), m.dieX);
    } else if m.Y(die) < 0 {
      MulMono(m.Y(die) + 1, 0, m.dieX);
    }
  }

  lemma NeighbourCoordinates(m: Dies, die: int, d: Direction)
    requires m.Valid() && m.Has(die) && Neighbour(m, die, d) != -1
    ensures var n := Neighbour(m, die, d);
            d != CENTER && m.Has(n) && n >= 0 && m.X(n) == MoveX(m.X(die), d) && m.Y(n) == MoveY(m.Y(die), d)
  {
    var x, y := MoveX(m.X(die), d), MoveY(m.Y(die), d);
    if 0 <= x < m.dieX && 0 <= y < m.dieY {
      Coordinates(m, x, y);
    }
  }

  /** Going one way and coming back returns to the same die. */
  lemma NeighbourBack(m: Dies, die: int, d: Direction)
    requires m.Valid() && m.Has(die) && Neighbour(m, die, d) != -1
    ensures m.Has(Neighbour(m, die, d)) && Neighbour(m, Neighbour(m, die, d), Opposite(d)) == die
  {
    NeighbourCoordinates(m, die, d);
    Inside(m, die);
  }

  /** The first hop exists and brings the destination one step nearer. */
  lemma HopNearer(m: Dies, at: int, dest: int)
    requires m.Valid() && m.Has(at) && m.Has(dest) && at != dest
    ensures var n := Neighbour(m, at, FirstHop(m, at, dest));
            n != -1 && m.Has(n) && Manhattan(m, n, dest) + 1 == Manhattan(m, at, dest)
  {
    Inside(m, at);
    Inside(m, dest);
    assert FirstHop(m, at, dest) != CENTER;
    var d := FirstHop(m, at, dest);
    Coordinates(m, MoveX(m.X(at), d), MoveY(m.Y(at), d));
  }

  /** The dies of a dimension-ordered route, both ends included. */
  function DiePath(m: Dies, at: int, dest: int): (p: seq<int>)
    requires m.Valid() && m.Has(at) && m.Has(dest)
    ensures p != [] && p[0] == at
    decreases Manhattan(m, at, dest)
  {
    if at == dest then [at]
    else
      HopNearer(m, at, dest);
      [at] + DiePath(m, Neighbour(m, at, FirstHop(m, at, dest)), dest)
  }

  /** It takes as many hops as the Manhattan distance, each nearer than the last, so no die is visited twice. */
  lemma {:induction false} DiePathExact(m: Dies, at: int, dest: int)
    requires m.Valid() && m.Has(at) && m.Has(dest)
    ensures var p := DiePath(m, at, dest);
            && |p| == Manhattan(m, at, dest) + 1 && p[|p| - 1] == dest
            && (forall i :: 0 <= i < |p| ==> m.Has(p[i]) && Manhattan(m, p[i], dest) == |p| - 1 - i)
    decreases Manhattan(m, at, dest)
  {
    if at != dest {
      HopNearer(m, at, dest);
      DiePathExact(m, Neighbour(m, at, FirstHop(m, at, dest)), dest);
    }
  }

  ghost predicate Simple(dies: seq<int>) {
    forall i, j :: 0 <= i < j < |dies| ==> dies[i] != dies[j]
  }

  lemma DiePathSimple(m: Dies, at: int, dest: int)
    requires m.Valid() && m.Has(at) && m.Has(dest)
    ensures Simple(DiePath(m, at, dest))
  {
    DiePathExact(m, at, dest);
    var p := DiePath(m, at, dest);
    forall i, j | 0 <= i < j < |p|
      ensures p[i] != p[j]
    {
      assert Manhattan(m, p[i], dest) == |p| - 1 - i && Manhattan(m, p[j], dest) == |p| - 1 - j;
    }
  }

  /** A step changes the row or the column by one, and only that. */
  lemma HopShape(m: Dies, at: int, dest: int)
    requires m.Valid() && m.Has(at) && m.Has(dest) && at != dest
    ensures var n := Neighbour(m, at, FirstHop(m, at, dest));
            && m.Has(n)
            && (m.X(at) != m.X(dest) ==>
                  m.Y(n) == m.Y(at) && Distance(m.X(n), m.X(dest)) == Distance(m.X(at), m.X(dest)) - 1)
            && (m.X(at) == m.X(dest) ==> m.X(n) == m.X(at))
  {
    HopNearer(m, at, dest);
    NeighbourCoordinates(m, at, FirstHop(m, at, dest));
  }

  /** The route runs along its own row until it has reached the destination's column, and then along that column. */
  lemma {:induction false} RowThenColumn(m: Dies, at: int, dest: int, k: nat)
    requires m.Valid() && m.Has(at) && m.Has(dest) && k < |DiePath(m, at, dest)|
    ensures var die, across := DiePath(m, at, dest)[k], Distance(m.X(at), m.X(dest));
            && (k <= across ==> m.Y(die) == m.Y(at) && Distance(m.X(die), m.X(dest)) == across - k)
            && (k >= across ==> m.X(die) == m.X(dest))
    decreases k
  {
    if k > 0 {
      var n := Neighbour(m, at, FirstHop(m, at, dest));
      HopShape(m, at, dest);
      RowThenColumn(m, n, dest, k - 1);
    }
  }

  /** East is the next die of the row, north the die a row's length on; at the edge there is none. */
  lemma NeighbourIs(m: Dies, die: int)
    requires m.Valid() && m.Has(die)
    ensures Neighbour(m, die, EAST) == if m.X(die) + 1 < m.dieX then die + 1 else -1
    ensures Neighbour(m, die, WEST) == if m.X(die) > 0 then die - 1 else -1
    ensures Neighbour(m, die, NORTH) == if m.Y(die) + 1 < m.dieY then die + m.dieX else -1
    ensures Neighbour(m, die, SOUTH) == if m.Y(die) > 0 then die - m.dieX else -1
  {
    Inside(m, die);
    OneMore(m.Y(die), m.dieX);
    OneMore(m.Y(die) - 1, m.dieX);
  }
}
