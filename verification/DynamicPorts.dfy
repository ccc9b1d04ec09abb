/** Dynamic exit selection: each flow pins the least loaded port of a direction until it is released. */
module DynamicPorts {
  import opened Basics
  import opened FlowLedger
  import opened DieMesh

  datatype PinKey = PinKey(die: int, dir: Direction, flow: FlowKey)

  /** A port of a die; the ports of each direction, in selection order, are fixed for the run. */
  type Place = (int, int)

  datatype Exits = Exits(dies: nat, west: seq<int>, east: seq<int>, north: seq<int>, south: seq<int>) {
    function For(d: Direction): seq<int> {
      match d
      case WEST => west
      case EAST => east
      case NORTH => north
      case SOUTH => south
      case CENTER => []
    }

    /** Each port serves one direction. */
    ghost predicate Valid() {
      forall d, e, p :: p in For(d) && p in For(e) ==> d == e
    }
  }

  datatype Books = Books(pins: map<PinKey, int>, loads: map<Place, int>, selections: nat, releases: nat)

  function Load(b: Books, die: int, port: int): int {
    if (die, port) in b.loads then b.loads[(die, port)] else 0
  }

  /** The flows pinned to one port of one die. */
  function PinnedTo(pins: map<PinKey, int>, die: int, port: int): set<PinKey> {
    set k | k in pins && k.die == die && pins[k] == port
  }

  predicate OnExit(x: Exits, k: PinKey, port: int) {
    port in x.For(k.dir) && 0 <= k.die < x.dies
  }

  /** Loads count live pins, in total as well as port by port, and every pin is on a port of its direction. */
  ghost predicate Valid(x: Exits, b: Books) {
    && AllCounted(b)
    && (forall k :: k in b.pins ==> OnExit(x, k, b.pins[k]))
    && Totalled(b)
  }

  ghost predicate LeastLoaded(b: Books, die: int, ports: seq<int>, port: int) {
    port in ports && forall p :: p in ports ==> Load(b, die, port) <= Load(b, die, p)
  }

  function Turn(ports: seq<int>, start: nat, off: nat): int
    requires ports != []
  {
    ports[(start + off) % |ports|]
  }

  /** None of the first `off` ports of the turn is as little loaded. */
  ghost predicate Passed(b: Books, die: int, ports: seq<int>, start: nat, off: nat, load: int)
    requires ports != []
  {
    forall o :: 0 <= o < off ==> Load(b, die, Turn(ports, start, o)) > load
  }

  /** From `start` on, wrapping, the first port whose load is the least. */
  ghost predicate Chosen(b: Books, die: int, ports: seq<int>, start: nat, port: int)
    requires ports != []
  {
    && LeastLoaded(b, die, ports, port)
    && exists off :: 0 <= off < |ports| && Turn(ports, start, off) == port
        && Passed(b, die, ports, start, off, Load(b, die, port))
  }

  function Pinned(b: Books, k: PinKey, port: int): Books {
    Books(b.pins[k := port], b.loads[(k.die, port) := Load(b, k.die, port) + 1], b.selections + 1, b.releases)
  }

  function Freed(b: Books, k: PinKey): Books
    requires k in b.pins
  {
    Books(b.pins - {k}, b.loads[(k.die, b.pins[k]) := Load(b, k.die, b.pins[k]) - 1], b.selections, b.releases + 1)
  }

  lemma SumSet(m: map<Place, int>, k: Place, v: int)
    ensures Sum(m[k := v]) == Sum(m) + v - if k in m then m[k] else 0
  {
    if k in m {
      SumUpdate(m, k, v);
    } else {
      SumAdd(m, k, v);
    }
  }

  ghost predicate Counted(b: Books, die: int, port: int) {
    Load(b, die, port) == |PinnedTo(b.pins, die, port)|
  }

  lemma PinnedCounted(b: Books, k: PinKey, port: int, die: int, p: int)
    requires k !in b.pins && Counted(b, die, p)
    ensures Counted(Pinned(b, k, port), die, p)
  {
    var was, now := PinnedTo(b.pins, die, p), PinnedTo(Pinned(b, k, port).pins, die, p);
    if die == k.die && p == port {
      assert now == was + {k};
    } else {
      assert now == was;
    }
  }

  lemma FreedCounted(b: Books, k: PinKey, die: int, p: int)
    requires k in b.pins && Counted(b, die, p)
    ensures Counted(Freed(b, k), die, p)
  {
    var was, now := PinnedTo(b.pins, die, p), PinnedTo(Freed(b, k).pins, die, p);
    if die == k.die && p == b.pins[k] {
      assert now == was - {k};
      assert k in was;
    } else {
      assert now == was;
    }
  }

  lemma PinCount(pins: map<PinKey, int>, k: PinKey, port: int)
    ensures k !in pins ==> |pins[k := port]| == |pins| + 1
    ensures k in pins ==> |pins - {k}| == |pins| - 1
  {
    assert |pins| == |pins.Keys|;
    if k in pins {
      assert (pins - {k}).Keys == pins.Keys - {k};
      assert |pins - {k}| == |(pins - {k}).Keys|;
    } else {
      assert pins[k := port].Keys == pins.Keys + {k};
      assert |pins[k := port]| == |pins[k := port].Keys|;
    }
  }

  ghost predicate AllCounted(b: Books) {
    forall die, port :: Counted(b, die, port)
  }

  lemma PinnedAllCounted(b: Books, k: PinKey, port: int)
    requires AllCounted(b) && k !in b.pins
    ensures AllCounted(Pinned(b, k, port))
  {
    forall die, p
      ensures Counted(Pinned(b, k, port), die, p)
    {
      assert Counted(b, die, p);
      PinnedCounted(b, k, port, die, p);
    }
  }

  lemma FreedAllCounted(b: Books, k: PinKey)
    requires AllCounted(b) && k in b.pins
    ensures Load(b, k.die, b.pins[k]) > 0 && AllCounted(Freed(b, k))
  {
    assert Counted(b, k.die, b.pins[k]) && k in PinnedTo(b.pins, k.die, b.pins[k]);
    forall die, p
      ensures Counted(Freed(b, k), die, p)
    {
      assert Counted(b, die, p);
      FreedCounted(b, k, die, p);
    }
  }

  ghost predicate Totalled(b: Books) {
    Sum(b.loads) == |b.pins| == b.selections - b.releases
  }

  lemma PinnedTotalled(b: Books, k: PinKey, port: int)
    requires Totalled(b) && k !in b.pins
    ensures Totalled(Pinned(b, k, port))
  {
    SumSet(b.loads, (k.die, port), Load(b, k.die, port) + 1);
    PinCount(b.pins, k, port);
  }

  lemma FreedTotalled(b: Books, k: PinKey)
    requires Totalled(b) && k in b.pins
    ensures Totalled(Freed(b, k))
  {
    SumSet(b.loads, (k.die, b.pins[k]), Load(b, k.die, b.pins[k]) - 1);
    PinCount(b.pins, k, 0);
  }

  lemma PinnedKeepsValid(x: Exits, b: Books, k: PinKey, port: int)
    requires Valid(x, b) && k !in b.pins && OnExit(x, k, port)
    ensures Valid(x, Pinned(b, k, port))
  {
    PinnedTotalled(b, k, port);
    PinnedAllCounted(b, k, port);
  }

  lemma FreedKeepsValid(x: Exits, b: Books, k: PinKey)
    requires Valid(x, b) && k in b.pins
    ensures Load(b, k.die, b.pins[k]) > 0 && Valid(x, Freed(b, k))
  {
    FreedTotalled(b, k);
    FreedAllCounted(b, k);
  }

  datatype ReleaseStatus = Released | IllegalDirection | NoActivePin | Underflow | DirectionMismatch

  class DynamicPortTable {
    const exits: Exits
    var pins: map<PinKey, int>
    var loads: map<Place, int>
    var selections: nat
    var releases: nat

    ghost function Abs(): Books
      reads this
    {
      Books(pins, loads, selections, releases)
    }

    constructor (x: Exits)
      ensures exits == x && Abs() == Books(map[], map[], 0, 0) && Valid(x, Abs())
    {
      exits, pins, loads, selections, releases := x, map[], map[], 0, 0;
    }

    function LoadOf(die: int, port: int): (n: int)
      reads this
      ensures n == Load(Abs(), die, port)
    {
      if (die, port) in loads then loads[(die, port)] else 0
    }

    /** `start` is the flow's stable hash over the ports. An existing pin is returned unchanged. */
    method SelectPort(die: int, dir: Direction, flow: FlowKey, start: nat) returns (port: int)
      requires Valid(exits, Abs()) && 0 <= die < exits.dies
      modifies this
      ensures Valid(exits, Abs())
      ensures exits.For(dir) == [] ==> port == -1 && Abs() == old(Abs())
      ensures exits.For(dir) != [] && PinKey(die, dir, flow) in old(pins) ==>
                port == old(pins)[PinKey(die, dir, flow)] && Abs() == old(Abs())
      ensures exits.For(dir) != [] && PinKey(die, dir, flow) !in old(pins) ==>
                && Chosen(old(Abs()), die, exits.For(dir), start, port)
                && Abs() == Pinned(old(Abs()), PinKey(die, dir, flow), port)
    {
      var ports := exits.For(dir);
      if ports == [] {
        return -1;
      }
      var key := PinKey(die, dir, flow);
      if key in pins {
        return pins[key];
      }
      var best := BestLoad(die, ports);
      port := FirstAt(die, ports, start, best);
      PinnedKeepsValid(exits, Abs(), key, port);
      Record(key, port);
    }

    method Record(key: PinKey, port: int)
      modifies this
      ensures Abs() == Pinned(old(Abs()), key, port)
    {
      pins := pins[key := port];
      loads := loads[(key.die, port) := LoadOf(key.die, port) + 1];
      selections := selections + 1;
    }

    method Erase(key: PinKey)
      requires key in pins
      modifies this
      ensures Abs() == Freed(old(Abs()), key)
    {
      loads := loads[(key.die, pins[key]) := LoadOf(key.die, pins[key]) - 1];
      pins := pins - {key};
      releases := releases + 1;
    }

    method BestLoad(die: int, ports: seq<int>) returns (best: int)
      requires ports != []
      ensures exists p :: p in ports && best == LoadOf(die, p)
      ensures forall p :: p in ports ==> best <= LoadOf(die, p)
    {
      best := LoadOf(die, ports[0]);
      for i := 1 to |ports|
        invariant exists p :: p in ports && best == LoadOf(die, p)
        invariant forall j :: 0 <= j < i ==> best <= LoadOf(die, ports[j])
      {
        if LoadOf(die, ports[i]) < best {
          best := LoadOf(die, ports[i]);
        }
      }
    }

    method FirstAt(die: int, ports: seq<int>, start: nat, best: int) returns (port: int)
      requires ports != [] && exists p :: p in ports && best == LoadOf(die, p)
      requires forall p :: p in ports ==> best <= LoadOf(die, p)
      ensures Chosen(Abs(), die, ports, start, port)
    {
      ghost var p :| p in ports && best == LoadOf(die, p);
      ghost var last := Rotation(ports, start, p);
      var off := 0;
      port := Turn(ports, start, off);
      while LoadOf(die, port) != best
        invariant off <= last && port == Turn(ports, start, off) && Passed(Abs(), die, ports, start, off, best)
        decreases last - off
      {
        off := off + 1;
        port := Turn(ports, start, off);
      }
      assert Passed(Abs(), die, ports, start, off, Load(Abs(), die, port));
    }

    /** A release needs a live pin; the underflow and mismatch the source guards against cannot happen. */
    method ReleasePort(die: int, dir: Direction, flow: FlowKey) returns (status: ReleaseStatus)
      requires Valid(exits, Abs()) && exits.Valid()
      modifies this
      ensures Valid(exits, Abs())
      ensures status == if die < 0 || die >= exits.dies || dir == CENTER then IllegalDirection
                        else if PinKey(die, dir, flow) in old(pins) then Released else NoActivePin
      ensures Abs() == if status == Released then Freed(old(Abs()), PinKey(die, dir, flow)) else old(Abs())
    {
      if die < 0 || die >= exits.dies || dir == CENTER {
        return IllegalDirection;
      }
      var key := PinKey(die, dir, flow);
      if key !in pins {
        return NoActivePin;
      }
      var port := pins[key];
      FreedKeepsValid(exits, Abs(), key);
      if LoadOf(die, port) <= 0 {
        return Underflow;
      }
      if port !in exits.For(dir) {
        return DirectionMismatch;
      }
      Erase(key);
      status := Released;
    }
  }

  /** Every port comes up once in a full turn from any start. */
  lemma Rotation(ports: seq<int>, start: nat, p: int) returns (off: nat)
    requires p in ports
    ensures off < |ports| && Turn(ports, start, off) == p
  {
    var i :| 0 <= i < |ports| && ports[i] == p;
    var n, s := |ports|, start % |ports|;
    off := if i >= s then i - s else i - s + n;
    assert start == start / n * n + s;
    var turns := start / n + if i >= s then 0 else 1;
    assert turns * n == start / n * n + if i >= s then 0 else n;
    DivUnique(start + off, n, turns, i);
  }

  // ---- Balance --------------------------------------------------------------------------------

  /** Loads within one direction of one die differ by at most one. */
  ghost predicate Balanced(b: Books, die: int, ports: seq<int>) {
    forall p, q :: p in ports && q in ports ==> Load(b, die, p) <= Load(b, die, q) + 1
  }

  ghost predicate AllBalanced(x: Exits, b: Books) {
    forall die, dir :: Balanced(b, die, x.For(dir))
  }

  /** The books after a run of first-time selections. */
  function PinAll(b: Books, run: seq<(PinKey, int)>): Books {
    if run == [] then b else Pinned(PinAll(b, run[..|run| - 1]), run[|run| - 1].0, run[|run| - 1].1)
  }

  /** Each took a least loaded port of its direction. */
  ghost predicate EachLeast(x: Exits, b: Books, run: seq<(PinKey, int)>) {
    run != [] ==>
      var before, last := run[..|run| - 1], run[|run| - 1];
      EachLeast(x, b, before) && LeastLoaded(PinAll(b, before), last.0.die, x.For(last.0.dir), last.1)
  }

  lemma SelectionBalances(x: Exits, b: Books, k: PinKey, port: int)
    requires x.Valid() && AllBalanced(x, b) && LeastLoaded(b, k.die, x.For(k.dir), port)
    ensures AllBalanced(x, Pinned(b, k, port))
  {
    var b' := Pinned(b, k, port);
    forall die, dir
      ensures Balanced(b', die, x.For(dir))
    {
      assert Balanced(b, die, x.For(dir));
      forall p, q | p in x.For(dir) && q in x.For(dir)
        ensures Load(b', die, p) <= Load(b', die, q) + 1
      {
        if die == k.die && p == port {
          assert dir == k.dir;
        }
      }
    }
  }

  /** Without releases, dynamic selection keeps every direction of every die balanced. */
  lemma {:induction false} SelectionsStayBalanced(x: Exits, b: Books, run: seq<(PinKey, int)>)
    requires x.Valid() && AllBalanced(x, b) && EachLeast(x, b, run)
    ensures AllBalanced(x, PinAll(b, run))
  {
    if run != [] {
      var before, last := run[..|run| - 1], run[|run| - 1];
      SelectionsStayBalanced(x, b, before);
      SelectionBalances(x, PinAll(b, before), last.0, last.1);
    }
  }
}
