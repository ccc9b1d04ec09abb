/** The multicast tree check: a depth-first search that accepts exactly the acyclic, covering route tables. */
module TreeValidator {
  import opened DieMesh

  datatype TreeKey = TreeKey(tree: int, router: int, ingress: Direction)

  /** Programmed outputs of every router entry; a set of directions is the source's output bit map. */
  type Table = map<TreeKey, set<Direction>>

  datatype Mesh = Mesh(gridX: int, total: int)

  const U16 := 0x1_0000

  /** The id the source computes for a step; a step east from the last column lands in the next row. */
  function Step(m: Mesh, router: int, d: Direction): int {
    match d
    case WEST => router - 1
    case EAST => router + 1
    case NORTH => router + m.gridX
    case SOUTH => router - m.gridX
    case CENTER => router
  }

  predicate OnMesh(m: Mesh, next: int) {
    0 <= next < m.total
  }

  /** Some entry of the tree at this router, among those in `done`, has this output. */
  ghost predicate OutputIn(table: Table, tree: int, done: set<TreeKey>, router: int, d: Direction) {
    exists k :: k in done && k in table && k.tree == tree && k.router == router && d in table[k]
  }

  ghost predicate LeavesIn(m: Mesh, table: Table, tree: int, done: set<TreeKey>) {
    exists router, d :: OutputIn(table, tree, done, router, d) && d != CENTER && !OnMesh(m, Step(m, router, d))
  }

  ghost predicate EdgeIn(m: Mesh, table: Table, tree: int, done: set<TreeKey>, a: int, b: int) {
    exists d :: OutputIn(table, tree, done, a, d) && d != CENTER && b == Step(m, a, d) % U16
  }

  ghost predicate Outputs(table: Table, tree: int, router: int, d: Direction) {
    OutputIn(table, tree, table.Keys, router, d)
  }

  ghost predicate LeavesMesh(m: Mesh, table: Table, tree: int) {
    LeavesIn(m, table, tree, table.Keys)
  }

  ghost predicate Edge(m: Mesh, table: Table, tree: int, a: int, b: int) {
    EdgeIn(m, table, tree, table.Keys, a, b)
  }

  // ---- Graphs ---------------------------------------------------------------------------------

  type Graph = map<int, seq<int>>

  function Next(g: Graph, n: int): seq<int> {
    if n in g then g[n] else []
  }

  ghost predicate Path(g: Graph, p: seq<int>) {
    p != [] && forall i :: 0 < i < |p| ==> p[i] in Next(g, p[i - 1])
  }

  ghost predicate Joins(g: Graph, p: seq<int>, a: int, b: int) {
    Path(g, p) && p[0] == a && p[|p| - 1] == b
  }

  ghost predicate Reaches(g: Graph, a: int, b: int) {
    exists p :: Joins(g, p, a, b)
  }

  /** Reaches by at least one edge. */
  ghost predicate Precedes(g: Graph, a: int, b: int) {
    exists p :: |p| > 1 && Joins(g, p, a, b)
  }

  ghost predicate CycleFrom(g: Graph, root: int) {
    exists n :: Reaches(g, root, n) && Precedes(g, n, n)
  }

  ghost predicate Closed(g: Graph, s: set<int>) {
    forall n, c :: n in s && c in Next(g, n) ==> c in s
  }

  ghost predicate Acyclic(g: Graph, s: set<int>) {
    forall n :: n in s ==> !Precedes(g, n, n)
  }

  lemma ReachesSelf(g: Graph, a: int)
    ensures Reaches(g, a, a)
  {
    assert Joins(g, [a], a, a);
  }

  lemma StepOn(g: Graph, a: int, b: int, c: int)
    requires Reaches(g, a, b) && c in Next(g, b)
    ensures Reaches(g, a, c) && Precedes(g, a, c)
  {
    var p :| Joins(g, p, a, b);
    assert Joins(g, p + [c], a, c);
  }

  lemma PrecedesReaches(g: Graph, a: int, b: int)
    requires Precedes(g, a, b)
    ensures Reaches(g, a, b)
  {
  }

  lemma {:induction false} StaysInside(g: Graph, s: set<int>, p: seq<int>, i: nat)
    requires Closed(g, s) && Path(g, p) && p[0] in s && i < |p|
    ensures p[i] in s
  {
    if i > 0 {
      StaysInside(g, s, p, i - 1);
      ClosedStep(g, s, p[i - 1], p[i]);
    }
  }

  lemma ClosedStep(g: Graph, s: set<int>, n: int, c: int)
    requires Closed(g, s) && n in s && c in Next(g, n)
    ensures c in s
  {
  }

  /** A node outside an acyclic closed set, all of whose successors are inside, is on no cycle. */
  lemma NoNewCycle(g: Graph, s: set<int>, n: int)
    requires Closed(g, s) && n !in s && forall c :: c in Next(g, n) ==> c in s
    ensures !Precedes(g, n, n)
  {
    if Precedes(g, n, n) {
      var p :| |p| > 1 && Joins(g, p, n, n);
      TailPath(g, p);
      var c := p[1];
      assert c in Next(g, n) && c in s;
      StaysInside(g, s, p[1..], |p[1..]| - 1);
    }
  }

  lemma TailPath(g: Graph, p: seq<int>)
    requires Path(g, p) && |p| > 1
    ensures Path(g, p[1..]) && p[1] in Next(g, p[0])
  {
    var q := p[1..];
    forall i | 0 < i < |q|
      ensures q[i] in Next(g, q[i - 1])
    {
      var j := i + 1;
      assert q[i] == p[j] && q[i - 1] == p[j - 1];
      assert p[j] in Next(g, p[j - 1]);
    }
    var one := 1;
    assert p[one] in Next(g, p[one - 1]);
  }

  /** All nodes the graph mentions. */
  function Nodes(g: Graph, root: int): set<int> {
    {root} + g.Keys + set n, c | n in g && c in g[n] :: c
  }

  class Validator {
    const g: Graph
    var visiting: set<int>
    var visited: set<int>

    constructor (graph: Graph)
      ensures g == graph && visiting == {} && visited == {}
    {
      g, visiting, visited := graph, {}, {};
    }

    /** Finished nodes are reachable, closed under edges and on no cycle. */
    ghost predicate Searching(root: int)
      reads this
    {
      && visiting + visited <= Nodes(g, root) && visiting !! visited
      && Closed(g, visited) && Acyclic(g, visited)
      && (forall v :: v in visited ==> Reaches(g, root, v))
    }

    /** Nodes in progress lie above the one about to be entered. */
    ghost predicate Above(s: set<int>, node: int) {
      forall v :: v in s ==> Precedes(g, v, node)
    }

    /** Returns false where the source throws: the search has come back to a node in progress. */
    method Dfs(node: int, ghost root: int) returns (ok: bool)
      requires node in Nodes(g, root) && Reaches(g, root, node) && Searching(root) && Above(visiting, node)
      modifies this
      ensures !ok ==> CycleFrom(g, root)
      ensures ok ==> Searching(root) && visiting == old(visiting) && old(visited) <= visited && node in visited
      decreases Nodes(g, root) - visited - visiting, 0
    {
      if node in visiting {
        MeetsItself(root, node);
        return false;
      }
      if node in visited {
        return true;
      }
      ghost var before := visiting;
      visiting := visiting + {node};
      ok := VisitChildren(node, root, before);
      if ok {
        Finish(node, root);
        assert visiting == before;
      }
    }

    method VisitChildren(node: int, ghost root: int, ghost before: set<int>) returns (ok: bool)
      requires Reaches(g, root, node) && Searching(root) && visiting == before + {node} && Above(before, node)
      modifies this
      ensures !ok ==> CycleFrom(g, root)
      ensures ok ==> Searching(root) && visiting == old(visiting) && old(visited) <= visited
      ensures ok ==> forall c :: c in Next(g, node) ==> c in visited
      decreases Nodes(g, root) - visited - visiting, 1
    {
      var children := Next(g, node);
      AboveChildren(before, node);
      for i := 0 to |children|
        invariant Searching(root) && visiting == old(visiting) && old(visited) <= visited
        invariant forall j :: 0 <= j < i ==> children[j] in visited
      {
        var child := children[i];
        ChildIsNode(g, root, node, child);
        StepOn(g, root, node, child);
        assert child in Next(g, node);
        ok := Dfs(child, root);
        if !ok {
          return;
        }
      }
      ok := true;
    }

    lemma MeetsItself(root: int, node: int)
      requires Reaches(g, root, node) && Precedes(g, node, node)
      ensures CycleFrom(g, root)
    {
    }

    lemma AboveChildren(s: set<int>, node: int)
      requires Above(s, node)
      ensures forall c :: c in Next(g, node) ==> Above(s + {node}, c)
    {
      forall c | c in Next(g, node)
        ensures Above(s + {node}, c)
      {
        AboveChild(s, node, c);
      }
    }

    method Finish(node: int, ghost root: int)
      requires Searching(root) && node in visiting && Reaches(g, root, node)
      requires forall c :: c in Next(g, node) ==> c in visited
      modifies this
      ensures Searching(root) && visiting == old(visiting) - {node} && visited == old(visited) + {node}
    {
      NoNewCycle(g, visited, node);
      visiting, visited := visiting - {node}, visited + {node};
    }

    lemma AboveChild(s: set<int>, node: int, child: int)
      requires Above(s, node) && child in Next(g, node)
      ensures Above(s + {node}, child)
    {
      forall v | v in s + {node}
        ensures Precedes(g, v, child)
      {
        if v == node {
          ReachesSelf(g, node);
        } else {
          PrecedesReaches(g, v, node);
        }
        StepOn(g, v, node, child);
      }
    }
  }

  lemma ChildIsNode(g: Graph, root: int, n: int, c: int)
    requires c in Next(g, n)
    ensures c in Nodes(g, root)
  {
  }

  lemma {:induction false} ReachedInside(g: Graph, s: set<int>, a: int, b: int)
    requires Closed(g, s) && a in s && Reaches(g, a, b)
    ensures b in s
  {
    var p :| Joins(g, p, a, b);
    StaysInside(g, s, p, |p| - 1);
  }

  // ---- The whole check ------------------------------------------------------------------------

  datatype Verdict = Valid | EdgeLeavesMesh | Cycle | NotCovered

  ghost predicate GraphOf(m: Mesh, table: Table, tree: int, g: Graph) {
    forall a, b :: b in Next(g, a) <==> Edge(m, table, tree, a, b)
  }

  ghost predicate Covers(g: Graph, table: Table, tree: int, root: int, targets: seq<int>) {
    forall t :: t in targets && t != root ==> Reaches(g, root, t) && Outputs(table, tree, t, CENTER)
  }

  const DIRECTIONS: seq<Direction> := [WEST, EAST, NORTH, SOUTH, CENTER]

  /** Exactly the edges and deliveries of the entries in `done` have been collected, and none leaves the mesh. */
  ghost predicate Collected(m: Mesh, table: Table, tree: int, done: set<TreeKey>, edges: Graph, delivered: set<int>) {
    && !LeavesIn(m, table, tree, done)
    && (forall a, b :: b in Next(edges, a) <==> EdgeIn(m, table, tree, done, a, b))
    && (forall r :: r in delivered <==> OutputIn(table, tree, done, r, CENTER))
  }

  ghost predicate Alike(table: Table, done: set<TreeKey>, table': Table, done': set<TreeKey>, tree: int) {
    forall r, x :: OutputIn(table', tree, done', r, x) <==> OutputIn(table, tree, done, r, x)
  }

  /** The second reading has just this output more. */
  ghost predicate Extended(table: Table, done: set<TreeKey>, table': Table, done': set<TreeKey>, tree: int,
          router: int, d: Direction)
  {
    forall r, x :: OutputIn(table', tree, done', r, x) <==> OutputIn(table, tree, done, r, x) || (r == router && x == d)
  }

  lemma SameOutputs(m: Mesh, table: Table, tree: int, done: set<TreeKey>, table': Table, done': set<TreeKey>,
                    edges: Graph, delivered: set<int>)
    requires Collected(m, table, tree, done, edges, delivered)
    requires Alike(table, done, table', done', tree)
    ensures Collected(m, table', tree, done', edges, delivered)
  {
    forall a, b
      ensures EdgeIn(m, table', tree, done', a, b) <==> EdgeIn(m, table, tree, done, a, b)
    {
    }
  }

  function Listed(edges: Graph, router: int, next: int): Graph {
    edges[router := Next(edges, router) + [next]]
  }

  /** One more output of one router. */
  lemma OneMoreOutput(m: Mesh, table: Table, tree: int, done: set<TreeKey>, table': Table, done': set<TreeKey>,
                      edges: Graph, delivered: set<int>, router: int, d: Direction)
    requires Collected(m, table, tree, done, edges, delivered)
    requires Extended(table, done, table', done', tree, router, d)
    ensures d == CENTER ==> Collected(m, table', tree, done', edges, delivered + {router})
    ensures d != CENTER && OnMesh(m, Step(m, router, d)) ==>
              Collected(m, table', tree, done', Listed(edges, router, Step(m, router, d) % U16), delivered)
    ensures d != CENTER && !OnMesh(m, Step(m, router, d)) ==> LeavesIn(m, table', tree, done')
  {
    forall a, b
      ensures EdgeIn(m, table', tree, done', a, b) <==>
                EdgeIn(m, table, tree, done, a, b) || (a == router && d != CENTER && b == Step(m, router, d) % U16)
    {
      if EdgeIn(m, table, tree, done, a, b) {
        var x :| OutputIn(table, tree, done, a, x) && x != CENTER && b == Step(m, a, x) % U16;
        assert OutputIn(table', tree, done', a, x);
      }
      assert OutputIn(table', tree, done', router, d);
    }
    assert OutputIn(table', tree, done', router, d);
  }

  function Read(outputs: set<Direction>, n: nat): set<Direction>
    requires n <= |DIRECTIONS|
  {
    set d | d in outputs && d in DIRECTIONS[..n]
  }

  lemma ReadNext(table: Table, tree: int, done: set<TreeKey>, k: TreeKey, n: nat)
    requires k in table && k.tree == tree && k !in done && n < |DIRECTIONS|
    ensures DIRECTIONS[n] !in table[k] ==> Read(table[k], n + 1) == Read(table[k], n)
    ensures DIRECTIONS[n] in table[k] ==>
              Extended(table[k := Read(table[k], n)], done + {k}, table[k := Read(table[k], n + 1)], done + {k}, tree,
                  k.router, DIRECTIONS[n])
  {
    var before, after := table[k := Read(table[k], n)], table[k := Read(table[k], n + 1)];
    assert DIRECTIONS[..n + 1] == DIRECTIONS[..n] + [DIRECTIONS[n]];
    if DIRECTIONS[n] in table[k] {
      forall r, x
        ensures OutputIn(after, tree, done + {k}, r, x) <==>
                  OutputIn(before, tree, done + {k}, r, x) || (r == k.router && x == DIRECTIONS[n])
      {
        if OutputIn(before, tree, done + {k}, r, x) {
          var e :| e in done + {k} && e in before && e.tree == tree && e.router == r && x in before[e];
          assert x in after[e];
        }
        assert DIRECTIONS[n] in after[k];
      }
    }
  }

  lemma ReadNothing(table: Table, tree: int, done: set<TreeKey>, k: TreeKey)
    requires k in table && k !in done
    ensures Alike(table, done, table[k := Read(table[k], 0)], done + {k}, tree)
  {
    forall r, x
      ensures OutputIn(table[k := Read(table[k], 0)], tree, done + {k}, r, x) <==> OutputIn(table, tree, done, r, x)
    {
      if OutputIn(table, tree, done, r, x) {
        var e :| e in done && e in table && e.tree == tree && e.router == r && x in table[e];
        assert x in table[k := Read(table[k], 0)][e];
      }
    }
  }

  lemma ReadAll(outputs: set<Direction>)
    ensures Read(outputs, |DIRECTIONS|) == outputs
  {
    forall d | d in outputs
      ensures d in DIRECTIONS
    {
      match d
      case WEST => assert DIRECTIONS[0] == d;
      case EAST => assert DIRECTIONS[1] == d;
      case NORTH => assert DIRECTIONS[2] == d;
      case SOUTH => assert DIRECTIONS[3] == d;
      case CENTER => assert DIRECTIONS[4] == d;
    }
    assert DIRECTIONS[..|DIRECTIONS|] == DIRECTIONS;
  }

  /** The entries of one tree, direction by direction. */
  method CollectEdges(m: Mesh, table: Table, tree: int) returns (ok: bool, edges: Graph, delivered: set<int>)
    ensures ok <==> !LeavesMesh(m, table, tree)
    ensures ok ==> Collected(m, table, tree, table.Keys, edges, delivered)
  {
    edges, delivered := map[], {};
    var todo := table.Keys;
    while todo != {}
      invariant todo <= table.Keys
      invariant Collected(m, table, tree, table.Keys - todo, edges, delivered)
    {
      var k :| k in todo;
      ghost var done := table.Keys - todo;
      if k.tree == tree {
        ok, edges, delivered := AddEntry(m, table, tree, k, edges, delivered, done);
        if !ok {
          return;
        }
      } else {
        SameOutputs(m, table, tree, done, table, done + {k}, edges, delivered);
      }
      todo := todo - {k};
      assert table.Keys - todo == done + {k};
    }
    assert table.Keys - {} == table.Keys;
    ok := true;
  }

  method AddEntry(m: Mesh, table: Table, tree: int, k: TreeKey, e: Graph, v: set<int>, ghost done: set<TreeKey>)
    returns (ok: bool, edges: Graph, delivered: set<int>)
    requires k in table && k.tree == tree && done <= table.Keys && k !in done
    requires Collected(m, table, tree, done, e, v)
    ensures !ok ==> LeavesMesh(m, table, tree)
    ensures ok ==> Collected(m, table, tree, done + {k}, edges, delivered)
  {
    edges, delivered := e, v;
    ReadNothing(table, tree, done, k);
    SameOutputs(m, table, tree, done, table[k := Read(table[k], 0)], done + {k}, edges, delivered);
    for n := 0 to |DIRECTIONS|
      invariant Collected(m, table[k := Read(table[k], n)], tree, done + {k}, edges, delivered)
    {
      var d := DIRECTIONS[n];
      ReadNext(table, tree, done, k, n);
      if d in table[k] {
        OneMoreOutput(m, table[k := Read(table[k], n)], tree, done + {k}, table[k := Read(table[k], n + 1)], done + {k},
                      edges, delivered, k.router, d);
        if d == CENTER {
          delivered := delivered + {k.router};
        } else {
          var next := Step(m, k.router, d);
          if next < 0 || next >= m.total {
            MoreLeaves(m, table, tree, done, k, n + 1);
            return false, edges, delivered;
          }
          edges := Listed(edges, k.router, next % U16);
        }
      }
    }
    ReadAll(table[k]);
    assert table[k := table[k]] == table;
    ok := true;
  }

  lemma MoreLeaves(m: Mesh, table: Table, tree: int, done: set<TreeKey>, k: TreeKey, n: nat)
    requires k in table && done <= table.Keys && n <= |DIRECTIONS|
    requires LeavesIn(m, table[k := Read(table[k], n)], tree, done + {k})
    ensures LeavesMesh(m, table, tree)
  {
    var part := table[k := Read(table[k], n)];
    var r, d :| OutputIn(part, tree, done + {k}, r, d) && d != CENTER && !OnMesh(m, Step(m, r, d));
    var e :| e in done + {k} && e in part && e.tree == tree && e.router == r && d in part[e];
    assert e in table.Keys && d in table[e];
    assert OutputIn(table, tree, table.Keys, r, d);
  }

  /**
   * The check accepts exactly the tables whose edges stay on the mesh, that have no cycle reachable from
   * the root, and by which every other target is reached and delivered to.
   */
  method ValidateCollectiveTree(m: Mesh, table: Table, tree: int, root: int, targets: seq<int>)
    returns (v: Verdict, ghost g: Graph)
    ensures v == EdgeLeavesMesh <==> LeavesMesh(m, table, tree)
    ensures v != EdgeLeavesMesh ==> GraphOf(m, table, tree, g)
    ensures v != EdgeLeavesMesh ==> (v == Cycle <==> CycleFrom(g, root))
    ensures v == Valid || v == NotCovered ==> (v == Valid <==> Covers(g, table, tree, root, targets))
  {
    var ok, edges, delivered := CollectEdges(m, table, tree);
    g := edges;
    if !ok {
      return EdgeLeavesMesh, g;
    }
    var search := new Validator(edges);
    ReachesSelf(g, root);
    ok := search.Dfs(root, root);
    if !ok {
      return Cycle, g;
    }
    NoCycle(g, search.visited, root);
    for i := 0 to |targets|
      invariant forall j :: 0 <= j < i && targets[j] != root ==> targets[j] in search.visited && targets[j] in delivered
    {
      var t := targets[i];
      if t != root && (t !in search.visited || t !in delivered) {
        assert t in targets;
        if Reaches(g, root, t) {
          ReachedInside(g, search.visited, root, t);
        }
        return NotCovered, g;
      }
    }
    v := Valid;
  }

  lemma NoCycle(g: Graph, s: set<int>, root: int)
    requires Closed(g, s) && Acyclic(g, s) && root in s
    ensures !CycleFrom(g, root)
  {
    forall n | Reaches(g, root, n)
      ensures !Precedes(g, n, n)
    {
      ReachedInside(g, s, root, n);
    }
  }
}
