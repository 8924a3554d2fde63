/** Import cycles and compile order: a depth-first walk of the module graph. */
module ModuleGraph {
  import opened Options

  type Module = string

  type Graph = map<Module, seq<Module>>

  /** Imports are resolved to discovered modules before the graph is walked. */
  predicate Closed(g: Graph) {
    forall m <- g, d <- g[m] :: d in g
  }

  predicate Imports(g: Graph, a: Module, b: Module) {
    a in g && b in g[a]
  }

  /** Each module imports the next. */
  predicate IsPath(g: Graph, p: seq<Module>) {
    |p| > 0 && p[0] in g && forall i :: 0 <= i < |p| - 1 ==> Imports(g, p[i], p[i + 1])
  }

  predicate IsCycle(g: Graph, p: seq<Module>) {
    |p| >= 2 && IsPath(g, p) && p[0] == p[|p| - 1]
  }

  predicate Connects(g: Graph, p: seq<Module>, a: Module, b: Module) {
    IsPath(g, p) && p[0] == a && p[|p| - 1] == b
  }

  ghost predicate Reaches(g: Graph, a: Module, b: Module) {
    exists p :: Connects(g, p, a, b)
  }

  lemma ReachesItself(g: Graph, a: Module)
    requires a in g
    ensures Reaches(g, a, a)
  {
    assert Connects(g, [a], a, a);
  }

  lemma ReachesFurther(g: Graph, a: Module, b: Module, c: Module)
    requires Imports(g, a, b) && Reaches(g, b, c)
    ensures Reaches(g, a, c)
  {
    var p :| Connects(g, p, b, c);
    assert Connects(g, [a] + p, a, c);
  }

  function Elems(s: seq<Module>): set<Module> {
    set x | x in s
  }

  predicate NoDuplicates(s: seq<Module>) {
    forall i, j :: 0 <= i < j < |s| ==> s[i] != s[j]
  }

  /** Every module comes after all the modules it imports. */
  predicate ImportsFirst(g: Graph, order: seq<Module>) {
    forall i, d :: 0 <= i < |order| && order[i] in g && d in g[order[i]] ==> d in order[..i]
  }

  lemma PushPath(g: Graph, path: seq<Module>, m: Module)
    requires path != [] ==> IsPath(g, path) && Imports(g, path[|path| - 1], m)
    requires m in g && m !in path && NoDuplicates(path)
    ensures IsPath(g, path + [m]) && NoDuplicates(path + [m]) && Elems(path + [m]) == Elems(path) + {m}
  {}

  /** Going back to a module on the path closes a cycle. */
  lemma ClosePath(g: Graph, path: seq<Module>, m: Module, k: nat)
    requires k < |path| && path[k] == m && IsPath(g, path) && Imports(g, path[|path| - 1], m)
    ensures IsCycle(g, path[k..] + [m])
  {
    var c := path[k..] + [m];
    assert c[0] in g by { if k > 0 { assert Imports(g, path[k - 1], path[k]); } if k < |path| - 1 { assert Imports(g, path[k], path[k + 1]); } }
    forall i | 0 <= i < |c| - 1 ensures Imports(g, c[i], c[i + 1]) {
      if i < |c| - 2 { assert Imports(g, path[k + i], path[k + i + 1]); }
    }
  }

  lemma AppendToOrder(g: Graph, order: seq<Module>, m: Module)
    requires ImportsFirst(g, order) && NoDuplicates(order) && m !in order
    requires m in g ==> forall d <- g[m] :: d in order
    ensures ImportsFirst(g, order + [m]) && NoDuplicates(order + [m]) && Elems(order + [m]) == Elems(order) + {m}
  {
    var longer := order + [m];
    forall j, d | 0 <= j < |longer| && longer[j] in g && d in g[longer[j]] ensures d in longer[..j] {
      if j < |order| {
        assert longer[..j] == order[..j];
      } else {
        assert longer[..j] == order;
      }
    }
  }

  class Walk {
    const graph: Graph
    var visiting: seq<Module>
    var visited: set<Module>
    var reachable: seq<Module>

    constructor (graph: Graph)
      requires Closed(graph)
      ensures this.graph == graph && visiting == [] && visited == {} && reachable == [] && Valid()
    {
      this.graph := graph;
      visiting, visited, reachable := [], {}, [];
    }

    /** What is being visited is a path; what has been visited is listed once, imports first. */
    ghost predicate Valid()
      reads this
    {
      && Closed(graph)
      && (visiting != [] ==> IsPath(graph, visiting))
      && NoDuplicates(visiting) && Elems(visiting) <= graph.Keys
      && visited == Elems(reachable) && visited <= graph.Keys && Elems(visiting) !! visited
      && NoDuplicates(reachable) && ImportsFirst(graph, reachable)
    }

    /** Either a cycle of the graph, or everything reachable from the module has been visited. */
    method Visit(m: Module) returns (cycle: Option<seq<Module>>)
      requires Valid() && m in graph
      requires visiting != [] ==> Imports(graph, visiting[|visiting| - 1], m)
      modifies this
      ensures cycle.Some? ==> IsCycle(graph, cycle.value)
      ensures cycle.None? ==>
                && Valid() && visiting == old(visiting) && m in visited
                && old(visited) <= visited && old(reachable) <= reachable
                && (forall x :: x in visited && x !in old(visited) ==> Reaches(graph, m, x))
      decreases graph.Keys - Elems(visiting)
    {
      hide IsPath, NoDuplicates, ImportsFirst, Imports, IsCycle, Elems, Closed;
      InElems(visiting, m);
      InElems(reachable, m);
      if m in visiting {
        var k := IndexOf(visiting, m);
        ClosePath(graph, visiting, m, k);
        return Some(visiting[k..] + [m]);
      }
      if m in visited {
        return None;
      }
      ghost var path := visiting;
      PushPath(graph, path, m);
      visiting := visiting + [m];
      var i := 0;
      while i < |graph[m]|
        invariant 0 <= i <= |graph[m]| && Valid() && visiting == path + [m]
        invariant old(visited) <= visited && old(reachable) <= reachable
        invariant forall d <- graph[m][..i] :: d in visited
        invariant forall x :: x in visited && x !in old(visited) ==> Reaches(graph, m, x)
      {
        ghost var before := visited;
        var dependency := graph[m][i];
        ImportIsModule(graph, m, i);
        IsImport(graph, m, dependency);
        cycle := Visit(dependency);
        if cycle.Some? {
          return cycle;
        }
        forall x | x in visited && x !in before ensures Reaches(graph, m, x) {
          ReachesFurther(graph, m, dependency, x);
        }
        i := i + 1;
      }
      assert graph[m][..i] == graph[m];
      InElems(reachable, m);
      forall d | d in graph[m] ensures d in reachable { InElems(reachable, d); }
      visiting := visiting[..|visiting| - 1];
      assert visiting == path;
      visited := visited + {m};
      AppendToOrder(graph, reachable, m);
      reachable := reachable + [m];
      ReachesItself(graph, m);
      return None;
    }
  }

  lemma InElems(s: seq<Module>, x: Module)
    ensures x in Elems(s) <==> x in s
  {}

  lemma ImportIsModule(g: Graph, m: Module, i: nat)
    requires Closed(g) && m in g && i < |g[m]|
    ensures g[m][i] in g
  {
    assert g[m][i] in g[m];
  }

  lemma IsImport(g: Graph, a: Module, b: Module)
    requires a in g && b in g[a]
    ensures Imports(g, a, b)
  {}

  method IndexOf(s: seq<Module>, x: Module) returns (k: nat)
    requires x in s
    ensures k < |s| && s[k] == x && x !in s[..k]
  {
    k := 0;
    while s[k] != x
      invariant k < |s| && x in s[k..] && x !in s[..k]
      decreases |s| - k
    {
      k := k + 1;
    }
  }

  // ---- what the order excludes -----------------------------------------------

  function Position(order: seq<Module>, x: Module): (k: nat)
    requires x in order
    ensures k < |order| && order[k] == x && x !in order[..k]
  {
    if order[0] == x then 0 else Position(order[1..], x) + 1
  }

  lemma EarlierInOrder(g: Graph, order: seq<Module>, a: Module, b: Module)
    requires ImportsFirst(g, order) && a in order && Imports(g, a, b)
    ensures b in order && Position(order, b) < Position(order, a)
  {
    var i := Position(order, a);
    assert b in order[..i];
    var j :| 0 <= j < i && order[j] == b;
    assert b in order;
    PositionIsFirst(order, b, j);
  }

  lemma {:induction false} PositionIsFirst(order: seq<Module>, x: Module, j: nat)
    requires j < |order| && order[j] == x
    ensures x in order && Position(order, x) <= j
    decreases j
  {
    if order[0] != x {
      PositionIsFirst(order[1..], x, j - 1);
    }
  }

  lemma PathTail(g: Graph, p: seq<Module>)
    requires Closed(g) && IsPath(g, p) && |p| > 1
    ensures IsPath(g, p[1..]) && Imports(g, p[0], p[1])
  {
    assert Imports(g, p[0], p[1]);
    forall i | 0 <= i < |p[1..]| - 1 ensures Imports(g, p[1..][i], p[1..][i + 1]) {
      assert Imports(g, p[i + 1], p[i + 2]);
    }
  }

  lemma {:induction false} EarlierAlong(g: Graph, order: seq<Module>, p: seq<Module>)
    requires Closed(g) && ImportsFirst(g, order) && IsPath(g, p) && p[0] in order
    ensures p[|p| - 1] in order && Position(order, p[|p| - 1]) + |p| <= Position(order, p[0]) + 1
    decreases |p|
  {
    if |p| > 1 {
      PathTail(g, p);
      EarlierInOrder(g, order, p[0], p[1]);
      EarlierAlong(g, order, p[1..]);
    }
  }

  /** Modules listed imports first cannot be on a cycle. */
  lemma OrderExcludesCycles(g: Graph, order: seq<Module>, c: seq<Module>)
    requires Closed(g) && ImportsFirst(g, order) && g.Keys <= Elems(order)
    ensures !IsCycle(g, c)
  {
    if IsCycle(g, c) {
      assert c[0] in Elems(order);
      EarlierAlong(g, order, c);
      assert false;
    }
  }

  lemma ReachableIsListed(g: Graph, order: seq<Module>, a: Module, b: Module)
    requires Closed(g) && ImportsFirst(g, order) && a in order && Reaches(g, a, b)
    ensures b in order
  {
    var p :| Connects(g, p, a, b);
    EarlierAlong(g, order, p);
  }

  /** Fails exactly when the graph has a cycle, with a cycle of the graph; otherwise there is an order
      of all modules that puts imports first. */
  method ValidateAllCycles(g: Graph, modules: seq<Module>) returns (cycle: Option<seq<Module>>, ghost order: seq<Module>)
    requires Closed(g) && Elems(modules) == g.Keys
    ensures cycle.Some? ==> IsCycle(g, cycle.value)
    ensures cycle.None? ==> ImportsFirst(g, order) && Elems(order) == g.Keys
    ensures cycle.None? <==> forall p :: !IsCycle(g, p)
  {
    var walk := new Walk(g);
    var i := 0;
    while i < |modules|
      invariant 0 <= i <= |modules| && walk.graph == g && walk.Valid() && walk.visiting == [] && fresh(walk)
      invariant forall m <- modules[..i] :: m in walk.visited
    {
      assert modules[i] in Elems(modules);
      cycle := walk.Visit(modules[i]);
      if cycle.Some? {
        return cycle, [];
      }
      i := i + 1;
    }
    order := walk.reachable;
    assert modules[..i] == modules;
    forall m | m in g ensures m in Elems(order) {
      assert m in Elems(modules);
    }
    forall p ensures !IsCycle(g, p) {
      OrderExcludesCycles(g, order, p);
    }
    return None, order;
  }

  datatype Analysis =
    | Cyclic(cycle: seq<Module>)
    | Ordered(order: seq<Module>, unreachable: set<Module>, orphanRoots: set<Module>)

  /** What analyze reports about the graph. */
  ghost predicate Describes(g: Graph, entry: Module, a: Analysis) {
    match a
    case Cyclic(cycle) => IsCycle(g, cycle)
    case Ordered(order, unreachable, orphanRoots) =>
      && (forall p :: !IsCycle(g, p))
      && NoDuplicates(order) && ImportsFirst(g, order)
      && (forall m :: m in order <==> Reaches(g, entry, m))
      && (forall m :: m in unreachable <==> m in g && !Reaches(g, entry, m))
      && (forall m :: m in orphanRoots <==> m in unreachable && forall k <- g :: m !in g[k])
      && (forall m <- unreachable :: exists root <- orphanRoots :: Reaches(g, root, m))
  }

  method Analyze(g: Graph, modules: seq<Module>, entry: Module) returns (a: Analysis)
    requires Closed(g) && Elems(modules) == g.Keys && entry in g
    ensures Describes(g, entry, a)
  {
    var cycle, all := ValidateAllCycles(g, modules);
    if cycle.Some? {
      return Cyclic(cycle.value);
    }
    var walk := new Walk(g);
    cycle := walk.Visit(entry);
    if cycle.Some? {
      assert false;
    }
    var order := walk.reachable;
    forall m ensures m in order <==> Reaches(g, entry, m) {
      assert m in order <==> m in Elems(order);
      assert entry in Elems(order);
      if Reaches(g, entry, m) {
        ReachableIsListed(g, order, entry, m);
      }
    }
    forall m | Reaches(g, entry, m) ensures m in g { ReachedIsModule(g, entry, m); }
    var unreachable := g.Keys - Elems(order);
    var orphanRoots := set m | m in unreachable && forall k <- g :: m !in g[k];
    forall m | m in unreachable ensures exists root <- orphanRoots :: Reaches(g, root, m) {
      OrphanAbove(g, all, entry, m);
    }
    return Ordered(order, unreachable, orphanRoots);
  }

  lemma ReachedIsModule(g: Graph, a: Module, b: Module)
    requires Closed(g) && Reaches(g, a, b)
    ensures b in g
  {
    var p :| Connects(g, p, a, b);
    if |p| > 1 {
      assert Imports(g, p[|p| - 2], p[|p| - 1]);
    }
  }

  lemma ReachesOneMore(g: Graph, a: Module, b: Module, c: Module)
    requires Reaches(g, a, b) && Imports(g, b, c)
    ensures Reaches(g, a, c)
  {
    var p :| Connects(g, p, a, b);
    assert Connects(g, p + [c], a, c);
  }

  /** A module that the entry does not reach has an importer, and so on up to one that has none. */
  lemma {:induction false} OrphanAbove(g: Graph, all: seq<Module>, entry: Module, m: Module)
    requires Closed(g) && ImportsFirst(g, all) && Elems(all) == g.Keys
    requires m in g && !Reaches(g, entry, m)
    ensures exists root :: root in g && !Reaches(g, entry, root) && (forall k <- g :: root !in g[k]) && Reaches(g, root, m)
    decreases |all| - (if m in all then Position(all, m) else 0)
  {
    assert m in Elems(all);
    ReachesItself(g, m);
    if k :| k in g && m in g[k] {
      assert k in Elems(all);
      EarlierInOrder(g, all, k, m);
      if Reaches(g, entry, k) {
        ReachesOneMore(g, entry, k, m);
      }
      OrphanAbove(g, all, entry, k);
      var root :| root in g && !Reaches(g, entry, root) && (forall k <- g :: root !in g[k]) && Reaches(g, root, k);
      ReachesOneMore(g, root, k, m);
    }
  }
}
