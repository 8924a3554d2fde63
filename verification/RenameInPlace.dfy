/** The renaming pass as it runs: in place, over syntax trees whose nodes may be shared. */
module RenameInPlace {
  import opened RenameTrees

  /** The part of a syntax node that the pass can change. A node has its own identity: the parser
      makes `a op= b` into an assignment whose target is the very node that is also an operand of its
      value, so one node can be reached along several paths. */
  class Node {
    const named: bool   // a variable, a call, a let or a for
    var name: string

    constructor (named: bool, name: string)
      ensures this.named == named && this.name == name
    {
      this.named := named;
      this.name := name;
    }
  }

  /** Syntax as the parser links it; an absent expression is left out. */
  datatype Expr = Expr(shape: Shape, node: Node, kids: seq<Expr>)

  datatype Statement = Statement(kind: Kind, node: Node, exprs: seq<Expr>, blocks: seq<Body>)

  datatype Body = Body(stmts: seq<Statement>)

  // ---- nodes -----------------------------------------------------------------

  function NodesOf(e: Expr): set<Node> {
    {e.node} + NodesOfAll(e.kids)
  }

  function NodesOfAll(es: seq<Expr>): set<Node> {
    if es == [] then {} else
      assert es decreases to es[0];
      NodesOf(es[0]) + NodesOfAll(es[1..])
  }

  function NodesOfStmt(s: Statement): set<Node> {
    {s.node} + NodesOfAll(s.exprs) + NodesOfBodies(s.blocks)
  }

  function NodesOfBlock(ss: seq<Statement>): set<Node> {
    if ss == [] then {} else
      assert ss decreases to ss[0];
      NodesOfStmt(ss[0]) + NodesOfBlock(ss[1..])
  }

  function NodesOfBodies(bs: seq<Body>): set<Node> {
    if bs == [] then {} else
      assert bs decreases to bs[0];
      NodesOfBlock(bs[0].stmts) + NodesOfBodies(bs[1..])
  }

  /** Which nodes carry a name follows from what they are. */
  predicate IsValid(e: Expr) {
    e.node.named == UsesName(e.shape) && AllValid(e.kids)
  }

  predicate AllValid(es: seq<Expr>) {
    es == [] || (assert es decreases to es[0]; IsValid(es[0]) && AllValid(es[1..]))
  }

  predicate IsValidStmt(s: Statement) {
    s.node.named == BindsName(s.kind) && AllValid(s.exprs) && BodiesValid(s.blocks)
  }

  predicate BlockValid(ss: seq<Statement>) {
    ss == [] || (assert ss decreases to ss[0]; IsValidStmt(ss[0]) && BlockValid(ss[1..]))
  }

  predicate BodiesValid(bs: seq<Body>) {
    bs == [] || (assert bs decreases to bs[0]; BlockValid(bs[0].stmts) && BodiesValid(bs[1..]))
  }

  // ---- the tree that the nodes spell ------------------------------------------

  type Naming = map<Node, string>

  /** The names of some nodes as they are now. */
  ghost function NamesNow(nodes: set<Node>): Naming
    reads nodes
  {
    map n | n in nodes :: n.name
  }

  ghost function TreeOf(e: Expr, names: Naming): Tree
    requires NodesOf(e) <= names.Keys
  {
    Tree(e.shape, names[e.node], TreesOf(e.kids, names))
  }

  ghost function TreesOf(es: seq<Expr>, names: Naming): seq<Tree>
    requires NodesOfAll(es) <= names.Keys
  {
    if es == [] then [] else
      assert es decreases to es[0];
      [TreeOf(es[0], names)] + TreesOf(es[1..], names)
  }

  ghost function StmtOf(s: Statement, names: Naming): Stmt
    requires NodesOfStmt(s) <= names.Keys
  {
    Stmt(s.kind, names[s.node], TreesOf(s.exprs, names), BlocksOf(s.blocks, names))
  }

  ghost function BlockOf(ss: seq<Statement>, names: Naming): seq<Stmt>
    requires NodesOfBlock(ss) <= names.Keys
  {
    if ss == [] then [] else
      assert ss decreases to ss[0];
      [StmtOf(ss[0], names)] + BlockOf(ss[1..], names)
  }

  ghost function BlocksOf(bs: seq<Body>, names: Naming): seq<Block>
    requires NodesOfBodies(bs) <= names.Keys
  {
    if bs == [] then [] else
      assert bs decreases to bs[0];
      [Block(BlockOf(bs[0].stmts, names))] + BlocksOf(bs[1..], names)
  }

  // ---- renaming nodes --------------------------------------------------------

  /** Renaming twice is renaming once: what sharing needs. */
  predicate Settles(m: Mapping) {
    forall x <- m :: m[x] !in m
  }

  function NewName(n: Node, name: string, m: Mapping): string {
    if n.named then App(m, name) else name
  }

  /** The nodes in done have their new names, the others the old ones. */
  ghost predicate PartlyRenamed(done: set<Node>, nodes: set<Node>, before: Naming, now: Naming, m: Mapping) {
    && done <= nodes && nodes == before.Keys && nodes == now.Keys
    && forall n <- nodes :: now[n] == if n in done then NewName(n, before[n], m) else before[n]
  }

  ghost predicate Renamed(nodes: set<Node>, before: Naming, after: Naming, m: Mapping) {
    PartlyRenamed(nodes, nodes, before, after, m)
  }

  /** Renaming one more part, nodes of which may have been renamed already. */
  lemma OneMore(done: set<Node>, part: set<Node>, nodes: set<Node>, before: Naming, middle: Naming, after: Naming,
                middlePart: Naming, afterPart: Naming, m: Mapping)
    requires Settles(m) && PartlyRenamed(done, nodes, before, middle, m) && part <= nodes && after.Keys == nodes
    requires Renamed(part, middlePart, afterPart, m)
    requires forall n <- part :: middlePart[n] == middle[n] && afterPart[n] == after[n]
    requires forall n <- nodes :: n !in part ==> after[n] == middle[n]
    ensures PartlyRenamed(done + part, nodes, before, after, m)
  {
    forall n | n in nodes
      ensures after[n] == if n in done + part then NewName(n, before[n], m) else before[n]
    {
      assert NewName(n, NewName(n, before[n], m), m) == NewName(n, before[n], m);
    }
  }

  method RenameExpr(e: Expr, m: Mapping)
    requires IsValid(e) && Settles(m)
    modifies NodesOf(e)
    ensures Renamed(NodesOf(e), old(NamesNow(NodesOf(e))), NamesNow(NodesOf(e)), m)
    decreases e, 0
  {
    ghost var nodes := NodesOf(e);
    ghost var before := NamesNow(nodes);
    if UsesName(e.shape) {
      e.node.name := App(m, e.node.name);
    }
    ghost var middle, middlePart := NamesNow(nodes), NamesNow(NodesOfAll(e.kids));
    assert PartlyRenamed({e.node}, nodes, before, middle, m);
    RenameAllExprs(e.kids, m);
    OneMore({e.node}, NodesOfAll(e.kids), nodes, before, middle, NamesNow(nodes), middlePart, NamesNow(NodesOfAll(e.kids)), m);
  }

  /** Each of a node's operands in turn. */
  method RenameAllExprs(es: seq<Expr>, m: Mapping)
    requires AllValid(es) && Settles(m)
    modifies NodesOfAll(es)
    ensures Renamed(NodesOfAll(es), old(NamesNow(NodesOfAll(es))), NamesNow(NodesOfAll(es)), m)
    decreases es
  {
    hide IsValid, NodesOf, PartlyRenamed;
    ghost var nodes := NodesOfAll(es);
    ghost var before := NamesNow(nodes);
    ghost var done: set<Node> := {};
    NothingYet(nodes, before, m);
    var i := 0;
    assert es[0..] == es;
    while i < |es|
      invariant 0 <= i <= |es| && AllValid(es[i..])
      invariant done <= nodes && NodesOfAll(es[i..]) <= nodes && nodes == done + NodesOfAll(es[i..])
      invariant PartlyRenamed(done, nodes, before, NamesNow(nodes), m)
    {
      assert es decreases to es[i];
      assert es[i..][1..] == es[i + 1..];
      var part := es[i];
      ghost var middle, middlePart := NamesNow(nodes), NamesNow(NodesOf(part));
      RenameExpr(part, m);
      OneMore(done, NodesOf(part), nodes, before, middle, NamesNow(nodes), middlePart, NamesNow(NodesOf(part)), m);
      done := done + NodesOf(part);
      i := i + 1;
    }
  }

  lemma NothingYet(nodes: set<Node>, before: Naming, m: Mapping)
    requires before.Keys == nodes
    ensures PartlyRenamed({}, nodes, before, before, m)
  {}

  method RenameStatement(s: Statement, m: Mapping)
    requires IsValidStmt(s) && Settles(m)
    modifies NodesOfStmt(s)
    ensures Renamed(NodesOfStmt(s), old(NamesNow(NodesOfStmt(s))), NamesNow(NodesOfStmt(s)), m)
    decreases s, 0
  {
    hide PartlyRenamed, NodesOfAll, NodesOfBodies, AllValid, BodiesValid;
    ghost var nodes := NodesOfStmt(s);
    ghost var before := NamesNow(nodes);
    ghost var exprs, bodies := NodesOfAll(s.exprs), NodesOfBodies(s.blocks);
    NothingYet(nodes, before, m);

    ghost var middlePart := NamesNow(exprs);
    RenameAllExprs(s.exprs, m);
    OneMore({}, exprs, nodes, before, before, NamesNow(nodes), middlePart, NamesNow(exprs), m);

    ghost var middle := NamesNow(nodes);
    middlePart := NamesNow({s.node});
    if BindsName(s.kind) {
      s.node.name := App(m, s.node.name);
    }
    NameChanged(s.node, middlePart, NamesNow({s.node}), m);
    OneMore({} + exprs, {s.node}, nodes, before, middle, NamesNow(nodes), middlePart, NamesNow({s.node}), m);

    middle, middlePart := NamesNow(nodes), NamesNow(bodies);
    RenameBodies(s.blocks, m);
    OneMore({} + exprs + {s.node}, bodies, nodes, before, middle, NamesNow(nodes), middlePart, NamesNow(bodies), m);
    assert {} + exprs + {s.node} + bodies == nodes;
  }

  lemma NameChanged(n: Node, before: Naming, after: Naming, m: Mapping)
    requires before.Keys == after.Keys == {n} && after[n] == NewName(n, before[n], m)
    ensures Renamed({n}, before, after, m)
  {}

  method RenameStatements(ss: seq<Statement>, m: Mapping)
    requires BlockValid(ss) && Settles(m)
    modifies NodesOfBlock(ss)
    ensures Renamed(NodesOfBlock(ss), old(NamesNow(NodesOfBlock(ss))), NamesNow(NodesOfBlock(ss)), m)
    decreases ss
  {
    hide IsValidStmt, NodesOfStmt, PartlyRenamed;
    ghost var nodes := NodesOfBlock(ss);
    ghost var before := NamesNow(nodes);
    ghost var done: set<Node> := {};
    NothingYet(nodes, before, m);
    var i := 0;
    assert ss[0..] == ss;
    while i < |ss|
      invariant 0 <= i <= |ss| && BlockValid(ss[i..])
      invariant done <= nodes && NodesOfBlock(ss[i..]) <= nodes && nodes == done + NodesOfBlock(ss[i..])
      invariant PartlyRenamed(done, nodes, before, NamesNow(nodes), m)
    {
      assert ss decreases to ss[i];
      assert ss[i..][1..] == ss[i + 1..];
      var part := ss[i];
      ghost var middle, middlePart := NamesNow(nodes), NamesNow(NodesOfStmt(part));
      RenameStatement(part, m);
      OneMore(done, NodesOfStmt(part), nodes, before, middle, NamesNow(nodes), middlePart, NamesNow(NodesOfStmt(part)), m);
      done := done + NodesOfStmt(part);
      i := i + 1;
    }
  }

  /** The blocks of a statement, one or two of them. */
  method RenameBodies(bs: seq<Body>, m: Mapping)
    requires BodiesValid(bs) && Settles(m)
    modifies NodesOfBodies(bs)
    ensures Renamed(NodesOfBodies(bs), old(NamesNow(NodesOfBodies(bs))), NamesNow(NodesOfBodies(bs)), m)
    decreases bs
  {
    hide BlockValid, NodesOfBlock, PartlyRenamed;
    ghost var nodes := NodesOfBodies(bs);
    ghost var before := NamesNow(nodes);
    ghost var done: set<Node> := {};
    NothingYet(nodes, before, m);
    var i := 0;
    assert bs[0..] == bs;
    while i < |bs|
      invariant 0 <= i <= |bs| && BodiesValid(bs[i..])
      invariant done <= nodes && NodesOfBodies(bs[i..]) <= nodes && nodes == done + NodesOfBodies(bs[i..])
      invariant PartlyRenamed(done, nodes, before, NamesNow(nodes), m)
    {
      assert bs decreases to bs[i];
      assert bs[i..][1..] == bs[i + 1..];
      var part := bs[i].stmts;
      ghost var middle, middlePart := NamesNow(nodes), NamesNow(NodesOfBlock(part));
      RenameStatements(part, m);
      OneMore(done, NodesOfBlock(part), nodes, before, middle, NamesNow(nodes), middlePart, NamesNow(NodesOfBlock(part)), m);
      done := done + NodesOfBlock(part);
      i := i + 1;
    }
  }

  // ---- renaming the nodes renames the tree ------------------------------------

  /** after is before renamed, at least on these nodes. */
  ghost predicate RenamedOn(nodes: set<Node>, before: Naming, after: Naming, m: Mapping) {
    && nodes <= before.Keys && nodes <= after.Keys
    && forall n <- nodes :: after[n] == NewName(n, before[n], m)
  }

  lemma {:induction false} TreeRenamed(e: Expr, before: Naming, after: Naming, m: Mapping)
    requires IsValid(e) && RenamedOn(NodesOf(e), before, after, m)
    ensures TreeOf(e, after) == Rename(TreeOf(e, before), m)
    decreases e
  {
    TreesRenamed(e.kids, before, after, m);
  }

  lemma {:induction false} TreesRenamed(es: seq<Expr>, before: Naming, after: Naming, m: Mapping)
    requires AllValid(es) && RenamedOn(NodesOfAll(es), before, after, m)
    ensures TreesOf(es, after) == RenameAll(TreesOf(es, before), m)
    decreases es
  {
    if es != [] {
      assert es decreases to es[0];
      TreeRenamed(es[0], before, after, m);
      TreesRenamed(es[1..], before, after, m);
    }
  }

  lemma {:induction false} StmtTreeRenamed(s: Statement, before: Naming, after: Naming, m: Mapping)
    requires IsValidStmt(s) && RenamedOn(NodesOfStmt(s), before, after, m)
    ensures StmtOf(s, after) == RenameStmt(StmtOf(s, before), m)
    decreases s
  {
    TreesRenamed(s.exprs, before, after, m);
    BlockTreesRenamed(s.blocks, before, after, m);
  }

  lemma {:induction false} BlockTreeRenamed(ss: seq<Statement>, before: Naming, after: Naming, m: Mapping)
    requires BlockValid(ss) && RenamedOn(NodesOfBlock(ss), before, after, m)
    ensures BlockOf(ss, after) == RenameBlock(BlockOf(ss, before), m)
    decreases ss
  {
    if ss != [] {
      assert ss decreases to ss[0];
      StmtTreeRenamed(ss[0], before, after, m);
      BlockTreeRenamed(ss[1..], before, after, m);
    }
  }

  lemma {:induction false} BlockTreesRenamed(bs: seq<Body>, before: Naming, after: Naming, m: Mapping)
    requires BodiesValid(bs) && RenamedOn(NodesOfBodies(bs), before, after, m)
    ensures BlocksOf(bs, after) == RenameBlocks(BlocksOf(bs, before), m)
    decreases bs
  {
    if bs != [] {
      assert bs decreases to bs[0];
      BlockTreeRenamed(bs[0].stmts, before, after, m);
      BlockTreesRenamed(bs[1..], before, after, m);
    }
  }

  // ---- the names of the locals -----------------------------------------------

  method CollectLocalNames(ss: seq<Statement>, output: set<string>) returns (r: set<string>)
    ensures r == output + LocalsOfBlock(BlockOf(ss, NamesNow(NodesOfBlock(ss))))
    decreases ss
  {
    ghost var names := NamesNow(NodesOfBlock(ss));
    r := output;
    var i := 0;
    assert ss[0..] == ss;
    while i < |ss|
      invariant 0 <= i <= |ss| && NodesOfBlock(ss[i..]) <= names.Keys
      invariant r + LocalsOfBlock(BlockOf(ss[i..], names)) == output + LocalsOfBlock(BlockOf(ss, names))
    {
      assert ss decreases to ss[i];
      assert ss[i..][1..] == ss[i + 1..];
      var s := ss[i];
      assert BlockOf(ss[i..], names)[1..] == BlockOf(ss[i + 1..], names);
      assert LocalsOfBlock(BlockOf(ss[i..], names)) == LocalsOf(StmtOf(s, names)) + LocalsOfBlock(BlockOf(ss[i + 1..], names));
      if BindsName(s.kind) {
        r := r + {s.node.name};
      }
      r := CollectFromBodies(s.blocks, r);
      SameBlocks(s.blocks, NamesNow(NodesOfBodies(s.blocks)), names);
      i := i + 1;
    }
  }

  method CollectFromBodies(bs: seq<Body>, output: set<string>) returns (r: set<string>)
    ensures r == output + LocalsOfBlocks(BlocksOf(bs, NamesNow(NodesOfBodies(bs))))
    decreases bs
  {
    ghost var names := NamesNow(NodesOfBodies(bs));
    r := output;
    var i := 0;
    assert bs[0..] == bs;
    while i < |bs|
      invariant 0 <= i <= |bs| && NodesOfBodies(bs[i..]) <= names.Keys
      invariant r + LocalsOfBlocks(BlocksOf(bs[i..], names)) == output + LocalsOfBlocks(BlocksOf(bs, names))
    {
      assert bs decreases to bs[i];
      assert bs[i..][1..] == bs[i + 1..];
      assert BlocksOf(bs[i..], names)[1..] == BlocksOf(bs[i + 1..], names);
      r := CollectLocalNames(bs[i].stmts, r);
      SameBlock(bs[i].stmts, NamesNow(NodesOfBlock(bs[i].stmts)), names);
      i := i + 1;
    }
  }

  ghost predicate Agree(nodes: set<Node>, a: Naming, b: Naming) {
    nodes <= a.Keys && nodes <= b.Keys && forall n <- nodes :: a[n] == b[n]
  }

  lemma {:induction false} SameTree(e: Expr, a: Naming, b: Naming)
    requires Agree(NodesOf(e), a, b)
    ensures TreeOf(e, a) == TreeOf(e, b)
    decreases e
  {
    SameTrees(e.kids, a, b);
  }

  lemma {:induction false} SameTrees(es: seq<Expr>, a: Naming, b: Naming)
    requires Agree(NodesOfAll(es), a, b)
    ensures TreesOf(es, a) == TreesOf(es, b)
    decreases es
  {
    if es != [] {
      assert es decreases to es[0];
      SameTree(es[0], a, b);
      SameTrees(es[1..], a, b);
    }
  }

  lemma {:induction false} SameStmt(s: Statement, a: Naming, b: Naming)
    requires Agree(NodesOfStmt(s), a, b)
    ensures StmtOf(s, a) == StmtOf(s, b)
    decreases s
  {
    SameTrees(s.exprs, a, b);
    SameBlocks(s.blocks, a, b);
  }

  lemma {:induction false} SameBlock(ss: seq<Statement>, a: Naming, b: Naming)
    requires Agree(NodesOfBlock(ss), a, b)
    ensures BlockOf(ss, a) == BlockOf(ss, b)
    decreases ss
  {
    if ss != [] {
      assert ss decreases to ss[0];
      SameStmt(ss[0], a, b);
      SameBlock(ss[1..], a, b);
    }
  }

  lemma {:induction false} SameBlocks(bs: seq<Body>, a: Naming, b: Naming)
    requires Agree(NodesOfBodies(bs), a, b)
    ensures BlocksOf(bs, a) == BlocksOf(bs, b)
    decreases bs
  {
    if bs != [] {
      assert bs decreases to bs[0];
      SameBlock(bs[0].stmts, a, b);
      SameBlocks(bs[1..], a, b);
    }
  }

  // ---- a function ------------------------------------------------------------

  class FunctionNode {
    var params: seq<string>
    const body: seq<Statement>

    constructor (params: seq<string>, body: seq<Statement>)
      ensures this.params == params && this.body == body
    {
      this.params := params;
      this.body := body;
    }

    ghost function Now(): Function_
      reads this, NodesOfBlock(body)
    {
      Function_(params, BlockOf(body, NamesNow(NodesOfBlock(body))))
    }

    /** sanitize_c_local_names, for one function of the module. */
    method SanitizeLocals()
      requires BlockValid(body)
      modifies this, NodesOfBlock(body)
      ensures Now() == Sanitize(old(Now()))
    {
      ghost var was := Now();
      ghost var before := NamesNow(NodesOfBlock(body));
      var names := Elems(params);
      names := CollectLocalNames(body, names);
      var mapping := MappingFor(names);
      assert NamesNow(NodesOfBlock(body)) == before && was == Function_(params, BlockOf(body, before));
      assert names == Elems(params) + LocalsOfBlock(was.body);
      if mapping == map[] {
        return;
      }
      MappingSettles(names);
      RenameParams(mapping);
      RenameStatements(body, mapping);
      ghost var after := NamesNow(NodesOfBlock(body));
      BlockTreeRenamed(body, before, after, mapping);
    }

    method RenameParams(m: Mapping)
      modifies this
      ensures params == RenameNames(old(params), m)
    {
      var out: seq<string> := [];
      var i := 0;
      assert params[0..] == params;
      while i < |params|
        invariant 0 <= i <= |params| && params == old(params)
        invariant out + RenameNames(params[i..], m) == RenameNames(params, m)
      {
        assert params[i..][1..] == params[i + 1..];
        out := out + [App(m, params[i])];
        i := i + 1;
      }
      params := out;
    }
  }

  lemma MappingSettles(names: set<string>)
    ensures Settles(MappingFor(names))
  {
    forall x | x in MappingFor(names) ensures MappingFor(names)[x] !in MappingFor(names) {
      SafeIsNotReserved(x);
    }
  }
}
