/** Renaming keeps every name bound to the same declaration, and when it does not. */
module RenameMeaning {
  import opened RenameTrees

  // ---- meaning of names ------------------------------------------------------

  /** What a name stands for: the i-th innermost local in scope, or something outside the function. */
  datatype Ref = Unused | Slot(index: nat) | Outside(name: string)

  /** A function body with names replaced by what they stand for. */
  datatype Resolved = Resolved(shape: Shape, ref: Ref, kids: seq<Resolved>)

  datatype ResolvedStmt = ResolvedStmt(kind: Kind, exprs: seq<Resolved>, blocks: seq<ResolvedBlock>)

  datatype ResolvedBlock = ResolvedBlock(stmts: seq<ResolvedStmt>)

  datatype ResolvedFunction = ResolvedFunction(arity: nat, body: seq<ResolvedStmt>)

  /** Scopes list the innermost local first. */
  function Find(scope: seq<string>, x: string): (r: Ref)
    ensures r.Slot? <==> x in scope
    ensures !r.Slot? ==> r == Outside(x)
  {
    if scope == [] then Outside(x)
    else if scope[0] == x then Slot(0)
    else
      var r := Find(scope[1..], x);
      if r.Slot? then Slot(r.index + 1) else r
  }

  function Resolve(t: Tree, scope: seq<string>): Resolved {
    Resolved(t.shape, if UsesName(t.shape) then Find(scope, t.name) else Unused, ResolveAll(t.kids, scope))
  }

  function ResolveAll(ts: seq<Tree>, scope: seq<string>): (r: seq<Resolved>)
    ensures |r| == |ts|
  {
    if ts == [] then [] else
      assert ts decreases to ts[0];
      [Resolve(ts[0], scope)] + ResolveAll(ts[1..], scope)
  }

  /** The scope of the blocks of a statement: that of a for loop has its variable. */
  function Inner(s: Stmt, scope: seq<string>): seq<string> {
    if s.kind.ForStmt? then [s.name] + scope else scope
  }

  /** The scope after a statement: that of a let has its variable. */
  function After(s: Stmt, scope: seq<string>): seq<string> {
    if s.kind.LetStmt? then [s.name] + scope else scope
  }

  function ResolveStmt(s: Stmt, scope: seq<string>): ResolvedStmt {
    ResolvedStmt(s.kind, ResolveAll(s.exprs, scope), ResolveBlocks(s.blocks, Inner(s, scope)))
  }

  function ResolveBlock(ss: seq<Stmt>, scope: seq<string>): (r: seq<ResolvedStmt>)
    ensures |r| == |ss|
  {
    if ss == [] then [] else
      assert ss decreases to ss[0];
      [ResolveStmt(ss[0], scope)] + ResolveBlock(ss[1..], After(ss[0], scope))
  }

  function ResolveBlocks(bs: seq<Block>, scope: seq<string>): (r: seq<ResolvedBlock>)
    ensures |r| == |bs|
  {
    if bs == [] then [] else
      assert bs decreases to bs[0];
      [ResolvedBlock(ResolveBlock(bs[0].stmts, scope))] + ResolveBlocks(bs[1..], scope)
  }

  function ResolveFunction(f: Function_): ResolvedFunction {
    ResolvedFunction(|f.params|, ResolveBlock(f.body, f.params))
  }

  // ---- names used and not bound ----------------------------------------------

  /** The names that stand for something outside. */
  function Free(t: Tree, scope: seq<string>): set<string> {
    (if UsesName(t.shape) && t.name !in scope then {t.name} else {}) + FreeInAll(t.kids, scope)
  }

  function FreeInAll(ts: seq<Tree>, scope: seq<string>): set<string> {
    if ts == [] then {} else
      assert ts decreases to ts[0];
      Free(ts[0], scope) + FreeInAll(ts[1..], scope)
  }

  function FreeInStmt(s: Stmt, scope: seq<string>): set<string> {
    FreeInAll(s.exprs, scope) + FreeInBlocks(s.blocks, Inner(s, scope))
  }

  function FreeInBlock(ss: seq<Stmt>, scope: seq<string>): set<string> {
    if ss == [] then {} else
      assert ss decreases to ss[0];
      FreeInStmt(ss[0], scope) + FreeInBlock(ss[1..], After(ss[0], scope))
  }

  function FreeInBlocks(bs: seq<Block>, scope: seq<string>): set<string> {
    if bs == [] then {} else
      assert bs decreases to bs[0];
      FreeInBlock(bs[0].stmts, scope) + FreeInBlocks(bs[1..], scope)
  }

  function FreeNames(f: Function_): set<string> {
    FreeInBlock(f.body, f.params)
  }

  /** Every name used or declared. */
  function Used(t: Tree): set<string> {
    (if UsesName(t.shape) then {t.name} else {}) + UsedInAll(t.kids)
  }

  function UsedInAll(ts: seq<Tree>): set<string> {
    if ts == [] then {} else
      assert ts decreases to ts[0];
      Used(ts[0]) + UsedInAll(ts[1..])
  }

  function UsedInStmt(s: Stmt): set<string> {
    (if BindsName(s.kind) then {s.name} else {}) + UsedInAll(s.exprs) + UsedInBlocks(s.blocks)
  }

  function UsedInBlock(ss: seq<Stmt>): set<string> {
    if ss == [] then {} else
      assert ss decreases to ss[0];
      UsedInStmt(ss[0]) + UsedInBlock(ss[1..])
  }

  function UsedInBlocks(bs: seq<Block>): set<string> {
    if bs == [] then {} else
      assert bs decreases to bs[0];
      UsedInBlock(bs[0].stmts) + UsedInBlocks(bs[1..])
  }

  function UsedNames(f: Function_): set<string> {
    Elems(f.params) + UsedInBlock(f.body)
  }

  // ---- renaming and scopes ---------------------------------------------------

  /** A mapping to new names: no two keys share one, none is a key, and none occurs in `names`. */
  ghost predicate Fresh(m: Mapping, names: set<string>) {
    && (forall x, y :: x in m && y in m && m[x] == m[y] ==> x == y)
    && (forall x <- m :: m[x] !in m && m[x] !in names)
  }

  /** A name keeps its place in the renamed scope; only a free name that is renamed changes. */
  lemma {:induction false} FindRenamed(scope: seq<string>, x: string, m: Mapping)
    requires Fresh(m, Elems(scope) + {x})
    ensures Find(RenameNames(scope, m), App(m, x)) == Find(scope, x) <==> x in scope || x !in m
    decreases |scope|
  {
    if scope != [] {
      assert forall y :: y in scope[1..] ==> y in Elems(scope);
      assert scope[0] in Elems(scope);
      FindRenamed(scope[1..], x, m);
      assert RenameNames(scope, m)[1..] == RenameNames(scope[1..], m);
      assert App(m, scope[0]) == App(m, x) <==> scope[0] == x;
    }
  }

  lemma FreshLess(m: Mapping, names: set<string>, fewer: set<string>)
    requires Fresh(m, names) && fewer <= names
    ensures Fresh(m, fewer)
  {}

  lemma {:induction false} TreeRenamed(t: Tree, scope: seq<string>, m: Mapping)
    requires Fresh(m, Elems(scope) + Used(t))
    ensures Resolve(Rename(t, m), RenameNames(scope, m)) == Resolve(t, scope) <==> Free(t, scope) !! m.Keys
    decreases t
  {
    hide Fresh, Elems;
    FreshLess(m, Elems(scope) + Used(t), Elems(scope) + UsedInAll(t.kids));
    AllRenamed(t.kids, scope, m);
    if UsesName(t.shape) {
      FreshLess(m, Elems(scope) + Used(t), Elems(scope) + {t.name});
      FindRenamed(scope, t.name, m);
    }
  }

  lemma {:induction false} AllRenamed(ts: seq<Tree>, scope: seq<string>, m: Mapping)
    requires Fresh(m, Elems(scope) + UsedInAll(ts))
    ensures ResolveAll(RenameAll(ts, m), RenameNames(scope, m)) == ResolveAll(ts, scope) <==> FreeInAll(ts, scope) !! m.Keys
    decreases ts
  {
    hide Fresh, Elems, Rename, Resolve, Free, Used;
    if ts != [] {
      assert ts decreases to ts[0];
      FreshLess(m, Elems(scope) + UsedInAll(ts), Elems(scope) + Used(ts[0]));
      FreshLess(m, Elems(scope) + UsedInAll(ts), Elems(scope) + UsedInAll(ts[1..]));
      TreeRenamed(ts[0], scope, m);
      AllRenamed(ts[1..], scope, m);
      assert RenameAll(ts, m)[1..] == RenameAll(ts[1..], m);
      ConsEqual(Resolve(Rename(ts[0], m), RenameNames(scope, m)), ResolveAll(RenameAll(ts[1..], m), RenameNames(scope, m)),
                Resolve(ts[0], scope), ResolveAll(ts[1..], scope));
    }
  }

  lemma ConsEqual<T>(x: T, xs: seq<T>, y: T, ys: seq<T>)
    ensures [x] + xs == [y] + ys <==> x == y && xs == ys
  {
    if [x] + xs == [y] + ys {
      assert x == ([x] + xs)[0] == ([y] + ys)[0] == y;
      assert xs == ([x] + xs)[1..] == ([y] + ys)[1..] == ys;
    }
  }

  lemma RenamePushed(x: string, scope: seq<string>, m: Mapping)
    ensures RenameNames([x] + scope, m) == [App(m, x)] + RenameNames(scope, m)
    ensures Elems([x] + scope) == {x} + Elems(scope)
  {
    assert ([x] + scope)[1..] == scope;
  }

  lemma {:induction false} StmtRenamed(s: Stmt, scope: seq<string>, m: Mapping)
    requires Fresh(m, Elems(scope) + UsedInStmt(s))
    ensures ResolveStmt(RenameStmt(s, m), RenameNames(scope, m)) == ResolveStmt(s, scope) <==> FreeInStmt(s, scope) !! m.Keys
    decreases s
  {
    hide Fresh, Elems, RenameNames;
    var inner := Inner(s, scope);
    RenamePushed(s.name, scope, m);
    FreshLess(m, Elems(scope) + UsedInStmt(s), Elems(scope) + UsedInAll(s.exprs));
    FreshLess(m, Elems(scope) + UsedInStmt(s), Elems(inner) + UsedInBlocks(s.blocks));
    AllRenamed(s.exprs, scope, m);
    BlocksRenamed(s.blocks, inner, m);
  }

  lemma {:induction false} BlockRenamed(ss: seq<Stmt>, scope: seq<string>, m: Mapping)
    requires Fresh(m, Elems(scope) + UsedInBlock(ss))
    ensures ResolveBlock(RenameBlock(ss, m), RenameNames(scope, m)) == ResolveBlock(ss, scope) <==> FreeInBlock(ss, scope) !! m.Keys
    decreases ss
  {
    hide Fresh, Elems, RenameNames, ResolveStmt, FreeInStmt;
    if ss != [] {
      assert ss decreases to ss[0];
      var after := After(ss[0], scope);
      RenamePushed(ss[0].name, scope, m);
      FreshLess(m, Elems(scope) + UsedInBlock(ss), Elems(scope) + UsedInStmt(ss[0]));
      FreshLess(m, Elems(scope) + UsedInBlock(ss), Elems(after) + UsedInBlock(ss[1..]));
      StmtRenamed(ss[0], scope, m);
      BlockRenamed(ss[1..], after, m);
      assert RenameBlock(ss, m)[1..] == RenameBlock(ss[1..], m);
      ConsEqual(ResolveStmt(RenameStmt(ss[0], m), RenameNames(scope, m)),
                ResolveBlock(RenameBlock(ss[1..], m), RenameNames(after, m)),
                ResolveStmt(ss[0], scope), ResolveBlock(ss[1..], after));
    }
  }

  lemma {:induction false} BlocksRenamed(bs: seq<Block>, scope: seq<string>, m: Mapping)
    requires Fresh(m, Elems(scope) + UsedInBlocks(bs))
    ensures ResolveBlocks(RenameBlocks(bs, m), RenameNames(scope, m)) == ResolveBlocks(bs, scope) <==> FreeInBlocks(bs, scope) !! m.Keys
    decreases bs
  {
    hide Fresh, Elems, RenameNames, ResolveBlock, FreeInBlock, UsedInBlock, RenameBlock;
    if bs != [] {
      assert bs decreases to bs[0];
      FreshLess(m, Elems(scope) + UsedInBlocks(bs), Elems(scope) + UsedInBlock(bs[0].stmts));
      FreshLess(m, Elems(scope) + UsedInBlocks(bs), Elems(scope) + UsedInBlocks(bs[1..]));
      BlockRenamed(bs[0].stmts, scope, m);
      BlocksRenamed(bs[1..], scope, m);
      assert RenameBlocks(bs, m)[1..] == RenameBlocks(bs[1..], m);
      ConsEqual(ResolvedBlock(ResolveBlock(RenameBlock(bs[0].stmts, m), RenameNames(scope, m))),
                ResolveBlocks(RenameBlocks(bs[1..], m), RenameNames(scope, m)),
                ResolvedBlock(ResolveBlock(bs[0].stmts, scope)), ResolveBlocks(bs[1..], scope));
    }
  }

  // ---- the function ----------------------------------------------------------

  /** The names that the renaming is about to introduce do not occur in the function. */
  predicate NewNamesUnused(f: Function_) {
    forall x <- Locals(f) :: x in C_RESERVED ==> SafeLocal(x) !in UsedNames(f)
  }

  lemma MappingIsFresh(f: Function_)
    requires NewNamesUnused(f)
    ensures Fresh(MappingFor(Locals(f)), UsedNames(f))
  {
    var m := MappingFor(Locals(f));
    forall x | x in m ensures m[x] !in m && m[x] !in UsedNames(f) {
      SafeIsNotReserved(x);
    }
    forall x, y | x in m && y in m && m[x] == m[y] ensures x == y {
      assert (PREFIX + x)[|PREFIX|..] == x && (PREFIX + y)[|PREFIX|..] == y;
    }
  }

  /** Sanitizing leaves the function meaning what it meant if and only if no keyword that is the name
      of a local is also used outside that local's scope, where it stands for a global or function. */
  lemma SanitizeKeepsMeaning(f: Function_)
    requires NewNamesUnused(f)
    ensures ResolveFunction(Sanitize(f)) == ResolveFunction(f) <==> FreeNames(f) !! (Locals(f) * C_RESERVED)
  {
    var m := MappingFor(Locals(f));
    assert m.Keys == Locals(f) * C_RESERVED;
    MappingIsFresh(f);
    BlockRenamed(f.body, f.params, m);
  }

  /** fn (int) { let <x> = ...; return int; } */
  function Capturing(x: string): Function_ {
    Function_(["int"], [Stmt(LetStmt, x, [], []), Stmt(ReturnStmt, "", [Tree(NameExpr, "int", [])], [])])
  }

  /** What is returned there is the parameter, unless the other local has its name. */
  lemma CapturingReturns(x: string, n: string)
    ensures var body := [Stmt(LetStmt, x, [], []), Stmt(ReturnStmt, "", [Tree(NameExpr, n, [])], [])];
            && ResolveBlock(body, [n])[1].exprs == [Resolved(NameExpr, Slot(if x == n then 0 else 1), [])]
            && FreeInBlock(body, [n]) == {}
            && x in UsedInBlock(body)
  {
    var use := Tree(NameExpr, n, []);
    var ret := Stmt(ReturnStmt, "", [use], []);
    var body := [Stmt(LetStmt, x, [], []), ret];
    assert body[1..] == [ret] && After(body[0], [n]) == [x, n];
    assert Find([x, n][1..], n) == Slot(0);
    assert Find([x, n], n) == Slot(if x == n then 0 else 1);
    assert ResolveAll([use], [x, n]) == [Resolve(use, [x, n])];
    assert ResolveBlock([ret], [x, n]) == [ResolveStmt(ret, [x, n])];
    assert [ret][1..] == [] && [use][1..] == [];
    assert Free(use, [x, n]) == {} && FreeInAll([use], [x, n]) == {};
    FreeInNothing([x, n]);
    assert FreeInStmt(ret, [x, n]) == {};
    assert FreeInBlock([ret], [x, n]) == FreeInStmt(ret, [x, n]) + FreeInBlock([ret][1..], [x, n]);
    assert FreeInStmt(body[0], [n]) == FreeInAll([], [n]) + FreeInBlocks([], [n]);
    FreeInNothing([n]);
    assert FreeInBlock([ret], [x, n]) == {};
    assert FreeInBlock(body, [n]) == FreeInStmt(body[0], [n]) + FreeInBlock([ret], [x, n]);
    assert x in UsedInStmt(body[0]);
  }

  lemma FreeInNothing(scope: seq<string>)
    ensures FreeInAll([], scope) == {} && FreeInBlock([], scope) == {} && FreeInBlocks([], scope) == {}
  {}

  lemma CapturingRenamed(x: string, m: Mapping)
    requires "int" in m && m["int"] == x && x !in m
    ensures RenameFunction(Capturing(x), m)
         == Function_([x], [Stmt(LetStmt, x, [], []), Stmt(ReturnStmt, "", [Tree(NameExpr, x, [])], [])])
  {
    var use, use' := Tree(NameExpr, "int", []), Tree(NameExpr, x, []);
    assert [use][1..] == [] && Rename(use, m) == use';
    assert RenameAll([use], m) == [use'] + RenameAll([], m) == [use'];
    var let_ := Stmt(LetStmt, x, [], []);
    var ret, ret' := Stmt(ReturnStmt, "", [use], []), Stmt(ReturnStmt, "", [use'], []);
    assert [ret][1..] == [] && RenameStmt(ret, m) == ret' && RenameStmt(let_, m) == let_;
    assert RenameBlock([ret], m) == [ret'] + RenameBlock([], m) == [ret'];
    assert Capturing(x).body[1..] == [ret];
    assert RenameBlock(Capturing(x).body, m) == [let_] + RenameBlock([ret], m);
    assert ["int"][1..] == [] && RenameNames(["int"], m) == [x] + RenameNames([], m);
  }

  /** The new names must not occur already: a local of that name captures the renamed one. */
  lemma NewNamesMatter()
    ensures var f := Capturing(PREFIX + "int");
            && FreeNames(f) == {} && !NewNamesUnused(f)
            && ResolveFunction(Sanitize(f)) != ResolveFunction(f)
  {
    hide ResolveBlock, FreeInBlock, UsedInBlock, RenameBlock, RenameFunction;
    var x := PREFIX + "int";
    var f := Capturing(x);
    assert "int" in Locals(f) by { assert "int" in Elems(["int"]); }
    var m := MappingFor(Locals(f));
    assert m["int"] == SafeLocal("int") == x;
    SafeIsNotReserved("int");
    assert |x| > |"int"|;
    CapturingReturns(x, "int");
    CapturingReturns(x, x);
    CapturingRenamed(x, m);
  }
}
