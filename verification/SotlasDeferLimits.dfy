/** Two bodies that lowering changes, run under an interpretation that shows what they print: one whose
    exit captures a name, and one with a defer in a nested block. */
module SotlasDeferLimits {
  import opened Options
  import opened SotlasTokens
  import opened SotlasParsing
  import opened SotlasDefer
  import opened SotlasDeferSound
  import opened SotlasDeferTheorem

  function Variable(x: string): Expr {
    Expr.Ident(x, [])
  }

  function Number(n: string): Expr {
    Literal(IntLit, n)
  }

  /** A call that shows its argument to the world. */
  function Show(e: Expr): Stmt {
    Do(Value(Call(Variable("show"), [Arg(None, e)])))
  }

  /** Calls with one variable append its value to the world; the literal 0 is false. */
  function Display(item: Item, locals: map<string, int>, world: seq<int>): Reply<int, seq<int>> {
    if item.Store? then Reply(0, map[], world, false)
    else if item.e.Ident? then
      Reply(if item.e.path == [] && item.e.name in locals then locals[item.e.name] else 7, map[], world, false)
    else if item.e.Call? && |item.e.args| == 1 && item.e.args[0].value.Ident? && item.e.args[0].value.name in locals then
      Reply(0, map[], world + [locals[item.e.args[0].value.name]], false)
    else if item.e.Literal? && item.e.text == "0" then Reply(0, map[], world, false)
    else Reply(1, map[], world, false)
  }

  function Displaying(): Interp<int, seq<int>> {
    Interp(Display, v => v != 0)
  }

  lemma DisplayingReadsTemporary()
    ensures ReadsTemporary(Displaying())
  {}

  lemma ShowStep(x: string, env: Env<int>, w: seq<int>, limit: nat)
    requires x in Scope(env)
    ensures Step(Displaying(), Show(Variable(x)), env, w, limit) == Result(Normal, env, w + [Lookup(env, x)])
  {
    hide Scope, Lookup, Update, Keeps, Trim;
    var item := Value(Call(Variable("show"), [Arg(None, Variable(x))]));
    assert NamesOfArgs([Arg(None, Variable(x))]) == {x};
    assert x in View(env, ItemNames(item));
    UpdateElsewhere(env, map[]);
  }

  lemma NumberStep(decl: string, x: string, n: string, env: Env<int>, w: seq<int>, limit: nat)
    ensures Step(Displaying(), Let(decl, x, Number(n)), env, w, limit)
         == Result(Normal, [Binding(x, if n == "0" then 0 else 1)] + env, w)
  {
    hide Scope, Lookup, Update, Keeps, Trim;
    UpdateElsewhere(env, map[]);
  }

  lemma ExecShow(x: string, env: Env<int>, w: seq<int>, limit: nat)
    requires x in Scope(env)
    ensures Exec(Displaying(), [Show(Variable(x))], env, w, [], limit) == Result(Normal, env, w + [Lookup(env, x)])
  {
    ShowStep(x, env, w, limit);
    ExecOne(Displaying(), Show(Variable(x)), env, w, limit);
  }

  const SHOW_X: seq<Stmt> := [Show(Variable("x"))]

  /** `defer show(x)` and then a newer `x` in scope at a return: the copy shows the newer one. */
  const SHADOWED: seq<Stmt> := [Defer(SHOW_X), Let("int", "x", Number("1")), Return(None)]

  lemma ShadowingMatters(limit: nat)
    ensures var params := [Binding("x", 5)];
            && Observe(Displaying(), SHADOWED, params, [], limit) == Outcome(Returned(None), [5])
            && Observe(Displaying(), LowerBody(SHADOWED), params, [], limit) == Outcome(Returned(None), [1])
            && ReadsTemporary(Displaying()) && TopLevel(SHADOWED) && !SafeBody(SHADOWED, Scope(params), [])
  {
    DisplayingReadsTemporary();
    ShadowedIsTopLevel();
    SourceShows(limit);
    CopyShows(limit);
  }

  lemma SourceShows(limit: nat)
    ensures Observe(Displaying(), SHADOWED, [Binding("x", 5)], [], limit) == Outcome(Returned(None), [5])
  {
    hide Exec, Step, Scope, Lookup, RunDefers, Displaying, Trim, Keeps, Base;
    var I := Displaying();
    var params := [Binding("x", 5)];
    var deep := [Binding("x", 1)] + params;
    var ds := [Registered(SHOW_X, 1)];
    ExecDefer(I, SHADOWED, params, [], [], limit);
    assert ds == [Registered(SHOW_X, |params|)] + [];
    var rest := SHADOWED[1..];
    assert rest[0] == Let("int", "x", Number("1")) && rest[1..] == [Return(None)];
    NumberStep("int", "x", "1", params, [], limit);
    ExecStep(I, rest, params, [], ds, limit);
    ReturnStep(I, deep, [], ds, limit);
    RunDefersFirst(I, ds, Returned(None), deep, [], limit);
    OldestOf(deep, params);
    LookupFirst(params);
    ExecShow("x", params, [], limit);
    NoDefers(I, Returned(None), params, [5], limit);
    assert [] + [5] == [5];
  }

  lemma OldestOf(deep: Env<int>, params: Env<int>)
    requires |params| == 1 && |deep| == 2 && deep[1] == params[0]
    ensures Trim(deep, 1) == params
  {}

  lemma ReturnStep<V, W>(I: Interp<V, W>, env: Env<V>, w: W, ds: seq<Registered>, limit: nat)
    requires Stacked(ds, |env|)
    ensures Exec(I, [Return(None)], env, w, ds, limit) == RunDefers(I, ds, Returned(None), env, w, limit)
  {
    hide RunDefers;
  }

  lemma CopyShows(limit: nat)
    ensures Observe(Displaying(), LowerBody(SHADOWED), [Binding("x", 5)], [], limit) == Outcome(Returned(None), [1])
    ensures !SafeBody(SHADOWED, Scope([Binding("x", 5)]), [])
  {
    hide Exec, Step, Lookup, RunDefers, Displaying, Trim, Keeps, Base, LowerBody;
    var I := Displaying();
    var params := [Binding("x", 5)];
    var deep := [Binding("x", 1)] + params;
    var code := [Let("int", "x", Number("1")), Show(Variable("x")), Return(None), Show(Variable("x"))];
    LoweredShadowed();
    NumberStep("int", "x", "1", params, [], limit);
    ExecCons(I, code, params, [], limit);
    LookupFirst(deep);
    var rest := [Return(None), Show(Variable("x"))];
    assert code[1..] == [Show(Variable("x"))] + rest;
    ExecConcat(I, [Show(Variable("x"))], rest, deep, [], limit);
    ExecShow("x", deep, [], limit);
    assert [] + [1] == [1];
    ReturnCons(I, rest, deep, [1], limit);
    ShadowedIsUnsafe();
  }

  lemma ReturnCons<V, W>(I: Interp<V, W>, ss: seq<Stmt>, env: Env<V>, w: W, limit: nat)
    requires ss != [] && ss[0] == Return(None)
    ensures Exec(I, ss, env, w, [], limit) == Result(Returned(None), env, w)
  {
    ExecCons(I, ss, env, w, limit);
  }

  lemma LoweredShadowed()
    ensures LowerBody(SHADOWED) == [Let("int", "x", Number("1")), Show(Variable("x")), Return(None), Show(Variable("x"))]
  {
    var rest := SHADOWED[1..];
    var stack := [SHOW_X];
    assert rest[0] == Let("int", "x", Number("1")) && rest[1..] == [Return(None)];
    LowerReturn(stack);
    LowerDefer(SHOW_X, []);
    assert Lower(rest, stack) == ([rest[0]] + (SHOW_X + [Return(None)]), stack);
    assert SHADOWED[0] == Defer(SHOW_X) && [SHOW_X] + [] == stack;
    assert Lower(SHADOWED, []).0 == [] + Lower(rest, stack).0 && Lower(SHADOWED, []).1 == stack;
  }

  lemma LowerDefer(body: seq<Stmt>, stack: seq<seq<Stmt>>)
    ensures LowerStmt(Defer(body), stack) == ([], [body] + stack)
    ensures Lower([Defer(body)], stack) == ([], [body] + stack)
  {
    assert [Defer(body)][1..] == [];
    var none: seq<Stmt> := [];
    assert none + none == none;
    assert Lower([], [body] + stack) == (none, [body] + stack);
  }

  lemma LowerEmpty(stack: seq<seq<Stmt>>)
    ensures Lower([], stack) == ([], stack)
  {}

  lemma LowerReturn(stack: seq<seq<Stmt>>)
    requires stack == [SHOW_X]
    ensures Lower([Return(None)], stack) == (SHOW_X + [Return(None)], stack) && Inline(stack) == SHOW_X
  {
    assert stack[1..] == [] && Inline([]) == [];
    assert Inline(stack) == SHOW_X + [] == SHOW_X;
    var code := SHOW_X + [Return(None)];
    assert LowerStmt(Return(None), stack).0 == Inline(stack) + [Return(None)] == code;
    var none: seq<Stmt> := [];
    assert [Return(None)][1..] == none;
    LowerEmpty(stack);
    assert code + [] == code;
  }

  lemma ShadowedIsTopLevel()
    ensures TopLevel(SHADOWED)
  {
    assert SHOW_X[1..] == [];
    assert IsPlain(SHOW_X);
  }

  lemma ShowTakesX()
    ensures "x" in Free(SHOW_X)
  {
    assert NamesOfArgs([Arg(None, Variable("x"))]) == {"x"};
    assert "x" in FreeStmt(SHOW_X[0]);
  }

  lemma NewerIsCaptured()
    ensures Stacked([Registered(SHOW_X, 1)], 2) && !Clear(["x", "x"], [Registered(SHOW_X, 1)], {})
  {
    hide Free;
    ShowTakesX();
    var names, ds := ["x", "x"], [Registered(SHOW_X, 1)];
    assert names[..|names| - 1] == ["x"] && "x" in Elems(["x"]);
    assert ds[0].body == SHOW_X;
  }

  lemma ShadowedIsUnsafe()
    ensures !SafeBody(SHADOWED, Scope([Binding("x", 5)]), [])
  {
    hide Clear, Free, FreeStmt;
    var names := ["x"];
    var rest := SHADOWED[1..];
    var ds := [Registered(SHOW_X, 1)];
    assert Scope([Binding("x", 5)]) == names;
    assert ds == [Registered(SHOW_X, |names|)] + [];
    assert rest[0] == Let("int", "x", Number("1")) && rest[1..] == [Return(None)];
    NewerIsCaptured();
    var deep := ["x"] + names;
    assert deep == ["x", "x"];
    assert !SafeBody([Return(None)], deep, ds);
    assert !SafeBody(rest, names, ds);
  }

  /** A defer in a block that is never entered: the copies at later returns run it all the same. */
  const NESTED: seq<Stmt> := [If(Number("0"), [Defer(SHOW_X)], Nothing), Return(None)]

  /** The language has the defer of a block run when that block is left; the emitter keeps one stack
      for the whole function. */
  lemma NestingMatters(limit: nat)
    ensures var params := [Binding("x", 5)];
            && Observe(Displaying(), NESTED, params, [], limit) == Outcome(Returned(None), [])
            && Observe(Displaying(), LowerBody(NESTED), params, [], limit) == Outcome(Returned(None), [5])
            && ReadsTemporary(Displaying()) && !TopLevel(NESTED)
  {
    hide Exec, Block, Step, Scope, Lookup, RunDefers, Displaying, Trim, Keeps, Base, LowerBody;
    var I := Displaying();
    var params := [Binding("x", 5)];
    ZeroSkips([Defer(SHOW_X)], params, [], limit);
    ExecCons(I, NESTED, params, [], limit);
    assert NESTED[1..] == [Return(None)];
    ReturnCons(I, [Return(None)], params, [], limit);
    LoweredNested();
    var code := LowerBody(NESTED);
    ZeroSkips([], params, [], limit);
    ExecCons(I, code, params, [], limit);
    var rest := [Return(None), Show(Variable("x"))];
    assert code[1..] == [Show(Variable("x"))] + rest;
    ExecConcat(I, [Show(Variable("x"))], rest, params, [], limit);
    LookupFirst(params);
    ExecShow("x", params, [], limit);
    assert [] + [5] == [5];
    ReturnCons(I, rest, params, [5], limit);
    DisplayingReadsTemporary();
    NestedIsNotTopLevel();
  }

  lemma NestedIsNotTopLevel()
    ensures !TopLevel(NESTED)
  {
    var inner := [Defer(SHOW_X)];
    assert inner[0] == Defer(SHOW_X) && UseOf(inner).defer_;
    assert NESTED[0] in NESTED;
  }

  lemma ZeroSkips(ss: seq<Stmt>, env: Env<int>, w: seq<int>, limit: nat)
    ensures Step(Displaying(), If(Number("0"), ss, Nothing), env, w, limit) == Result(Normal, env, w)
  {
    UpdateElsewhere(env, map[]);
  }

  lemma LoweredNested()
    ensures LowerBody(NESTED) == [If(Number("0"), [], Nothing), Show(Variable("x")), Return(None), Show(Variable("x"))]
  {
    var stack := [SHOW_X];
    assert NESTED[1..] == [Return(None)];
    LowerReturn(stack);
    LowerDefer(SHOW_X, []);
    assert [SHOW_X] + [] == stack;
    assert LowerStmt(NESTED[0], []) == ([If(Number("0"), [], Nothing)], stack);
    assert Lower(NESTED, []).0 == [If(Number("0"), [], Nothing)] + (SHOW_X + [Return(None)]);
    assert Lower(NESTED, []).1 == stack;
  }
}
