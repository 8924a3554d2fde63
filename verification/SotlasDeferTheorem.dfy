/** The emitted body means what the source body means, defers included. */
module SotlasDeferTheorem {
  import opened Options
  import opened SotlasTokens
  import opened SotlasParsing
  import opened SotlasDefer
  import opened SotlasDeferSound

  // ---- lists without defers --------------------------------------------------

  predicate NoDefer(ss: seq<Stmt>) {
    forall s <- ss :: !s.Defer?
  }

  lemma {:induction false} ExecConcat<V, W>(I: Interp<V, W>, a: seq<Stmt>, b: seq<Stmt>, env: Env<V>, w: W, limit: nat)
    requires NoDefer(a)
    ensures var r := Exec(I, a, env, w, [], limit);
            Exec(I, a + b, env, w, [], limit) == if r.flow.Normal? then Exec(I, b, r.env, r.world, [], limit) else r
    decreases |a|
  {
    hide Step, Scope, Exec;
    if a == [] {
      assert a + b == b;
      ExecEmpty(I, env, w, limit);
    } else {
      assert (a + b)[1..] == a[1..] + b && (a + b)[0] == a[0];
      ExecCons(I, a, env, w, limit);
      ExecCons(I, a + b, env, w, limit);
      var r := Step(I, a[0], env, w, limit);
      ExecConcat(I, a[1..], b, r.env, r.world, limit);
    }
  }

  /** A list that ends normally has pushed exactly the names it declares. */
  lemma {:induction false} ExecScope<V, W>(I: Interp<V, W>, ss: seq<Stmt>, env: Env<V>, w: W, limit: nat)
    requires NoDefer(ss)
    ensures var r := Exec(I, ss, env, w, [], limit);
            r.flow.Normal? ==> Scope(r.env) == DeclaredBy(ss) + Scope(env)
    decreases |ss|
  {
    hide Step, Scope, Exec, NamesAfter;
    if ss == [] {
      ExecEmpty(I, env, w, limit);
    } else {
      ExecCons(I, ss, env, w, limit);
      StepScope(I, ss[0], env, w, limit);
      var r := Step(I, ss[0], env, w, limit);
      if r.flow.Normal? {
        TailHasNoDefer(ss);
        ExecScope(I, ss[1..], r.env, r.world, limit);
        NamesPushed(ss, Scope(env));
      }
    }
  }

  lemma TailHasNoDefer(ss: seq<Stmt>)
    requires NoDefer(ss) && ss != []
    ensures NoDefer(ss[1..]) && !ss[0].Defer?
  {}

  lemma NamesPushed(ss: seq<Stmt>, names: seq<string>)
    requires ss != []
    ensures DeclaredBy(ss[1..]) + NamesAfter(ss[0], names) == DeclaredBy(ss) + names
  {}

  // ---- running the defers ----------------------------------------------------

  ghost predicate SameOutcome<V, W>(a: Result<V, W>, b: Result<V, W>) {
    a.flow == b.flow && a.world == b.world
  }

  /** The defers see nothing above the scope they were registered in. */
  lemma RunDefersTrim<V, W>(I: Interp<V, W>, ds: seq<Registered>, flow: Flow<V>, env: Env<V>, w: W, limit: nat, n: nat)
    requires n <= |env| && Stacked(ds, n)
    ensures Stacked(ds, |env|)
    ensures SameOutcome(RunDefers(I, ds, flow, Trim(env, n), w, limit), RunDefers(I, ds, flow, env, w, limit))
  {
    hide Exec, Scope, Keeps, Base;
    StackedDeeper(ds, n, |env|);
    if ds != [] {
      assert Trim(Trim(env, n), ds[0].height) == Trim(env, ds[0].height);
    }
  }

  lemma {:induction false} RunDefersFlow<V, W>(I: Interp<V, W>, ds: seq<Registered>, flow: Flow<V>, env: Env<V>, w: W, limit: nat)
    requires Stacked(ds, |env|) && AllPlain(ds)
    ensures var r := RunDefers(I, ds, flow, env, w, limit);
            r.flow == flow || r.flow.Halted? || r.flow.OutOfSteps?
    decreases |ds|
  {
    hide Exec, Scope;
    if ds != [] {
      var inner := Trim(env, ds[0].height);
      ExecFlow(I, ds[0].body, inner, w, limit);
      var r := Exec(I, ds[0].body, inner, w, [], limit);
      if r.flow.Normal? {
        StackedDeeper(ds[1..], |inner|, |r.env|);
        RunDefersFlow(I, ds[1..], flow, r.env, r.world, limit);
      }
    }
  }

  function Bodies(ds: seq<Registered>): seq<seq<Stmt>> {
    if ds == [] then [] else [ds[0].body] + Bodies(ds[1..])
  }

  lemma {:induction false} PlainHasNoDefer(ss: seq<Stmt>)
    requires !UseOf(ss).defer_
    ensures NoDefer(ss)
    decreases |ss|
  {
    if ss != [] {
      PlainHasNoDefer(ss[1..]);
      assert forall s <- ss :: s == ss[0] || s in ss[1..];
    }
  }

  /** The first of the defers is clear of the gap, and the rest are once it has run. */
  lemma ClearFirst<V>(ds: seq<Registered>, env: Env<V>, G: Env<V>)
    requires ds != [] && Stacked(ds, |env|) && Clear(Scope(env), ds, Elems(Scope(G)))
    ensures var h := ds[0].height;
            var G0 := G + env[..|env| - h];
            && Apart(Free(ds[0].body), Trim(env, h), G0, h)
            && Clear(Scope(Trim(env, h)), ds[1..], Elems(DeclaredBy(ds[0].body) + Scope(G0)))
  {
    hide Scope, Lookup, Free, DeclaredBy, Elems;
    var h := ds[0].height;
    var mid := env[..|env| - h];
    LookupAppend(G, mid, "");
    assert Scope(mid) == Scope(env)[..|env| - h];
    assert Scope(Trim(env, h)) == Trim(Scope(env), h);
    ElemsAppend(Scope(G), Scope(mid));
    ElemsAppend(DeclaredBy(ds[0].body), Scope(G + mid));
    GapIsClear(Free(ds[0].body), env, G, h);
  }

  lemma ElemsAppend(a: seq<string>, b: seq<string>)
    ensures Elems(a + b) == Elems(a) + Elems(b) == Elems(b) + Elems(a)
  {}

  lemma GapIsClear<V>(names: set<string>, env: Env<V>, G: Env<V>, h: nat)
    requires h <= |env| && names !! Elems(Scope(G)) + Elems(Scope(env)[..|env| - h])
    ensures Apart(names, Trim(env, h), G + env[..|env| - h], h)
  {
    hide Scope, Lookup;
    var mid := env[..|env| - h];
    LookupAppend(G, mid, "");
    assert Scope(mid) == Scope(env)[..|env| - h];
    forall x <- names ensures x !in Scope(G + mid) {
      assert x !in Elems(Scope(G)) && x !in Elems(Scope(mid));
    }
  }

  lemma ScopeSplit<V>(env: Env<V>, top: seq<string>, bottom: seq<string>)
    requires Scope(env) == top + bottom
    ensures |env| == |top| + |bottom| && Scope(env[..|top|]) == top && Scope(Trim(env, |bottom|)) == bottom
  {
    assert |Scope(env)| == |env|;
  }

  /** What the copied defers leave: the environment at the exit, with bindings put in above and
      below the gap G but G itself as it was. */
  ghost predicate Around<V>(env: Env<V>, above: Env<V>, G: Env<V>, below: Env<V>) {
    env == above + (G + below)
  }

  predicate DeclaredIn(names: seq<string>, ds: seq<Registered>) {
    forall x <- names :: exists d <- ds :: x in DeclaredBy(d.body)
  }

  /** The copied code of the defers, run with bindings G in the way, has the same effect as running
      the defers, each in its own scope. */
  lemma {:induction false} InlineSound<V, W>(I: Interp<V, W>, ds: seq<Registered>, flow: Flow<V>, env: Env<V>, G: Env<V>, w: W, limit: nat)
      returns (above: Env<V>, below: Env<V>)
    requires Stacked(ds, |env|) && AllPlain(ds) && Clear(Scope(env), ds, Elems(Scope(G)))
    ensures var r := RunDefers(I, ds, flow, env, w, limit);
            var t := Exec(I, Inline(Bodies(ds)), G + env, w, [], limit);
            if t.flow.Normal? then
              r.flow == flow && r.world == t.world && Around(t.env, above, G, below)
              && DeclaredIn(Scope(above), ds)
            else SameOutcome(t, r)
    decreases |ds|, 1
  {
    hide Exec, Scope, Clear, Elems, Apart, Insert;
    if ds == [] {
      above, below := [], env;
      assert G + env == [] + (G + env);
      ExecEmpty(I, G + env, w, limit);
    } else {
      above, below := InlineFirst(I, ds, flow, env, G, w, limit);
    }
  }

  lemma GapBelow<V>(env: Env<V>, G: Env<V>, h: nat)
    requires h <= |env|
    ensures G + env == Insert(Trim(env, h), G + env[..|env| - h], h)
  {
    assert Trim(env, h)[..0] == [] && Trim(Trim(env, h), h) == Trim(env, h);
    assert env == env[..|env| - h] + Trim(env, h);
  }

  lemma GapAbove<V>(env: Env<V>, G: Env<V>, n: nat)
    requires n <= |env|
    ensures Insert(env, G, n) == (env[..|env| - n] + G) + Trim(env, n)
  {}

  lemma Regroup<V>(above: Env<V>, top: Env<V>, G: Env<V>, mid: Env<V>, below: Env<V>)
    ensures above + ((top + (G + mid)) + below) == (above + top) + (G + (mid + below))
  {}

  lemma RunDefersFirst<V, W>(I: Interp<V, W>, ds: seq<Registered>, flow: Flow<V>, env: Env<V>, w: W, limit: nat)
    requires ds != [] && Stacked(ds, |env|)
    ensures var r := Exec(I, ds[0].body, Trim(env, ds[0].height), w, [], limit);
            && ds[0].height <= |r.env| && Stacked(ds[1..], |r.env|)
            && RunDefers(I, ds, flow, env, w, limit) == if r.flow.Normal? then RunDefers(I, ds[1..], flow, r.env, r.world, limit) else r
  {
    hide Exec, Scope;
    StackedDeeper(ds[1..], ds[0].height, |Exec(I, ds[0].body, Trim(env, ds[0].height), w, [], limit).env|);
  }

  lemma {:induction false} InlineFirst<V, W>(I: Interp<V, W>, ds: seq<Registered>, flow: Flow<V>, env: Env<V>, G: Env<V>, w: W, limit: nat)
      returns (above: Env<V>, below: Env<V>)
    requires ds != [] && Stacked(ds, |env|) && AllPlain(ds) && Clear(Scope(env), ds, Elems(Scope(G)))
    ensures var r := RunDefers(I, ds, flow, env, w, limit);
            var t := Exec(I, Inline(Bodies(ds)), G + env, w, [], limit);
            if t.flow.Normal? then
              r.flow == flow && r.world == t.world && Around(t.env, above, G, below)
              && DeclaredIn(Scope(above), ds)
            else SameOutcome(t, r)
    decreases |ds|, 0
  {
    hide Exec, Scope, Clear, Elems, Apart, Insert, Free, DeclaredBy, Step, RunDefers, Keeps, Base;
    RunDefersFirst(I, ds, flow, env, w, limit);
    var body, h := ds[0].body, ds[0].height;
    var inner := Trim(env, h);
    var G0 := G + env[..|env| - h];
    var rest := Inline(Bodies(ds[1..]));
    PlainHasNoDefer(body);
    ClearFirst(ds, env, G);
    GapBelow(env, G, h);
    ExecGap(I, body, inner, w, limit, G0, h);
    ExecFlow(I, body, inner, w, limit);
    ExecConcat(I, body, rest, G + env, w, limit);
    assert Inline(Bodies(ds)) == body + rest;
    var r := Exec(I, body, inner, w, [], limit);
    if r.flow.Normal? {
      ExecScope(I, body, inner, w, limit);
      ScopeSplit(r.env, DeclaredBy(body), Scope(inner));
      var top := r.env[..|r.env| - h];
      LookupAppend(top, G0, "");
      GapAbove(r.env, G0, h);
      var above1, below1 := InlineSound(I, ds[1..], flow, Trim(r.env, h), top + G0, r.world, limit);
      RunDefersTrim(I, ds[1..], flow, r.env, r.world, limit, h);
      above, below := above1 + top, env[..|env| - h] + below1;
      Regroup(above1, top, G, env[..|env| - h], below1);
      LookupAppend(above1, top, "");
      if DeclaredIn(Scope(above1), ds[1..]) {
        NamesAround(ds, Scope(above1), DeclaredBy(body));
      }
    } else {
      above, below := [], [];
    }
  }

  lemma NamesAround(ds: seq<Registered>, newer: seq<string>, own: seq<string>)
    requires ds != [] && own == DeclaredBy(ds[0].body)
    requires DeclaredIn(newer, ds[1..])
    ensures DeclaredIn(newer + own, ds)
  {
    forall x | x in newer + own ensures exists d <- ds :: x in DeclaredBy(d.body) {
      if x in newer {
        var d :| d in ds[1..] && x in DeclaredBy(d.body);
        assert d in ds;
      } else {
        assert ds[0] in ds;
      }
    }
  }

  lemma {:induction false} RestHasNoDefer(ds: seq<Registered>)
    requires AllPlain(ds)
    ensures NoDefer(Inline(Bodies(ds)))
    decreases |ds|
  {
    if ds != [] {
      PlainHasNoDefer(ds[0].body);
      RestHasNoDefer(ds[1..]);
    }
  }

  // ---- statements ------------------------------------------------------------

  const READ_BACK := Expr.Ident(RET_VAL, [])

  /** Reading the temporary yields its value and does nothing else. Nothing is asked of other
      variables, which may be volatile. */
  ghost predicate ReadsTemporary<V(!new), W(!new)>(I: Interp<V, W>) {
    forall locals: map<string, V>, w: W :: RET_VAL in locals ==>
      var r := I.run(Value(READ_BACK), locals, w);
      r.value == locals[RET_VAL] && r.world == w && !r.halts
  }

  /** t, of the lowered code, is what r, of the source, comes to once the defers have run. */
  ghost predicate Settled<V, W>(I: Interp<V, W>, r: Result<V, W>, t: Result<V, W>, ds: seq<Registered>, limit: nat)
    requires Stacked(ds, |r.env|)
  {
    if r.flow.Returned? then SameOutcome(t, RunDefers(I, ds, r.flow, r.env, r.world, limit)) else t == r
  }

  lemma LookupAround<V>(above: Env<V>, G: Env<V>, below: Env<V>, x: string)
    requires x !in Scope(above) && x in Scope(G)
    ensures x in Scope(above + (G + below)) && Lookup(above + (G + below), x) == Lookup(G, x)
  {
    LookupAppend(G, below, x);
    LookupAppend(above, G + below, x);
  }

  /** Reading the temporary back. */
  lemma ReadBack<V(!new), W(!new)>(I: Interp<V, W>, env: Env<V>, above: Env<V>, v: V, below: Env<V>, w: W, limit: nat)
    requires ReadsTemporary(I) && Around(env, above, [Binding(RET_VAL, v)], below) && RET_VAL !in Scope(above)
    ensures SameOutcome(Exec(I, [Return(Some(READ_BACK))], env, w, [], limit), Result(Returned(Some(v)), env, w))
  {
    hide Exec, Scope, Lookup, Update, View, ReadsTemporary;
    var G := [Binding(RET_VAL, v)];
    LookupFirst(G);
    LookupAround(above, G, below, RET_VAL);
    EvalReadBack(I, env, w);
    ExecOne(I, Return(Some(READ_BACK)), env, w, limit);
  }

  lemma LookupFirst<V>(env: Env<V>)
    requires env != []
    ensures env[0].name in Scope(env) && Lookup(env, env[0].name) == env[0].value
  {
    assert Scope(env)[0] == env[0].name;
  }

  lemma EvalReadBack<V(!new), W(!new)>(I: Interp<V, W>, env: Env<V>, w: W)
    requires ReadsTemporary(I) && RET_VAL in Scope(env)
    ensures var r := Eval(I, Value(READ_BACK), env, w);
            r.value == Lookup(env, RET_VAL) && r.world == w && !r.halts
  {
    hide Scope, Lookup, Update;
    assert ItemNames(Value(READ_BACK)) == {RET_VAL};
    assert RET_VAL in View(env, {RET_VAL});
  }

  lemma NotDeclared(names: seq<string>, ds: seq<Registered>, x: string)
    requires DeclaredIn(names, ds) && forall d <- ds :: x !in DeclaredBy(d.body)
    ensures x !in names
  {}

  lemma ReturnValueSound<V(!new), W(!new)>(I: Interp<V, W>, e: Expr, env: Env<V>, w: W, ds: seq<Registered>, limit: nat)
    requires ReadsTemporary(I) && ds != [] && Stacked(ds, |env|) && AllPlain(ds) && ClearReturn(Scope(env), ds, true)
    ensures var code := [Temporary(e)] + Inline(Bodies(ds)) + [Return(Some(READ_BACK))];
            && LowerStmt(Return(Some(e)), Bodies(ds)) == (code, Bodies(ds))
            && NoDefer(code)
            && Settled(I, Step(I, Return(Some(e)), env, w, limit), Exec(I, code, env, w, [], limit), ds, limit)
  {
    hide Exec, Eval, Scope, Clear, Inline, Elems, RunDefers, ReadsTemporary, Keeps, Trim, Base, Names, Update, View;
    var last := [Return(Some(READ_BACK))];
    var inlined := Inline(Bodies(ds));
    var code := [Temporary(e)] + inlined + last;
    RestHasNoDefer(ds);
    var v := Eval(I, Value(e), env, w);
    assert code[1..] == inlined + last;
    ExecCons(I, code, env, w, limit);
    if !v.halts {
      var G := [Binding(RET_VAL, v.value)];
      ScopeOfOne(RET_VAL, v.value);
      var above, below := InlineSound(I, ds, Returned(Some(v.value)), v.env, G, v.world, limit);
      ExecConcat(I, inlined, last, G + v.env, v.world, limit);
      var t := Exec(I, inlined, G + v.env, v.world, [], limit);
      if t.flow.Normal? {
        NotDeclared(Scope(above), ds, RET_VAL);
        ReadBack(I, t.env, above, v.value, below, t.world, limit);
      } else {
        RunDefersFlow(I, ds, Returned(Some(v.value)), v.env, v.world, limit);
      }
    }
  }

  lemma ScopeOfOne<V>(x: string, v: V)
    ensures Elems(Scope([Binding(x, v)])) == {x}
  {}

  lemma ReturnNoneSound<V(!new), W(!new)>(I: Interp<V, W>, env: Env<V>, w: W, ds: seq<Registered>, limit: nat)
    requires ds != [] && Stacked(ds, |env|) && AllPlain(ds) && ClearReturn(Scope(env), ds, false)
    ensures var code := Inline(Bodies(ds)) + [Return(None)];
            && LowerStmt(Return(None), Bodies(ds)) == (code, Bodies(ds))
            && NoDefer(code)
            && Settled(I, Step(I, Return(None), env, w, limit), Exec(I, code, env, w, [], limit), ds, limit)
  {
    hide Exec, Scope, Clear, Inline, Elems, RunDefers, Keeps, Trim, Base;
    var inlined := Inline(Bodies(ds));
    RestHasNoDefer(ds);
    NoScope<V>();
    assert [] + env == env;
    var above, below := InlineSound(I, ds, Returned(None), env, [], w, limit);
    ExecConcat(I, inlined, [Return(None)], env, w, limit);
    var t := Exec(I, inlined, env, w, [], limit);
    if t.flow.Normal? {
      ExecOne(I, Return(None), t.env, t.world, limit);
    } else {
      RunDefersFlow(I, ds, Returned(None), env, w, limit);
    }
  }

  lemma NoScope<V>()
    ensures Elems(Scope<V>([])) == {}
  {}

  lemma NoDefers<V, W>(I: Interp<V, W>, flow: Flow<V>, env: Env<V>, w: W, limit: nat)
    ensures RunDefers(I, [], flow, env, w, limit) == Result(flow, env, w)
  {}

  /** Lowering a nested list leaves the stack as it was, and no defer in the code. */
  lemma {:induction false} ListShape(ss: seq<Stmt>, ds: seq<Registered>)
    requires AllPlain(ds) && !UseOf(ss).defer_
    ensures var (code, stack) := Lower(ss, Bodies(ds));
            stack == Bodies(ds) && NoDefer(code)
    decreases ss
  {
    if ss != [] {
      StepShape(ss[0], ds);
      ListShape(ss[1..], ds);
    }
  }

  lemma {:induction false} StepShape(s: Stmt, ds: seq<Registered>)
    requires AllPlain(ds) && !UseOfStmt(s).defer_
    ensures var (code, stack) := LowerStmt(s, Bodies(ds));
            stack == Bodies(ds) && NoDefer(code) && !s.Defer?
    decreases s
  {
    if s.If? {
      ListShape(s.yes, ds);
      OtherShape(s.no, ds);
    } else if s.Guard? {
      ListShape(s.otherwise, ds);
    } else if s.While? {
      ListShape(s.body, ds);
    } else if s.Return? {
      RestHasNoDefer(ds);
    }
  }

  lemma {:induction false} OtherShape(no: Alternative, ds: seq<Registered>)
    requires AllPlain(ds) && !UseOfOther(no).defer_
    ensures LowerOther(no, Bodies(ds)).1 == Bodies(ds)
    decreases no
  {
    if no.Else? {
      ListShape(no.body, ds);
    } else if no.ElseIf? {
      ListShape(no.yes, ds);
      OtherShape(no.no, ds);
    }
  }

  lemma {:induction false} StepSound<V(!new), W(!new)>(I: Interp<V, W>, s: Stmt, env: Env<V>, w: W, ds: seq<Registered>, limit: nat)
    requires ReadsTemporary(I) && Stacked(ds, |env|) && AllPlain(ds) && !UseOfStmt(s).defer_ && SafeStmt(s, Scope(env), ds)
    ensures Stacked(ds, |Step(I, s, env, w, limit).env|)
    ensures Settled(I, Step(I, s, env, w, limit), Exec(I, LowerStmt(s, Bodies(ds)).0, env, w, [], limit), ds, limit)
    decreases Size(s), 4, 0
  {
    hide Exec, RunDefers, Scope, Eval, Block, Branch, Loop, SafeAll, SafeOther, ClearReturn, AllPlain, ReadsTemporary, Keeps, Trim, Base;
    StackedDeeper(ds, |env|, |Step(I, s, env, w, limit).env|);
    if s.If? {
      BranchSound(I, s.condition, s.yes, s.no, env, w, ds, limit);
      ListShape(s.yes, ds);
      OtherShape(s.no, ds);
      ExecOne(I, If(s.condition, Lower(s.yes, Bodies(ds)).0, LowerOther(s.no, Bodies(ds)).0), env, w, limit);
    } else if s.Guard? {
      GuardSound(I, s, env, w, ds, limit);
    } else if s.While? {
      LoopSound(I, s.condition, s.body, env, w, ds, limit, limit);
      ListShape(s.body, ds);
      ExecOne(I, While(s.condition, Lower(s.body, Bodies(ds)).0), env, w, limit);
    } else if s.Return? && ds != [] {
      if s.value.Some? {
        ReturnValueSound(I, s.value.value, env, w, ds, limit);
      } else {
        ReturnNoneSound(I, env, w, ds, limit);
      }
    } else {
      ExecOne(I, s, env, w, limit);
      var r := Step(I, s, env, w, limit);
      NoDefers(I, r.flow, r.env, r.world, limit);
    }
  }

  lemma {:induction false} ListSound<V(!new), W(!new)>(I: Interp<V, W>, ss: seq<Stmt>, env: Env<V>, w: W, ds: seq<Registered>, limit: nat)
    requires ReadsTemporary(I) && Stacked(ds, |env|) && AllPlain(ds) && !UseOf(ss).defer_ && SafeAll(ss, Scope(env), ds)
    ensures |env| <= |Exec(I, ss, env, w, [], limit).env| && Stacked(ds, |Exec(I, ss, env, w, [], limit).env|)
    ensures Settled(I, Exec(I, ss, env, w, [], limit), Exec(I, Lower(ss, Bodies(ds)).0, env, w, [], limit), ds, limit)
    decreases SizeAll(ss), 2, 0
  {
    hide Exec, RunDefers, Scope, Step, SafeStmt, LowerStmt, ReadsTemporary, Keeps, Trim, Base;
    if ss == [] {
      ExecEmpty(I, env, w, limit);
    } else {
      StepShape(ss[0], ds);
      StepSound(I, ss[0], env, w, ds, limit);
      ExecCons(I, ss, env, w, limit);
      StepScope(I, ss[0], env, w, limit);
      var r := Step(I, ss[0], env, w, limit);
      ExecConcat(I, LowerStmt(ss[0], Bodies(ds)).0, Lower(ss[1..], Bodies(ds)).0, env, w, limit);
      StepFlow(I, ss[0], env, w, limit);
      if r.flow.Normal? {
        ListSound(I, ss[1..], r.env, r.world, ds, limit);
      } else {
        RunDefersFlow(I, ds, r.flow, r.env, r.world, limit);
      }
    }
    ExecGrows(I, ss, env, w, limit);
    StackedDeeper(ds, |env|, |Exec(I, ss, env, w, [], limit).env|);
  }

  lemma ExecGrows<V, W>(I: Interp<V, W>, ss: seq<Stmt>, env: Env<V>, w: W, limit: nat)
    ensures |env| <= |Exec(I, ss, env, w, [], limit).env|
  {
    hide Exec;
  }

  lemma {:induction false} BlockSound<V(!new), W(!new)>(I: Interp<V, W>, ss: seq<Stmt>, env: Env<V>, w: W, ds: seq<Registered>, limit: nat)
    requires ReadsTemporary(I) && Stacked(ds, |env|) && AllPlain(ds) && !UseOf(ss).defer_ && SafeAll(ss, Scope(env), ds)
    ensures Settled(I, Block(I, ss, env, w, limit), Block(I, Lower(ss, Bodies(ds)).0, env, w, limit), ds, limit)
    decreases SizeAll(ss), 3, 0
  {
    hide Exec, RunDefers, Scope, SafeAll, Lower, ReadsTemporary;
    ListSound(I, ss, env, w, ds, limit);
    var r := Exec(I, ss, env, w, [], limit);
    RunDefersTrim(I, ds, r.flow, r.env, r.world, limit, |env|);
  }

  /** Settled in a context that is the same for source and lowered code. */
  lemma SettledIf<V, W>(I: Interp<V, W>, r: Result<V, W>, ds: seq<Registered>, limit: nat)
    requires Stacked(ds, |r.env|) && !r.flow.Returned?
    ensures Settled(I, r, r, ds, limit)
  {}

  lemma {:induction false} GuardSound<V(!new), W(!new)>(I: Interp<V, W>, s: Stmt, env: Env<V>, w: W, ds: seq<Registered>, limit: nat)
    requires s.Guard? && ReadsTemporary(I) && Stacked(ds, |env|) && AllPlain(ds) && !UseOfStmt(s).defer_ && SafeStmt(s, Scope(env), ds)
    ensures Settled(I, Step(I, s, env, w, limit), Exec(I, LowerStmt(s, Bodies(ds)).0, env, w, [], limit), ds, limit)
    decreases Size(s), 0, 0
  {
    hide Exec, RunDefers, Scope, Eval, Block, Step, SafeAll, Lower, ReadsTemporary, AllPlain, Settled, Keeps, Trim, Base;
    var code := Lower(s.otherwise, Bodies(ds)).0;
    ExecOne(I, Guard(s.condition, code), env, w, limit);
    GuardTurn(I, s.condition, s.otherwise, env, w, limit);
    GuardTurn(I, s.condition, code, env, w, limit);
    var v := Eval(I, Value(s.condition), env, w);
    if v.halts || I.truth(v.value) {
      SettledIf(I, Step(I, s, env, w, limit), ds, limit);
    } else {
      BlockSound(I, s.otherwise, v.env, v.world, ds, limit);
    }
  }

  lemma {:induction false} BranchSound<V(!new), W(!new)>(I: Interp<V, W>, c: Expr, yes: seq<Stmt>, no: Alternative, env: Env<V>, w: W,
                                                         ds: seq<Registered>, limit: nat)
    requires ReadsTemporary(I) && Stacked(ds, |env|) && AllPlain(ds) && !UseOf(yes).defer_ && !UseOfOther(no).defer_
    requires SafeAll(yes, Scope(env), ds) && SafeOther(no, Scope(env), ds)
    ensures Settled(I, Branch(I, c, yes, no, env, w, limit),
                    Branch(I, c, Lower(yes, Bodies(ds)).0, LowerOther(no, Bodies(ds)).0, env, w, limit), ds, limit)
    decreases SizeAll(yes) + SizeOther(no), 4, 0
  {
    hide Exec, RunDefers, Scope, Eval, Block, SafeAll, Lower, ReadsTemporary, AllPlain, Keeps, Trim, Base;
    var v := Eval(I, Value(c), env, w);
    if v.halts {
    } else if I.truth(v.value) {
      BlockSound(I, yes, v.env, v.world, ds, limit);
    } else if no.Else? {
      BlockSound(I, no.body, v.env, v.world, ds, limit);
    } else if no.ElseIf? {
      ListShape(yes, ds);
      ListShape(no.yes, ds);
      BranchSound(I, no.condition, no.yes, no.no, v.env, v.world, ds, limit);
    }
  }

  lemma SettledSame<V, W>(I: Interp<V, W>, r: Result<V, W>, t: Result<V, W>, ds: seq<Registered>, limit: nat)
    requires Stacked(ds, |r.env|) && AllPlain(ds) && Settled(I, r, t, ds, limit)
    ensures !r.flow.Returned? ==> t == r
    ensures r.flow.Returned? ==> t.flow.Returned? || t.flow.Halted? || t.flow.OutOfSteps?
  {
    hide RunDefers;
    RunDefersFlow(I, ds, r.flow, r.env, r.world, limit);
  }

  lemma {:induction false} LoopSound<V(!new), W(!new)>(I: Interp<V, W>, c: Expr, body: seq<Stmt>, env: Env<V>, w: W,
                                                       ds: seq<Registered>, limit: nat, k: nat)
    requires ReadsTemporary(I) && Stacked(ds, |env|) && AllPlain(ds) && !UseOf(body).defer_ && SafeAll(body, Scope(env), ds)
    ensures Settled(I, Loop(I, c, body, env, w, limit, k), Loop(I, c, Lower(body, Bodies(ds)).0, env, w, limit, k), ds, limit)
    decreases 1 + SizeAll(body), 0, k
  {
    hide Exec, RunDefers, Scope, Eval, Block, Loop, SafeAll, Lower, ReadsTemporary, AllPlain, Settled, Bodies, Keeps, Trim, Base;
    var v := Eval(I, Value(c), env, w);
    var code := Lower(body, Bodies(ds)).0;
    if !v.halts && I.truth(v.value) && k > 0 {
      LoopTurn(I, c, body, env, w, limit, k);
      LoopTurn(I, c, code, env, w, limit, k);
      BlockSound(I, body, v.env, v.world, ds, limit);
      var r := Block(I, body, v.env, v.world, limit);
      SettledSame(I, r, Block(I, code, v.env, v.world, limit), ds, limit);
      if r.flow.Normal? || r.flow.Continued? {
        LoopSound(I, c, body, r.env, r.world, ds, limit, k - 1);
      } else if r.flow.Broke? {
        SettledIf(I, Result(Normal, r.env, r.world), ds, limit);
      }
    } else {
      LoopEnd(I, c, body, env, w, limit, k);
      LoopEnd(I, c, code, env, w, limit, k);
      SettledIf(I, Loop(I, c, body, env, w, limit, k), ds, limit);
    }
  }

  // ---- the whole function ----------------------------------------------------

  /** The lowered list followed by the code of the defers left on the stack. */
  function Finish(ss: seq<Stmt>, stack: seq<seq<Stmt>>): seq<Stmt> {
    var (code, stack1) := Lower(ss, stack);
    code + Inline(stack1)
  }

  lemma FinishStep(s: Stmt, ss: seq<Stmt>, ds: seq<Registered>)
    requires AllPlain(ds) && !UseOfStmt(s).defer_
    ensures Finish([s] + ss, Bodies(ds)) == LowerStmt(s, Bodies(ds)).0 + Finish(ss, Bodies(ds))
  {
    hide LowerStmt, Inline;
    StepShape(s, ds);
    assert ([s] + ss)[1..] == ss;
    var (rest, stack1) := Lower(ss, Bodies(ds));
    assert (LowerStmt(s, Bodies(ds)).0 + rest) + Inline(stack1) == LowerStmt(s, Bodies(ds)).0 + (rest + Inline(stack1));
  }

  lemma FinishDefer(body: seq<Stmt>, ss: seq<Stmt>, ds: seq<Registered>, n: nat)
    ensures var ds' := [Registered(body, n)] + ds;
            Finish([Defer(body)] + ss, Bodies(ds)) == Finish(ss, Bodies(ds'))
  {
    hide Inline;
    var ds' := [Registered(body, n)] + ds;
    assert ds'[1..] == ds;
    var all := [Defer(body)] + ss;
    assert all[1..] == ss && all[0] == Defer(body);
    assert Bodies(ds') == [body] + Bodies(ds);
    var (rest, stack1) := Lower(ss, Bodies(ds'));
    assert LowerStmt(all[0], Bodies(ds)) == ([], Bodies(ds'));
    assert [] + rest == rest;
    assert Lower(all, Bodies(ds)) == (rest, stack1);
  }

  /** A statement of the body, with defers registered: what follows it in either program. */
  lemma ExecStep<V, W>(I: Interp<V, W>, ss: seq<Stmt>, env: Env<V>, w: W, ds: seq<Registered>, limit: nat)
    requires ss != [] && !ss[0].Defer? && Stacked(ds, |env|)
    ensures var r := Step(I, ss[0], env, w, limit);
            && Stacked(ds, |r.env|)
            && Exec(I, ss, env, w, ds, limit) ==
                 if r.flow.Normal? then Exec(I, ss[1..], r.env, r.world, ds, limit)
                 else if r.flow.Halted? || r.flow.OutOfSteps? then r
                 else RunDefers(I, ds, r.flow, r.env, r.world, limit)
  {
    hide Step, Scope, RunDefers;
    StackedDeeper(ds, |env|, |Step(I, ss[0], env, w, limit).env|);
  }

  lemma {:induction false} BodySound<V(!new), W(!new)>(I: Interp<V, W>, ss: seq<Stmt>, env: Env<V>, w: W, ds: seq<Registered>, limit: nat)
    requires ReadsTemporary(I) && Stacked(ds, |env|) && AllPlain(ds) && TopLevel(ss) && SafeBody(ss, Scope(env), ds)
    ensures SameOutcome(Exec(I, ss, env, w, ds, limit), Exec(I, Finish(ss, Bodies(ds)), env, w, [], limit))
    decreases |ss|
  {
    hide Exec, RunDefers, Scope, Step, SafeStmt, ReadsTemporary, LowerStmt, Finish, UseOfStmt, Clear, Elems, Inline;
    if ss == [] {
      BodyEnd(I, env, w, ds, limit);
    } else if ss[0].Defer? {
      var ds' := [Registered(ss[0].deferred, |env|)] + ds;
      assert ds'[1..] == ds && ss == [Defer(ss[0].deferred)] + ss[1..];
      FinishDefer(ss[0].deferred, ss[1..], ds, |env|);
      BodySound(I, ss[1..], env, w, ds', limit);
      ExecDefer(I, ss, env, w, ds, limit);
    } else {
      var s, rest := ss[0], ss[1..];
      assert ss == [s] + rest;
      var code := LowerStmt(s, Bodies(ds)).0;
      FinishStep(s, rest, ds);
      StepShape(s, ds);
      StepSound(I, s, env, w, ds, limit);
      StepFlow(I, s, env, w, limit);
      StepScope(I, s, env, w, limit);
      ExecStep(I, ss, env, w, ds, limit);
      ExecConcat(I, code, Finish(rest, Bodies(ds)), env, w, limit);
      var r := Step(I, s, env, w, limit);
      if r.flow.Normal? {
        BodySound(I, rest, r.env, r.world, ds, limit);
      } else if r.flow.Returned? {
        RunDefersFlow(I, ds, r.flow, r.env, r.world, limit);
      }
    }
  }

  lemma BodyEnd<V(!new), W(!new)>(I: Interp<V, W>, env: Env<V>, w: W, ds: seq<Registered>, limit: nat)
    requires Stacked(ds, |env|) && AllPlain(ds) && Clear(Scope(env), ds, {})
    ensures SameOutcome(Exec(I, [], env, w, ds, limit), Exec(I, Finish([], Bodies(ds)), env, w, [], limit))
  {
    hide RunDefers, Scope, Clear, Elems, Inline, Step;
    NoScope<V>();
    assert [] + env == env && [] + Inline(Bodies(ds)) == Inline(Bodies(ds));
    var above, below := InlineSound(I, ds, Normal, env, [], w, limit);
  }

  lemma ExecDefer<V, W>(I: Interp<V, W>, ss: seq<Stmt>, env: Env<V>, w: W, ds: seq<Registered>, limit: nat)
    requires ss != [] && ss[0].Defer? && Stacked(ds, |env|)
    ensures var ds' := [Registered(ss[0].deferred, |env|)] + ds;
            Stacked(ds', |env|) && Exec(I, ss, env, w, ds, limit) == Exec(I, ss[1..], env, w, ds', limit)
  {
    var ds' := [Registered(ss[0].deferred, |env|)] + ds;
    assert ds'[1..] == ds;
  }

  /** For every function body whose defers are at its top level and capture nothing, every
      interpretation of expressions, all arguments and every bound on loops: the emitted body has the
      same effects, in the same order, and ends in the same way with the same value. */
  lemma DeferLoweringSound<V(!new), W(!new)>(I: Interp<V, W>, body: seq<Stmt>, params: Env<V>, w: W, limit: nat)
    requires ReadsTemporary(I) && TopLevel(body) && SafeBody(body, Scope(params), [])
    ensures Observe(I, LowerBody(body), params, w, limit) == Observe(I, body, params, w, limit)
  {
    BodySound(I, body, params, w, [], limit);
  }
}
