/** Lowering `defer` preserves the meaning of a function body. */
module SotlasDeferSound {
  import opened Options
  import opened SotlasTokens
  import opened SotlasParsing
  import opened SotlasDefer

  // ---- which bodies ----------------------------------------------------------

  /** Whether defers and returns occur anywhere, and whether a break or continue is outside loops. */
  datatype Use = Use(defer_: bool, return_: bool, jump: bool)

  function Both(a: Use, b: Use): Use {
    Use(a.defer_ || b.defer_, a.return_ || b.return_, a.jump || b.jump)
  }

  function UseOf(ss: seq<Stmt>): Use {
    if ss == [] then Use(false, false, false) else Both(UseOfStmt(ss[0]), UseOf(ss[1..]))
  }

  function UseOfStmt(s: Stmt): Use {
    match s
    case If(_, yes, no) => Both(UseOf(yes), UseOfOther(no))
    case Guard(_, ss) => UseOf(ss)
    case While(_, ss) => UseOf(ss).(jump := false)
    case Defer(ss) => UseOf(ss).(defer_ := true)
    case Return(_) => Use(false, true, false)
    case Break => Use(false, false, true)
    case Continue => Use(false, false, true)
    case Let(_, _, _) => Use(false, false, false)
    case Do(_) => Use(false, false, false)
  }

  function UseOfOther(no: Alternative): Use {
    match no
    case Nothing => Use(false, false, false)
    case Else(ss) => UseOf(ss)
    case ElseIf(_, yes, no') => Both(UseOf(yes), UseOfOther(no'))
  }

  /** Fit for the body of a defer: no defer, no return, and no jump out of it. */
  lemma {:induction false} UseAppend(a: seq<Stmt>, b: seq<Stmt>)
    ensures UseOf(a + b) == Both(UseOf(a), UseOf(b))
    decreases |a|
  {
    if a == [] {
      assert a + b == b;
    } else {
      assert (a + b)[1..] == a[1..] + b && (a + b)[0] == a[0];
      UseAppend(a[1..], b);
    }
  }

  predicate IsPlain(ss: seq<Stmt>) {
    UseOf(ss) == Use(false, false, false)
  }

  /** Whether control can get behind the statement: nothing that follows a return or a jump is reached. */
  predicate EndsStmt(s: Stmt) {
    match s
    case If(_, yes, no) => Ends(yes) || EndsOther(no)
    case Return(_) => false
    case Break => false
    case Continue => false
    case Let(_, _, _) => true
    case Do(_) => true
    case Guard(_, _) => true
    case While(_, _) => true
    case Defer(_) => true
  }

  predicate Ends(ss: seq<Stmt>) {
    ss == [] || (EndsStmt(ss[0]) && Ends(ss[1..]))
  }

  predicate EndsOther(no: Alternative) {
    match no
    case Nothing => true
    case Else(ss) => Ends(ss)
    case ElseIf(_, yes, no') => Ends(yes) || EndsOther(no')
  }

  /** The names that a list takes from outside itself where it can be reached. */
  function Free(ss: seq<Stmt>): set<string> {
    if ss == [] then {} else FreeStmt(ss[0]) + (if EndsStmt(ss[0]) then Free(ss[1..]) - Declared(ss[0]) else {})
  }

  function Declared(s: Stmt): set<string> {
    if s.Let? then {s.name} else {}
  }

  function FreeStmt(s: Stmt): set<string> {
    match s
    case Let(_, _, init) => Names(init)
    case Do(item) => ItemNames(item)
    case If(c, yes, no) => Names(c) + Free(yes) + FreeOther(no)
    case Guard(c, ss) => Names(c) + Free(ss)
    case While(c, ss) => Names(c) + Free(ss)
    case Return(value) => if value.Some? then Names(value.value) else {}
    case Break => {}
    case Continue => {}
    case Defer(ss) => Free(ss)
  }

  function FreeOther(no: Alternative): set<string> {
    match no
    case Nothing => {}
    case Else(ss) => Free(ss)
    case ElseIf(c, yes, no') => Names(c) + Free(yes) + FreeOther(no')
  }

  /** The names a list declares in its own scope, newest first. */
  function DeclaredBy(ss: seq<Stmt>): seq<string> {
    if ss == [] then [] else DeclaredBy(ss[1..]) + NamesAfter(ss[0], [])
  }

  /** Running the defers at a point where `names` are in scope captures no name: nothing that a
      defer takes from outside was declared since the defer was registered, not even by a newer
      defer copied in front of it. */
  predicate Clear(names: seq<string>, ds: seq<Registered>, gap: set<string>)
    requires Stacked(ds, |names|)
  {
    ds == [] ||
    (var newer := gap + Elems(names[..|names| - ds[0].height]);
     Free(ds[0].body) !! newer && Clear(Trim(names, ds[0].height), ds[1..], newer + Elems(DeclaredBy(ds[0].body))))
  }

  predicate ClearReturn(names: seq<string>, ds: seq<Registered>, value: bool)
    requires Stacked(ds, |names|)
  {
    && Clear(names, ds, if value then {RET_VAL} else {})
    && (value ==> forall d <- ds :: RET_VAL !in DeclaredBy(d.body))
  }

  /** Every return that can be reached is clear. */
  predicate SafeStmt(s: Stmt, names: seq<string>, ds: seq<Registered>)
    requires Stacked(ds, |names|)
    decreases s
  {
    match s
    case If(_, yes, no) => SafeAll(yes, names, ds) && SafeOther(no, names, ds)
    case Guard(_, ss) => SafeAll(ss, names, ds)
    case While(_, ss) => SafeAll(ss, names, ds)
    case Return(value) => ds == [] || ClearReturn(names, ds, value.Some?)
    case Defer(_) => true
    case Let(_, _, _) => true
    case Do(_) => true
    case Break => true
    case Continue => true
  }

  function NamesAfter(s: Stmt, names: seq<string>): (r: seq<string>)
    ensures |names| <= |r|
  {
    if s.Let? then [s.name] + names else names
  }

  predicate SafeAll(ss: seq<Stmt>, names: seq<string>, ds: seq<Registered>)
    requires Stacked(ds, |names|)
    decreases ss
  {
    ss == [] ||
    (StackedDeeper(ds, |names|, |NamesAfter(ss[0], names)|);
     SafeStmt(ss[0], names, ds) && (EndsStmt(ss[0]) ==> SafeAll(ss[1..], NamesAfter(ss[0], names), ds)))
  }

  predicate SafeOther(no: Alternative, names: seq<string>, ds: seq<Registered>)
    requires Stacked(ds, |names|)
    decreases no
  {
    match no
    case Nothing => true
    case Else(ss) => SafeAll(ss, names, ds)
    case ElseIf(_, yes, no') => SafeAll(yes, names, ds) && SafeOther(no', names, ds)
  }

  /** Defers only at the top level of a function body, each with a plain body, and no jump out of it. */
  predicate TopLevel(ss: seq<Stmt>) {
    forall s <- ss :: if s.Defer? then IsPlain(s.deferred) else !UseOfStmt(s).defer_ && !UseOfStmt(s).jump
  }

  /** A function body, with ds registered: every exit that can be reached is clear, its end included. */
  predicate SafeBody(ss: seq<Stmt>, names: seq<string>, ds: seq<Registered>)
    requires Stacked(ds, |names|)
  {
    if ss == [] then Clear(names, ds, {})
    else if ss[0].Defer? then
      var ds' := [Registered(ss[0].deferred, |names|)] + ds;
      assert ds'[1..] == ds;
      SafeBody(ss[1..], names, ds')
    else
      StackedDeeper(ds, |names|, |NamesAfter(ss[0], names)|);
      SafeStmt(ss[0], names, ds) && (EndsStmt(ss[0]) ==> SafeBody(ss[1..], NamesAfter(ss[0], names), ds))
  }

  predicate AllPlain(ds: seq<Registered>) {
    ds == [] || (IsPlain(ds[0].body) && AllPlain(ds[1..]))
  }

  // ---- a gap in the environment does not matter to code that names nothing in it --------

  /** The environment with G pushed in above its outermost n bindings. */
  function Insert<V>(env: Env<V>, G: Env<V>, n: nat): Env<V>
    requires n <= |env|
  {
    env[..|env| - n] + G + Trim(env, n)
  }

  /** Whatever is named in the gap is shadowed above it. */
  predicate Apart<V>(names: set<string>, env: Env<V>, G: Env<V>, n: nat)
    requires n <= |env|
  {
    forall x <- names :: x in Scope(G) ==> x in Scope(env[..|env| - n])
  }

  lemma {:induction false} ScopeAppend<V>(a: Env<V>, b: Env<V>)
    ensures Scope(a + b) == Scope(a) + Scope(b)
    decreases |a|
  {
    if a == [] {
      assert a + b == b;
    } else {
      assert (a + b)[1..] == a[1..] + b;
      ScopeAppend(a[1..], b);
    }
  }

  lemma {:induction false} LookupAppend<V>(a: Env<V>, b: Env<V>, x: string)
    ensures Scope(a + b) == Scope(a) + Scope(b)
    ensures x in Scope(a) ==> Lookup(a + b, x) == Lookup(a, x)
    ensures x !in Scope(a) && x in Scope(b) ==> Lookup(a + b, x) == Lookup(b, x)
    decreases |a|
  {
    ScopeAppend(a, b);
    if a == [] {
      assert a + b == b;
    } else {
      assert (a + b)[0] == a[0] && (a + b)[1..] == a[1..] + b;
      LookupAppend(a[1..], b, x);
      ScopeHead(a, x);
    }
  }

  lemma ScopeHead<V>(a: Env<V>, x: string)
    requires a != []
    ensures x in Scope(a) <==> x == a[0].name || x in Scope(a[1..])
  {}

  /** The updates that are left for the bindings below env. */
  function Remaining<V>(env: Env<V>, u: map<string, V>): (r: map<string, V>)
    ensures forall x :: x in r <==> x in u && x !in Scope(env)
    ensures forall x <- r :: r[x] == u[x]
  {
    if env == [] then u else Remaining(env[1..], u - {env[0].name})
  }

  function Head<V>(b: Binding<V>, u: map<string, V>): Binding<V> {
    if b.name in u then Binding(b.name, u[b.name]) else b
  }

  lemma UpdateCons<V>(env: Env<V>, u: map<string, V>)
    requires env != []
    ensures Update(env, u) == [Head(env[0], u)] + Update(env[1..], u - {env[0].name})
    ensures Remaining(env, u) == Remaining(env[1..], u - {env[0].name})
  {
    if env[0].name !in u {
      assert u - {env[0].name} == u;
    }
  }

  lemma {:induction false} UpdateAppend<V>(a: Env<V>, b: Env<V>, u: map<string, V>)
    ensures Update(a + b, u) == Update(a, u) + Update(b, Remaining(a, u))
    decreases |a|, 1
  {
    if a == [] {
      assert a + b == b;
    } else {
      UpdateAppendCons(a, b, u);
    }
  }

  lemma {:induction false} UpdateAppendCons<V>(a: Env<V>, b: Env<V>, u: map<string, V>)
    requires a != []
    ensures Update(a + b, u) == Update(a, u) + Update(b, Remaining(a, u))
    decreases |a|, 0
  {
    hide Scope, Update, Remaining, Head;
    var u' := u - {a[0].name};
    assert (a + b)[1..] == a[1..] + b;
    UpdateAppend(a[1..], b, u');
    UpdateCons(a, u);
    UpdateCons(a + b, u);
    assert ([Head(a[0], u)] + Update(a[1..], u')) + Update(b, Remaining(a, u))
        == [Head(a[0], u)] + (Update(a[1..], u') + Update(b, Remaining(a, u)));
  }

  lemma {:induction false} UpdateElsewhere<V>(env: Env<V>, u: map<string, V>)
    requires forall x <- u :: x !in Scope(env)
    ensures Update(env, u) == env
    decreases |env|
  {
    if env != [] {
      assert env[0].name in Scope(env);
      assert forall x :: x in Scope(env[1..]) ==> x in Scope(env);
      UpdateElsewhere(env[1..], u);
    }
  }

  lemma LookupGap<V>(top: Env<V>, G: Env<V>, bottom: Env<V>, x: string)
    requires x in Scope(G) ==> x in Scope(top)
    ensures x in Scope(top + (G + bottom)) <==> x in Scope(top + bottom)
    ensures x in Scope(top + bottom) ==> Lookup(top + (G + bottom), x) == Lookup(top + bottom, x)
  {
    hide Scope, Lookup;
    LookupAppend(top, bottom, x);
    LookupAppend(G, bottom, x);
    LookupAppend(top, G + bottom, x);
  }

  lemma ViewInsert<V>(env: Env<V>, G: Env<V>, n: nat, names: set<string>)
    requires n <= |env| && Apart(names, env, G, n)
    ensures View(Insert(env, G, n), names) == View(env, names)
  {
    hide Scope, Lookup;
    var top, bottom := env[..|env| - n], Trim(env, n);
    InsertParts(env, G, n);
    forall x | x in names
      ensures x in Scope(Insert(env, G, n)) <==> x in Scope(env)
      ensures x in Scope(env) ==> Lookup(Insert(env, G, n), x) == Lookup(env, x)
    {
      LookupGap(top, G, bottom, x);
    }
  }

  lemma InsertParts<V>(env: Env<V>, G: Env<V>, n: nat)
    requires n <= |env|
    ensures env == env[..|env| - n] + Trim(env, n)
    ensures Insert(env, G, n) == env[..|env| - n] + (G + Trim(env, n))
  {}

  lemma PartsInsert<V>(top: Env<V>, G: Env<V>, bottom: Env<V>)
    ensures Insert(top + bottom, G, |bottom|) == top + (G + bottom)
  {
    assert (top + bottom)[..|top|] == top && Trim(top + bottom, |bottom|) == bottom;
  }

  lemma UpdateInsert<V>(env: Env<V>, G: Env<V>, n: nat, u: map<string, V>)
    requires n <= |env| && Apart(u.Keys, env, G, n)
    ensures Update(Insert(env, G, n), u) == Insert(Update(env, u), G, n)
  {
    hide Update, Insert;
    var top, bottom := env[..|env| - n], Trim(env, n);
    InsertParts(env, G, n);
    UpdateAppend(top, bottom, u);
    var u1 := Remaining(top, u);
    UpdateAppend(top, G + bottom, u);
    UpdateAppend(G, bottom, u1);
    UpdateElsewhere(G, u1);
    assert Remaining(G, u1) == u1;
    assert |Update(bottom, u1)| == n by { assert |Scope(Update(bottom, u1))| == n; }
    PartsInsert(Update(top, u), G, Update(bottom, u1));
  }

  lemma EvalInsert<V, W>(I: Interp<V, W>, item: Item, env: Env<V>, w: W, G: Env<V>, n: nat)
    requires n <= |env| && Apart(ItemNames(item), env, G, n)
    ensures var r := Eval(I, item, env, w);
            Eval(I, item, Insert(env, G, n), w) == Evaluated(r.value, Insert(r.env, G, n), r.world, r.halts)
  {
    var names := ItemNames(item);
    ViewInsert(env, G, n, names);
    var reply := I.run(item, View(env, names), w);
    var u := map x | x in reply.locals && x in names :: reply.locals[x];
    assert Apart(u.Keys, env, G, n);
    UpdateInsert(env, G, n, u);
  }

  /** Apartness only depends on the names in scope. */
  lemma ApartSame<V>(names: set<string>, env: Env<V>, env': Env<V>, G: Env<V>, n: nat)
    requires n <= |env| <= |env'| && Apart(names, env, G, n) && Scope(Trim(env', |env|)) == Scope(env)
    ensures Apart(names, env', G, n)
  {
    hide Scope;
    forall x | x in names && x in Scope(G) ensures x in Scope(env'[..|env'| - n]) {
      var i :| 0 <= i < |env| - n && Scope(env[..|env| - n])[i] == x;
      assert Scope(env)[i] == x;
      assert Scope(Trim(env', |env|))[i] == env'[|env'| - |env| + i].name;
      assert Scope(env'[..|env'| - n])[|env'| - |env| + i] == x;
    }
  }

  /** The same result, with the gap in its environment. */
  function Gapped<V, W>(r: Result<V, W>, G: Env<V>, n: nat): Result<V, W>
    requires n <= |r.env|
  {
    Result(r.flow, Insert(r.env, G, n), r.world)
  }

  lemma InsertTrim<V>(env: Env<V>, G: Env<V>, n: nat, m: nat)
    requires n <= m <= |env|
    ensures Trim(Insert(env, G, n), m + |G|) == Insert(Trim(env, m), G, n)
    ensures |Insert(env, G, n)| == |env| + |G|
  {}

  lemma GuardTurn<V, W>(I: Interp<V, W>, c: Expr, ss: seq<Stmt>, env: Env<V>, w: W, limit: nat)
    ensures var v := Eval(I, Value(c), env, w);
            Step(I, Guard(c, ss), env, w, limit) ==
              if v.halts || I.truth(v.value) then Result(if v.halts then Halted else Normal, v.env, v.world)
              else Block(I, ss, v.env, v.world, limit)
  {
    hide Eval, Block, Scope, Keeps, Trim;
  }

  /** One iteration whose body goes on, and one that leaves the loop. */
  lemma LoopTurn<V, W>(I: Interp<V, W>, c: Expr, body: seq<Stmt>, env: Env<V>, w: W, limit: nat, k: nat)
    requires var v := Eval(I, Value(c), env, w); !v.halts && I.truth(v.value) && k > 0
    ensures var v := Eval(I, Value(c), env, w);
            var r := Block(I, body, v.env, v.world, limit);
            Loop(I, c, body, env, w, limit, k) ==
              if r.flow.Normal? || r.flow.Continued? then Loop(I, c, body, r.env, r.world, limit, k - 1)
              else if r.flow.Broke? then Result(Normal, r.env, r.world)
              else r
  {
    hide Eval, Block, Scope, Keeps, Trim;
  }

  lemma LoopEnd<V, W>(I: Interp<V, W>, c: Expr, body: seq<Stmt>, env: Env<V>, w: W, limit: nat, k: nat)
    requires var v := Eval(I, Value(c), env, w); v.halts || !I.truth(v.value) || k == 0
    ensures var v := Eval(I, Value(c), env, w);
            Loop(I, c, body, env, w, limit, k) ==
              Result(if v.halts then Halted else if !I.truth(v.value) then Normal else OutOfSteps, v.env, v.world)
  {
    hide Eval, Block, Scope, Keeps, Trim;
  }

  /** With no defer registered, a list is its first statement and then the rest. */
  lemma ExecCons<V, W>(I: Interp<V, W>, ss: seq<Stmt>, env: Env<V>, w: W, limit: nat)
    requires ss != [] && !ss[0].Defer?
    ensures var r := Step(I, ss[0], env, w, limit);
            Exec(I, ss, env, w, [], limit) == if r.flow.Normal? then Exec(I, ss[1..], r.env, r.world, [], limit) else r
  {
    hide Step, Scope;
  }

  lemma ExecEmpty<V, W>(I: Interp<V, W>, env: Env<V>, w: W, limit: nat)
    ensures Exec(I, [], env, w, [], limit) == Result(Normal, env, w)
  {}

  lemma ExecOne<V, W>(I: Interp<V, W>, s: Stmt, env: Env<V>, w: W, limit: nat)
    requires !s.Defer?
    ensures Exec(I, [s], env, w, [], limit) == Step(I, s, env, w, limit)
  {}

  /** How statements without defers end: a return or a jump only if they hold one, and normally only
      if control can get behind them. */
  predicate Allowed<V>(flow: Flow<V>, use: Use, ends: bool) {
    && (flow.Normal? ==> ends)
    && (flow.Returned? ==> use.return_)
    && (flow.Broke? || flow.Continued? ==> use.jump)
  }

  lemma {:induction false} ExecFlow<V, W>(I: Interp<V, W>, ss: seq<Stmt>, env: Env<V>, w: W, limit: nat)
    requires !UseOf(ss).defer_
    ensures Allowed(Exec(I, ss, env, w, [], limit).flow, UseOf(ss), Ends(ss))
    decreases SizeAll(ss), 2, 0
  {
    hide Step, Exec, Scope;
    if ss == [] {
      ExecEmpty(I, env, w, limit);
    } else {
      ExecCons(I, ss, env, w, limit);
      StepFlow(I, ss[0], env, w, limit);
      var r := Step(I, ss[0], env, w, limit);
      if r.flow.Normal? {
        ExecFlow(I, ss[1..], r.env, r.world, limit);
      }
    }
  }

  lemma {:induction false} StepFlow<V, W>(I: Interp<V, W>, s: Stmt, env: Env<V>, w: W, limit: nat)
    requires !s.Defer? && !UseOfStmt(s).defer_
    ensures Allowed(Step(I, s, env, w, limit).flow, UseOfStmt(s), EndsStmt(s))
    decreases Size(s), 4, 0
  {
    hide Eval, Exec, Scope, Branch, Loop, Keeps, Trim;
    if s.If? {
      BranchFlow(I, s.condition, s.yes, s.no, env, w, limit);
    } else if s.Guard? {
      GuardTurn(I, s.condition, s.otherwise, env, w, limit);
      var v := Eval(I, Value(s.condition), env, w);
      ExecFlow(I, s.otherwise, v.env, v.world, limit);
    } else if s.While? {
      LoopFlow(I, s.condition, s.body, env, w, limit, limit);
    }
  }

  lemma {:induction false} BranchFlow<V, W>(I: Interp<V, W>, c: Expr, yes: seq<Stmt>, no: Alternative, env: Env<V>, w: W, limit: nat)
    requires !UseOf(yes).defer_ && !UseOfOther(no).defer_
    ensures Allowed(Branch(I, c, yes, no, env, w, limit).flow, Both(UseOf(yes), UseOfOther(no)), Ends(yes) || EndsOther(no))
    decreases SizeAll(yes) + SizeOther(no), 4, 0
  {
    hide Eval, Exec, Scope, Keeps, Trim;
    var v := Eval(I, Value(c), env, w);
    ExecFlow(I, yes, v.env, v.world, limit);
    if no.Else? {
      ExecFlow(I, no.body, v.env, v.world, limit);
    } else if no.ElseIf? {
      BranchFlow(I, no.condition, no.yes, no.no, v.env, v.world, limit);
    }
  }

  lemma {:induction false} LoopFlow<V, W>(I: Interp<V, W>, c: Expr, body: seq<Stmt>, env: Env<V>, w: W, limit: nat, k: nat)
    requires !UseOf(body).defer_
    ensures Allowed(Loop(I, c, body, env, w, limit, k).flow, UseOf(body).(jump := false), true)
    decreases 1 + SizeAll(body), 0, k
  {
    hide Eval, Exec, Scope;
    var v := Eval(I, Value(c), env, w);
    if !v.halts && I.truth(v.value) && k > 0 {
      ExecFlow(I, body, v.env, v.world, limit);
      var r := Block(I, body, v.env, v.world, limit);
      if r.flow.Normal? || r.flow.Continued? {
        LoopFlow(I, c, body, r.env, r.world, limit, k - 1);
      }
    }
  }

  lemma {:induction false} ExecGap<V, W>(I: Interp<V, W>, ss: seq<Stmt>, env: Env<V>, w: W, limit: nat, G: Env<V>, n: nat)
    requires !UseOf(ss).defer_ && n <= |env| && Apart(Free(ss), env, G, n)
    ensures |env| <= |Exec(I, ss, env, w, [], limit).env|
    ensures Exec(I, ss, Insert(env, G, n), w, [], limit) == Gapped(Exec(I, ss, env, w, [], limit), G, n)
    decreases SizeAll(ss), 2, 0
  {
    hide Exec, Insert, Apart, Step, Scope, Free, FreeStmt, NamesAfter;
    if ss == [] {
      ExecEmpty(I, env, w, limit);
      ExecEmpty(I, Insert(env, G, n), w, limit);
    } else {
      ExecCons(I, ss, env, w, limit);
      ExecCons(I, ss, Insert(env, G, n), w, limit);
      ApartParts(ss, env, G, n);
      StepGap(I, ss[0], env, w, limit, G, n);
      var r := Step(I, ss[0], env, w, limit);
      if r.flow.Normal? {
        StepScope(I, ss[0], env, w, limit);
        StepFlow(I, ss[0], env, w, limit);
        ApartAfter(ss, env, r.env, G, n);
        ExecGap(I, ss[1..], r.env, r.world, limit, G, n);
      }
    }
  }

  lemma ApartParts<V>(ss: seq<Stmt>, env: Env<V>, G: Env<V>, n: nat)
    requires ss != [] && n <= |env| && Apart(Free(ss), env, G, n)
    ensures Apart(FreeStmt(ss[0]), env, G, n)
  {}

  lemma ApartAfter<V>(ss: seq<Stmt>, env: Env<V>, env': Env<V>, G: Env<V>, n: nat)
    requires ss != [] && EndsStmt(ss[0]) && n <= |env| <= |env'| && Apart(Free(ss), env, G, n)
    requires Scope(env') == NamesAfter(ss[0], Scope(env)) && Scope(Trim(env', |env|)) == Scope(env)
    ensures Apart(Free(ss[1..]), env', G, n)
  {
    hide FreeStmt, Scope, Free, Apart, NamesAfter, Declared;
    forall x | x in Free(ss[1..]) && x in Scope(G) ensures x in Scope(env'[..|env'| - n]) {
      if x in Declared(ss[0]) {
        DeclaredOnTop(ss[0], x, env, env', n);
      } else {
        FreeRest(ss, x);
        ApartOne(Free(ss), x, env, G, n);
        ApartSame({x}, env, env', G, n);
        ApartAt({x}, env', G, n, x);
      }
    }
    ApartWhen(Free(ss[1..]), env', G, n);
  }

  lemma ApartAt<V>(names: set<string>, env: Env<V>, G: Env<V>, n: nat, x: string)
    requires n <= |env| && Apart(names, env, G, n) && x in names && x in Scope(G)
    ensures x in Scope(env[..|env| - n])
  {}

  lemma ApartWhen<V>(names: set<string>, env: Env<V>, G: Env<V>, n: nat)
    requires n <= |env| && forall x :: x in names && x in Scope(G) ==> x in Scope(env[..|env| - n])
    ensures Apart(names, env, G, n)
  {}

  lemma DeclaredOnTop<V>(s: Stmt, x: string, env: Env<V>, env': Env<V>, n: nat)
    requires n <= |env| && x in Declared(s) && Scope(env') == NamesAfter(s, Scope(env))
    ensures n <= |env'| && x in Scope(env'[..|env'| - n])
  {
    assert |Scope(env')| == |env'| == |env| + 1;
    assert Scope(env'[..|env'| - n])[0] == env'[0].name == Scope(env')[0] == x;
  }

  lemma ApartOne<V>(names: set<string>, x: string, env: Env<V>, G: Env<V>, n: nat)
    requires n <= |env| && Apart(names, env, G, n) && x in names
    ensures Apart({x}, env, G, n)
  {}

  lemma FreeRest(ss: seq<Stmt>, x: string)
    requires ss != [] && EndsStmt(ss[0]) && x in Free(ss[1..]) && x !in Declared(ss[0])
    ensures x in Free(ss)
  {}

  /** The names in scope after a statement that ends normally. */
  lemma StepScope<V, W>(I: Interp<V, W>, s: Stmt, env: Env<V>, w: W, limit: nat)
    requires !s.Defer?
    ensures var r := Step(I, s, env, w, limit);
            && (r.flow.Normal? ==> Scope(r.env) == NamesAfter(s, Scope(env)))
            && Scope(Trim(r.env, |env|)) == Scope(env)
            && (!s.Let? ==> |r.env| == |env|)
  {
    hide Branch, Loop, Block, Eval;
    var r := Step(I, s, env, w, limit);
    assert Trim(env, |env|) == env;
    if |r.env| == |env| {
      assert Trim(r.env, |env|) == r.env;
    }
  }

  lemma {:induction false} StepGap<V, W>(I: Interp<V, W>, s: Stmt, env: Env<V>, w: W, limit: nat, G: Env<V>, n: nat)
    requires !UseOfStmt(s).defer_ && !s.Defer? && n <= |env| && Apart(FreeStmt(s), env, G, n)
    ensures |env| <= |Step(I, s, env, w, limit).env|
    ensures Step(I, s, Insert(env, G, n), w, limit) == Gapped(Step(I, s, env, w, limit), G, n)
    decreases Size(s), 4, 0
  {
    if s.If? {
      BranchGap(I, s.condition, s.yes, s.no, env, w, limit, G, n);
    } else if s.While? {
      LoopGap(I, s.condition, s.body, env, w, limit, limit, G, n);
    } else if s.Guard? {
      GuardGap(I, s, env, w, limit, G, n);
    } else {
      SimpleGap(I, s, env, w, limit, G, n);
    }
  }

  lemma SimpleGap<V, W>(I: Interp<V, W>, s: Stmt, env: Env<V>, w: W, limit: nat, G: Env<V>, n: nat)
    requires (s.Let? || s.Do? || s.Return? || s.Break? || s.Continue?) && n <= |env| && Apart(FreeStmt(s), env, G, n)
    ensures |env| <= |Step(I, s, env, w, limit).env|
    ensures Step(I, s, Insert(env, G, n), w, limit) == Gapped(Step(I, s, env, w, limit), G, n)
  {
    hide Step, Apart, Scope, Names, ItemNames, Insert, Free, FreeOther;
    if s.Let? {
      LetGap(I, s, env, w, limit, G, n);
    } else if s.Do? {
      DoGap(I, s, env, w, limit, G, n);
    } else {
      LeaveGap(I, s, env, w, limit, G, n);
    }
  }

  lemma DoGap<V, W>(I: Interp<V, W>, s: Stmt, env: Env<V>, w: W, limit: nat, G: Env<V>, n: nat)
    requires s.Do? && n <= |env| && Apart(ItemNames(s.item), env, G, n)
    ensures |env| <= |Step(I, s, env, w, limit).env|
    ensures Step(I, s, Insert(env, G, n), w, limit) == Gapped(Step(I, s, env, w, limit), G, n)
  {
    hide Eval, Apart, Scope, ItemNames, Insert, Branch, Loop, Block;
    EvalInsert(I, s.item, env, w, G, n);
  }

  lemma LeaveGap<V, W>(I: Interp<V, W>, s: Stmt, env: Env<V>, w: W, limit: nat, G: Env<V>, n: nat)
    requires (s.Return? || s.Break? || s.Continue?) && n <= |env|
    requires s.Return? && s.value.Some? ==> Apart(Names(s.value.value), env, G, n)
    ensures |env| <= |Step(I, s, env, w, limit).env|
    ensures Step(I, s, Insert(env, G, n), w, limit) == Gapped(Step(I, s, env, w, limit), G, n)
  {
    hide Eval, Apart, Scope, Names, Insert, Branch, Loop, Block, Keeps, Trim;
    if s.Return? && s.value.Some? {
      EvalInsertValue(I, s.value.value, env, w, G, n);
    }
  }

  lemma LetGap<V, W>(I: Interp<V, W>, s: Stmt, env: Env<V>, w: W, limit: nat, G: Env<V>, n: nat)
    requires s.Let? && n <= |env| && Apart(Names(s.init), env, G, n)
    ensures |env| <= |Step(I, s, env, w, limit).env|
    ensures Step(I, s, Insert(env, G, n), w, limit) == Gapped(Step(I, s, env, w, limit), G, n)
  {
    hide Eval, Apart, Scope, Names, Insert, Branch, Loop, Block;
    EvalInsertValue(I, s.init, env, w, G, n);
    var v := Eval(I, Value(s.init), env, w);
    InsertUnder(Binding(s.name, v.value), v.env, G, n);
  }

  lemma InsertUnder<V>(b: Binding<V>, env: Env<V>, G: Env<V>, n: nat)
    requires n <= |env|
    ensures Insert([b] + env, G, n) == [b] + Insert(env, G, n)
  {}

  lemma EvalInsertValue<V, W>(I: Interp<V, W>, e: Expr, env: Env<V>, w: W, G: Env<V>, n: nat)
    requires n <= |env| && Apart(Names(e), env, G, n)
    ensures var r := Eval(I, Value(e), env, w);
            Eval(I, Value(e), Insert(env, G, n), w) == Evaluated(r.value, Insert(r.env, G, n), r.world, r.halts)
    ensures forall names: set<string> :: Apart(names, env, G, n) ==> Apart(names, Eval(I, Value(e), env, w).env, G, n)
  {
    EvalInsert(I, Value(e), env, w, G, n);
    var env' := Eval(I, Value(e), env, w).env;
    forall names: set<string> | Apart(names, env, G, n) ensures Apart(names, env', G, n) {
      assert Trim(env', |env|) == env';
      ApartSame(names, env, env', G, n);
    }
  }

  lemma {:induction false} BlockGap<V, W>(I: Interp<V, W>, ss: seq<Stmt>, env: Env<V>, w: W, limit: nat, G: Env<V>, n: nat)
    requires !UseOf(ss).defer_ && n <= |env| && Apart(Free(ss), env, G, n)
    ensures Block(I, ss, Insert(env, G, n), w, limit) == Gapped(Block(I, ss, env, w, limit), G, n)
    decreases SizeAll(ss), 3, 0
  {
    hide Insert, Apart, Exec, Keeps, Base, Scope;
    ExecGap(I, ss, env, w, limit, G, n);
    InsertTrim(Exec(I, ss, env, w, [], limit).env, G, n, |env|);
    InsertTrim(env, G, n, |env|);
  }

  lemma {:induction false} GuardGap<V, W>(I: Interp<V, W>, s: Stmt, env: Env<V>, w: W, limit: nat, G: Env<V>, n: nat)
    requires s.Guard? && !UseOfStmt(s).defer_ && n <= |env| && Apart(FreeStmt(s), env, G, n)
    ensures Step(I, s, Insert(env, G, n), w, limit) == Gapped(Step(I, s, env, w, limit), G, n)
    decreases Size(s), 0, 0
  {
    hide Eval, Insert, Block, Step, Scope, Names, Keeps, Trim, Base;
    assert FreeStmt(s) == Names(s.condition) + Free(s.otherwise) + {};
    ApartUnion(Names(s.condition), Free(s.otherwise), {}, env, G, n);
    GuardTurn(I, s.condition, s.otherwise, env, w, limit);
    GuardTurn(I, s.condition, s.otherwise, Insert(env, G, n), w, limit);
    EvalInsertValue(I, s.condition, env, w, G, n);
    var v := Eval(I, Value(s.condition), env, w);
    BlockGap(I, s.otherwise, v.env, v.world, limit, G, n);
  }

  lemma ApartUnion<V>(a: set<string>, b: set<string>, c: set<string>, env: Env<V>, G: Env<V>, n: nat)
    requires n <= |env| && Apart(a + b + c, env, G, n)
    ensures Apart(a, env, G, n) && Apart(b, env, G, n) && Apart(c, env, G, n)
  {}

  lemma {:induction false} BranchGap<V, W>(I: Interp<V, W>, c: Expr, yes: seq<Stmt>, no: Alternative, env: Env<V>, w: W,
                                           limit: nat, G: Env<V>, n: nat)
    requires !UseOf(yes).defer_ && !UseOfOther(no).defer_ && n <= |env| && Apart(Names(c) + Free(yes) + FreeOther(no), env, G, n)
    ensures n <= |Branch(I, c, yes, no, env, w, limit).env|
    ensures Branch(I, c, yes, no, Insert(env, G, n), w, limit) == Gapped(Branch(I, c, yes, no, env, w, limit), G, n)
    decreases SizeAll(yes) + SizeOther(no), 4, 0
  {
    hide Eval, Insert, Block, Scope, Names, Apart, Keeps, Trim, Base;
    ApartUnion(Names(c), Free(yes), FreeOther(no), env, G, n);
    EvalInsertValue(I, c, env, w, G, n);
    var v := Eval(I, Value(c), env, w);
    if v.halts {
    } else if I.truth(v.value) {
      BlockGap(I, yes, v.env, v.world, limit, G, n);
    } else if no.Else? {
      BlockGap(I, no.body, v.env, v.world, limit, G, n);
    } else if no.ElseIf? {
      BranchGap(I, no.condition, no.yes, no.no, v.env, v.world, limit, G, n);
    }
  }

  lemma {:induction false} LoopGap<V, W>(I: Interp<V, W>, c: Expr, body: seq<Stmt>, env: Env<V>, w: W, limit: nat, k: nat,
                                         G: Env<V>, n: nat)
    requires !UseOf(body).defer_ && n <= |env| && Apart(Names(c) + Free(body), env, G, n)
    ensures n <= |Loop(I, c, body, env, w, limit, k).env|
    ensures Loop(I, c, body, Insert(env, G, n), w, limit, k) == Gapped(Loop(I, c, body, env, w, limit, k), G, n)
    decreases 1 + SizeAll(body), 0, k
  {
    hide Eval, Insert, Block, Loop, Scope, Names, Apart, Free, Keeps, Trim, Base;
    assert Names(c) + Free(body) == Names(c) + Free(body) + {};
    ApartUnion(Names(c), Free(body), {}, env, G, n);
    EvalInsertValue(I, c, env, w, G, n);
    var v := Eval(I, Value(c), env, w);
    if !v.halts && I.truth(v.value) && k > 0 {
      LoopTurn(I, c, body, env, w, limit, k);
      LoopTurn(I, c, body, Insert(env, G, n), w, limit, k);
      BlockGap(I, body, v.env, v.world, limit, G, n);
      var r := Block(I, body, v.env, v.world, limit);
      if r.flow.Normal? || r.flow.Continued? {
        ApartTrimmed(Names(c) + Free(body), v.env, r.env, G, n);
        LoopGap(I, c, body, r.env, r.world, limit, k - 1, G, n);
      }
    } else {
      LoopEnd(I, c, body, env, w, limit, k);
      LoopEnd(I, c, body, Insert(env, G, n), w, limit, k);
    }
  }

  lemma ApartTrimmed<V>(names: set<string>, env: Env<V>, env': Env<V>, G: Env<V>, n: nat)
    requires n <= |env| == |env'| && Apart(names, env, G, n) && Scope(env') == Scope(env)
    ensures Apart(names, env', G, n)
  {
    assert Trim(env', |env|) == env';
    ApartSame(names, env, env', G, n);
  }
}
