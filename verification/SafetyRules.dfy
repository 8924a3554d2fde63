/** Acceptance by the unsafe-code pass, stated by typing rules and declarations alone. */
module SafetyRules {
  import opened Options
  import opened SafetyInfer
  import opened SafetySites
  import opened SafetyChecker
  import opened SafetyTypes

  // ---- expressions ------------------------------------------------------------------------

  /** It has a type that is a pointer and neither an array nor a reference. */
  ghost predicate HasRawType(env: Env, ds: seq<Declaration>, e: Expr) {
    exists t :: HasType(env, ds, e, t) && t.pointer && !t.isArray && !t.reference
  }

  /** The operation of the node itself is where it may be: raw pointers are used, and made, under an
      unsafe mark only; foreign and privileged functions are called in an @system function only, and
      unsafe foreign ones under an unsafe mark as well. */
  ghost predicate IsPermitted(env: Env, ds: seq<Declaration>, e: Expr, shielded: bool, system: bool) {
    match e
    case Unary(op, x) => op == "*" && HasRawType(env, ds, x) ==> shielded
    case Index(x, _) => HasRawType(env, ds, x) ==> shielded
    case Member(x, _) => HasRawType(env, ds, x) ==> shielded
    case MethodCall(x, m, _) => m != "as_ptr" && HasRawType(env, ds, x) ==> shielded
    case Cast(x, t) =>
      t.pointer && !t.isArray && !t.reference && !HasRawType(env, ds, x) && x != NullLit ==> shielded
    case Call(f, _) =>
      f in env.functions ==>
        && (env.functions[f].foreign ==> system)
        && (f in env.builtins && env.functions[f].system && f !in SAFE_ASSET_BUILTINS ==> system)
        && (env.functions[f].foreign && env.functions[f].unsafeForeign ==> shielded)
    case _ => true
  }

  /** So is the operation of every expression in it. */
  ghost predicate IsSafe(env: Env, ds: seq<Declaration>, e: Expr, shielded: bool, system: bool)
    decreases e
  {
    && IsPermitted(env, ds, e, shielded, system)
    && match e
       case Unsafe(x) => IsSafe(env, ds, x, true, system)
       case Unary(_, x) => IsSafe(env, ds, x, shielded, system)
       case Binary(_, x, y) => IsSafe(env, ds, x, shielded, system) && IsSafe(env, ds, y, shielded, system)
       case Call(_, es) => forall x <- es :: IsSafe(env, ds, x, shielded, system)
       case Index(x, y) => IsSafe(env, ds, x, shielded, system) && IsSafe(env, ds, y, shielded, system)
       case Member(x, _) => IsSafe(env, ds, x, shielded, system)
       case MethodCall(x, _, es) =>
         IsSafe(env, ds, x, shielded, system) && forall y <- es :: IsSafe(env, ds, y, shielded, system)
       case Cast(x, _) => IsSafe(env, ds, x, shielded, system)
       case ArrayLit(es) => forall x <- es :: IsSafe(env, ds, x, shielded, system)
       case StructLit(_, es) => forall x <- es :: IsSafe(env, ds, x, shielded, system)
       case IfExpr(x, y, z) =>
         IsSafe(env, ds, x, shielded, system) && IsSafe(env, ds, y, shielded, system) && IsSafe(env, ds, z, shielded, system)
       case Number(_) => true
       case Boolean => true
       case CharLit => true
       case StringLit => true
       case NullLit => true
       case Name(_) => true
       case EnumAccess(_) => true
  }

  // ---- statements ---------------------------------------------------------------------------

  /** What a let declares: the type it names, or the type of its value, if there is one. */
  ghost predicate Declares(env: Env, ds: seq<Declaration>, s: Stmt, d: Declaration)
    requires s.Let?
  {
    && d.name == s.name
    && if s.declared.Some? then d.type_ == s.declared
       else forall t :: d.type_ == Some(t) <==> HasType(env, ds, s.value, t)
  }

  /** Every expression is safe among the declarations before it; blocks see those around them, and what
      they declare ends with them. */
  ghost predicate IsSafeBlock(env: Env, ds: seq<Declaration>, ss: seq<Stmt>, shielded: bool, system: bool)
    decreases ss, 1
  {
    ss != [] ==>
      && (assert ss decreases to ss[0]; IsSafeStmt(env, ds, ss[0], shielded, system))
      && if ss[0].Let? then
           forall d :: Declares(env, ds, ss[0], d) ==> IsSafeBlock(env, ds + [d], ss[1..], shielded, system)
         else IsSafeBlock(env, ds, ss[1..], shielded, system)
  }

  ghost predicate IsSafeStmt(env: Env, ds: seq<Declaration>, s: Stmt, shielded: bool, system: bool)
    decreases s, 0
  {
    match s
    case Let(_, _, e) => IsSafe(env, ds, e, shielded, system)
    case Assign(x, e) => IsSafe(env, ds, x, shielded, system) && IsSafe(env, ds, e, shielded, system)
    case Return(r) => r.Some? ==> IsSafe(env, ds, r.value, shielded, system)
    case Expression(e) => IsSafe(env, ds, e, shielded, system)
    case If(c, yes, no) =>
      IsSafe(env, ds, c, shielded, system) && IsSafeBlock(env, ds, yes, shielded, system) && IsSafeBlock(env, ds, no, shielded, system)
    case While(c, body) => IsSafe(env, ds, c, shielded, system) && IsSafeBlock(env, ds, body, shielded, system)
    case Loop(body) => IsSafeBlock(env, ds, body, shielded, system)
    case For(x, first, end, body) =>
      && IsSafe(env, ds, first, shielded, system) && IsSafe(env, ds, end, shielded, system)
      && IsSafeBlock(env, ds + [Declaration(x, Some(Scalar("usize", false)))], body, shielded, system)
    case UnsafeBlock(body) => IsSafeBlock(env, ds, body, true, system)
    case DeferBlock(body) => IsSafeBlock(env, ds, body, shielded, system)
    case DeferAssign(x, e) => IsSafe(env, ds, x, shielded, system) && IsSafe(env, ds, e, shielded, system)
    case DeferExpr(e) => IsSafe(env, ds, e, shielded, system)
    case Break => true
    case Continue => true
  }

  function Parameters(params: seq<(string, Type)>): (ds: seq<Declaration>)
    ensures |ds| == |params| && forall i :: 0 <= i < |ds| ==> ds[i] == Declaration(params[i].0, Some(params[i].1))
  {
    seq(|params|, i requires 0 <= i < |params| => Declaration(params[i].0, Some(params[i].1)))
  }

  /** Outside unsafe to begin with; foreign functions have no body. */
  ghost predicate IsSafeFunction(env: Env, f: Decl) {
    f.foreign || IsSafeBlock(env, Parameters(f.params), f.body, false, f.system)
  }

  // ---- sites of expressions -------------------------------------------------------------------

  ghost predicate NoneRefused(ss: seq<Site>, system: bool) {
    forall s <- ss :: !Refused(s, system)
  }

  lemma NoneRefusedAppend(a: seq<Site>, b: seq<Site>, system: bool)
    ensures NoneRefused(a + b, system) <==> NoneRefused(a, system) && NoneRefused(b, system)
  {
    hide Refused;
    assert forall s :: s in a + b <==> s in a || s in b;
  }

  lemma RawIsRaw(env: Env, e: Expr, ds: seq<Declaration>, scope: Scope)
    requires Represents(ds, scope)
    ensures IsRaw(TypeOf(env, e, scope)) <==> HasRawType(env, ds, e)
  {
    hide TypeOf, HasType;
    TypesAreRules(env, e, ds, scope);
    var t := TypeOf(env, e, scope);
    assert t.Some? ==> HasType(env, ds, e, t.value);
  }

  lemma OwnIsPermitted(env: Env, e: Expr, ds: seq<Declaration>, scope: Scope, shielded: bool, system: bool)
    requires Represents(ds, scope)
    ensures NoneRefused(OwnSites(env, e, scope, shielded), system) <==> IsPermitted(env, ds, e, shielded, system)
  {
    hide TypeOf, HasRawType, Represents, NoneRefused;
    forall holds, kind ensures NoneRefused(One(holds, kind, e, shielded), system) <==> (holds ==> !Refused(Site(kind, e, shielded), system)) {
      OneRefused(holds, kind, e, shielded, system);
    }
    NothingRefused(system);
    if e.Unary? {
      RawIsRaw(env, e.operand, ds, scope);
    } else if e.Index? || e.Member? || e.MethodCall? {
      RawIsRaw(env, e.target, ds, scope);
    } else if e.Cast? {
      RawIsRaw(env, e.operand, ds, scope);
    } else if e.Call? && e.callee in env.functions {
      var f := env.functions[e.callee];
      var a := One(f.foreign, ForeignCall, e, shielded);
      var b := One(e.callee in env.builtins && f.system && e.callee !in SAFE_ASSET_BUILTINS, PrivilegedCall, e, shielded);
      var c := One(f.foreign && f.unsafeForeign, UnsafeForeignCall, e, shielded);
      NoneRefusedAppend(a, b, system);
      NoneRefusedAppend(a + b, c, system);
    }
  }

  lemma OneRefused(holds: bool, kind: SafetyInfer.Kind, at: Expr, shielded: bool, system: bool)
    ensures NoneRefused(One(holds, kind, at, shielded), system) <==> (holds ==> !Refused(Site(kind, at, shielded), system))
  {}

  lemma NothingRefused(system: bool)
    ensures NoneRefused([], system)
  {}

  lemma SafeParts(env: Env, e: Expr, ds: seq<Declaration>, shielded: bool, system: bool)
    ensures IsSafe(env, ds, e, shielded, system) <==>
              IsPermitted(env, ds, e, shielded, system) && forall p <- Parts(e) :: IsSafe(env, ds, p, shielded || e.Unsafe?, system)
  {
    hide IsPermitted;
    var ps := Parts(e);
    match e
    case MethodCall(x, _, es) => assert x in ps && forall p :: p in ps <==> p == x || p in es;
    case IfExpr(x, y, z) => assert x in ps && y in ps && z in ps && forall p :: p in ps <==> p == x || p == y || p == z;
    case Binary(_, x, y) => assert x in ps && y in ps && forall p :: p in ps <==> p == x || p == y;
    case Index(x, y) => assert x in ps && y in ps && forall p :: p in ps <==> p == x || p == y;
    case Unsafe(x) => assert x in ps && forall p :: p in ps <==> p == x;
    case Unary(_, x) => assert x in ps && forall p :: p in ps <==> p == x;
    case Member(x, _) => assert x in ps && forall p :: p in ps <==> p == x;
    case Cast(x, _) => assert x in ps && forall p :: p in ps <==> p == x;
    case Call(_, es) =>
    case ArrayLit(es) =>
    case StructLit(_, es) =>
    case Number(_) =>
    case Boolean =>
    case CharLit =>
    case StringLit =>
    case NullLit =>
    case Name(_) =>
    case EnumAccess(_) =>
  }

  lemma {:induction false} SitesAreSafe(env: Env, e: Expr, ds: seq<Declaration>, scope: Scope, shielded: bool, system: bool)
    requires Represents(ds, scope)
    ensures NoneRefused(SitesOf(env, e, scope, shielded), system) <==> IsSafe(env, ds, e, shielded, system)
    decreases e, 1, 0
  {
    hide OwnSites, SitesOfAll, IsPermitted, IsSafe, Represents, NoneRefused;
    var inside := shielded || e.Unsafe?;
    SafeParts(env, e, ds, shielded, system);
    OwnIsPermitted(env, e, ds, scope, shielded, system);
    AllSitesAreSafe(env, Parts(e), ds, scope, inside, system, e);
    NoneRefusedAppend(SitesOfAll(env, Parts(e), scope, inside, e), OwnSites(env, e, scope, shielded), system);
  }

  lemma {:induction false} AllSitesAreSafe(env: Env, es: seq<Expr>, ds: seq<Declaration>, scope: Scope, shielded: bool, system: bool, above: Expr)
    requires Represents(ds, scope) && forall p <- es :: p < above
    ensures NoneRefused(SitesOfAll(env, es, scope, shielded, above), system) <==> forall p <- es :: IsSafe(env, ds, p, shielded, system)
    decreases above, 0, |es|
  {
    hide SitesOf, IsSafe, Represents, Refused;
    if es != [] {
      var rest := es[1..];
      assert es[0] in es && forall p <- rest :: p in es;
      SitesAreSafe(env, es[0], ds, scope, shielded, system);
      AllSitesAreSafe(env, rest, ds, scope, shielded, system, above);
      NoneRefusedAppend(SitesOf(env, es[0], scope, shielded), SitesOfAll(env, rest, scope, shielded, above), system);
      assert forall p :: p in es <==> p == es[0] || p in rest;
    }
  }

  // ---- declarations and scopes ------------------------------------------------------------------

  lemma {:induction false} Declared(ds: seq<Declaration>, scope: Scope, x: string, t: Option<Type>)
    requires Represents(ds, scope)
    ensures Represents(ds + [Declaration(x, t)], scope[x := t])
  {
    var d := Declaration(x, t);
    var ds' := ds + [d];
    forall y ensures y in scope[x := t] <==> IsDeclared(ds', y) {
      assert forall e :: e in ds' <==> e in ds || e == d;
    }
    forall y, i: nat | IsInnermost(ds', y, i) ensures scope[x := t][y] == ds'[i].type_ {
      if y == x {
        assert ds'[|ds|].name == x;
      } else {
        assert ds'[i].name != x;
        assert IsInnermost(ds, y, i) by {
          assert forall j :: i < j < |ds| ==> ds'[j] == ds[j];
        }
        assert ds[i] in ds;
      }
    }
  }

  function ScopeOf(ds: seq<Declaration>): Scope {
    if ds == [] then map[] else ScopeOf(ds[..|ds| - 1])[ds[|ds| - 1].name := ds[|ds| - 1].type_]
  }

  lemma {:induction false} ScopeRepresents(ds: seq<Declaration>)
    ensures Represents(ds, ScopeOf(ds))
    decreases |ds|
  {
    if ds != [] {
      var n := |ds| - 1;
      ScopeRepresents(ds[..n]);
      Declared(ds[..n], ScopeOf(ds[..n]), ds[n].name, ds[n].type_);
      assert ds == ds[..n] + [ds[n]];
    }
  }

  lemma {:induction false} ParametersDeclared(params: seq<(string, Type)>)
    ensures Represents(Parameters(params), ParamScope(params))
    decreases |params|
  {
    if params != [] {
      var n := |params| - 1;
      ParametersDeclared(params[..n]);
      Declared(Parameters(params[..n]), ParamScope(params[..n]), params[n].0, Some(params[n].1));
      assert Parameters(params) == Parameters(params[..n]) + [Declaration(params[n].0, Some(params[n].1))];
    }
  }

  /** There is one declaration that a let makes, and the scope gets it. */
  lemma LetDeclares(env: Env, s: Stmt, ds: seq<Declaration>, scope: Scope) returns (d: Declaration)
    requires s.Let? && Represents(ds, scope)
    ensures forall d' :: Declares(env, ds, s, d') <==> d' == d
    ensures Represents(ds + [d], After(env, s, scope))
  {
    hide TypeOf, HasType, Represents;
    d := Declaration(s.name, if s.declared.Some? then s.declared else TypeOf(env, s.value, scope));
    TypesAreRules(env, s.value, ds, scope);
    Declared(ds, scope, s.name, d.type_);
    forall d' | Declares(env, ds, s, d') ensures d' == d {
      if s.declared.None? {
        assert d'.type_.Some? ==> HasType(env, ds, s.value, d'.type_.value);
        assert d.type_.Some? ==> d'.type_ == Some(d.type_.value);
      }
    }
  }

  // ---- sites of statements -------------------------------------------------------------------------

  lemma {:induction false} ExprSites(env: Env, es: seq<Expr>, ds: seq<Declaration>, scope: Scope, shielded: bool, system: bool)
    requires Represents(ds, scope)
    ensures NoneRefused(SitesOfExprs(env, es, scope, shielded), system) <==> forall e <- es :: IsSafe(env, ds, e, shielded, system)
    decreases |es|
  {
    hide SitesOf, IsSafe, Represents, Refused;
    if es != [] {
      SitesAreSafe(env, es[0], ds, scope, shielded, system);
      ExprSites(env, es[1..], ds, scope, shielded, system);
      NoneRefusedAppend(SitesOf(env, es[0], scope, shielded), SitesOfExprs(env, es[1..], scope, shielded), system);
      assert forall e :: e in es <==> e == es[0] || e in es[1..];
    }
  }

  lemma StmtParts(env: Env, ds: seq<Declaration>, s: Stmt, shielded: bool, system: bool)
    ensures IsSafeStmt(env, ds, s, shielded, system) <==>
              (forall e <- Exprs(s) :: IsSafe(env, ds, e, shielded, system)) && IsSafeInside(env, ds, s, shielded, system)
  {
    hide IsSafe, IsSafeBlock;
    var es := Exprs(s);
    assert |es| == 1 ==> es[0] in es && forall e :: e in es <==> e == es[0];
    assert |es| == 2 ==> es[0] in es && es[1] in es && forall e :: e in es <==> e == es[0] || e == es[1];
  }

  lemma {:induction false} StmtIsSafe(env: Env, s: Stmt, ds: seq<Declaration>, scope: Scope, shielded: bool, system: bool)
    requires Represents(ds, scope)
    ensures NoneRefused(SitesOfStmt(env, s, scope, shielded), system) <==> IsSafeStmt(env, ds, s, shielded, system)
    decreases s, 1
  {
    hide SitesOfExprs, SitesOfNested, IsSafe, IsSafeStmt, IsSafeInside, Represents, NoneRefused;
    StmtParts(env, ds, s, shielded, system);
    ExprSites(env, Exprs(s), ds, scope, shielded, system);
    NestedIsSafe(env, s, ds, scope, shielded, system);
    NoneRefusedAppend(SitesOfExprs(env, Exprs(s), scope, shielded), SitesOfNested(env, s, scope, shielded), system);
  }

  /** The blocks in a statement. */
  ghost predicate IsSafeInside(env: Env, ds: seq<Declaration>, s: Stmt, shielded: bool, system: bool) {
    match s
    case If(_, yes, no) => IsSafeBlock(env, ds, yes, shielded, system) && IsSafeBlock(env, ds, no, shielded, system)
    case While(_, body) => IsSafeBlock(env, ds, body, shielded, system)
    case Loop(body) => IsSafeBlock(env, ds, body, shielded, system)
    case For(x, _, _, body) => IsSafeBlock(env, ds + [Declaration(x, Some(Scalar("usize", false)))], body, shielded, system)
    case UnsafeBlock(body) => IsSafeBlock(env, ds, body, true, system)
    case DeferBlock(body) => IsSafeBlock(env, ds, body, shielded, system)
    case _ => true
  }

  lemma {:induction false} NestedIsSafe(env: Env, s: Stmt, ds: seq<Declaration>, scope: Scope, shielded: bool, system: bool)
    requires Represents(ds, scope)
    ensures NoneRefused(SitesOfNested(env, s, scope, shielded), system) <==> IsSafeInside(env, ds, s, shielded, system)
    decreases s, 0
  {
    hide SitesOfBlock, IsSafeBlock, Represents, Refused;
    match s
    case If(_, yes, no) =>
      BlockIsSafe(env, yes, ds, scope, shielded, system);
      BlockIsSafe(env, no, ds, scope, shielded, system);
      NoneRefusedAppend(SitesOfBlock(env, yes, scope, shielded), SitesOfBlock(env, no, scope, shielded), system);
    case While(_, body) => BlockIsSafe(env, body, ds, scope, shielded, system);
    case Loop(body) => BlockIsSafe(env, body, ds, scope, shielded, system);
    case For(x, _, _, body) =>
      var t := Some(Scalar("usize", false));
      Declared(ds, scope, x, t);
      BlockIsSafe(env, body, ds + [Declaration(x, t)], scope[x := t], shielded, system);
    case UnsafeBlock(body) => BlockIsSafe(env, body, ds, scope, true, system);
    case DeferBlock(body) => BlockIsSafe(env, body, ds, scope, shielded, system);
    case Let(_, _, _) =>
    case Assign(_, _) =>
    case Return(_) =>
    case Expression(_) =>
    case DeferAssign(_, _) =>
    case DeferExpr(_) =>
    case Break =>
    case Continue =>
  }

  lemma {:induction false} BlockIsSafe(env: Env, ss: seq<Stmt>, ds: seq<Declaration>, scope: Scope, shielded: bool, system: bool)
    requires Represents(ds, scope)
    ensures NoneRefused(SitesOfBlock(env, ss, scope, shielded), system) <==> IsSafeBlock(env, ds, ss, shielded, system)
    decreases ss, 2
  {
    hide SitesOfStmt, IsSafeStmt, Represents, Refused, Declares, After;
    if ss != [] {
      assert ss decreases to ss[0];
      StmtIsSafe(env, ss[0], ds, scope, shielded, system);
      var after := After(env, ss[0], scope);
      if ss[0].Let? {
        var d := LetDeclares(env, ss[0], ds, scope);
        BlockIsSafe(env, ss[1..], ds + [d], after, shielded, system);
      } else {
        SameAfter(env, ss[0], scope);
        BlockIsSafe(env, ss[1..], ds, after, shielded, system);
      }
      NoneRefusedAppend(SitesOfStmt(env, ss[0], scope, shielded), SitesOfBlock(env, ss[1..], after, shielded), system);
    }
  }

  lemma SameAfter(env: Env, s: Stmt, scope: Scope)
    requires !s.Let?
    ensures After(env, s, scope) == scope
  {}

  // ---- modules ------------------------------------------------------------------------------------

  lemma FunctionIsSafe(env: Env, f: Decl)
    ensures f.foreign || NoneRefused(SitesOfFunction(env, f), f.system) <==> IsSafeFunction(env, f)
  {
    hide SitesOfBlock, IsSafeBlock, NoneRefused;
    ParametersDeclared(f.params);
    BlockIsSafe(env, f.body, Parameters(f.params), ParamScope(f.params), false, f.system);
  }

  /** The pass accepts exactly the modules whose functions are safe by the rules. */
  lemma AcceptedIsSafe(env: Env, functions: seq<Decl>)
    ensures (forall f <- functions :: f.foreign || forall s <- SitesOfFunction(env, f) :: !Refused(s, f.system))
            <==> forall f <- functions :: IsSafeFunction(env, f)
  {
    hide SitesOfFunction, Refused, IsSafeFunction;
    forall f | f in functions ensures (f.foreign || forall s <- SitesOfFunction(env, f) :: !Refused(s, f.system)) <==> IsSafeFunction(env, f) {
      FunctionIsSafe(env, f);
    }
  }

  // ---- raw parameters and locals ------------------------------------------------------------------

  predicate IsRawType(t: Type) {
    t.pointer && !t.isArray && !t.reference
  }

  /** The statement dereferences the variable, without an unsafe mark. */
  predicate Dereferences(s: Stmt, x: string) {
    var e := Unary("*", Name(x));
    match s
    case Let(_, _, v) => v == e
    case Assign(t, v) => t == e || v == e
    case Return(r) => r == Some(e)
    case Expression(v) => v == e
    case DeferAssign(t, v) => t == e || v == e
    case DeferExpr(v) => v == e
    case _ => false
  }

  lemma RawNameIsRaw(env: Env, ds: seq<Declaration>, x: string, i: nat)
    requires IsInnermost(ds, x, i) && ds[i].type_.Some? && IsRawType(ds[i].type_.value)
    ensures HasRawType(env, ds, Name(x))
  {
    assert HasType(env, ds, Name(x), ds[i].type_.value);
  }

  lemma {:induction false} RawUseIsUnsafe(env: Env, ds: seq<Declaration>, ss: seq<Stmt>, k: nat, x: string, i: nat, system: bool)
    requires IsInnermost(ds, x, i) && ds[i].type_.Some? && IsRawType(ds[i].type_.value)
    requires k < |ss| && Dereferences(ss[k], x) && forall j :: 0 <= j < k ==> !(ss[j].Let? && ss[j].name == x)
    ensures !IsSafeBlock(env, ds, ss, false, system)
    decreases k
  {
    hide IsSafeStmt, HasRawType;
    if k == 0 {
      RawNameIsRaw(env, ds, x, i);
      UseIsUnsafe(env, ds, ss[0], x, system);
    } else if ss[0].Let? {
      var scope := ScopeOf(ds);
      ScopeRepresents(ds);
      var d := LetDeclares(env, ss[0], ds, scope);
      assert d.name != x by { assert Declares(env, ds, ss[0], d); }
      assert IsInnermost(ds + [d], x, i);
      RawUseIsUnsafe(env, ds + [d], ss[1..], k - 1, x, i, system);
    } else {
      RawUseIsUnsafe(env, ds, ss[1..], k - 1, x, i, system);
    }
  }

  lemma UseIsUnsafe(env: Env, ds: seq<Declaration>, s: Stmt, x: string, system: bool)
    requires Dereferences(s, x) && HasRawType(env, ds, Name(x))
    ensures !IsSafeStmt(env, ds, s, false, system)
  {
    hide HasRawType;
    assert !IsSafe(env, ds, Unary("*", Name(x)), false, system);
  }

  /** Whatever else the module holds: a function that dereferences a raw parameter outside unsafe, with
      no let of that name before, is not accepted. */
  lemma RawParameterIsRefused(env: Env, f: Decl, i: nat, k: nat)
    requires !f.foreign && i < |f.params| && IsRawType(f.params[i].1) && forall j :: i < j < |f.params| ==> f.params[j].0 != f.params[i].0
    requires k < |f.body| && Dereferences(f.body[k], f.params[i].0)
    requires forall j :: 0 <= j < k ==> !(f.body[j].Let? && f.body[j].name == f.params[i].0)
    ensures !IsSafeFunction(env, f) && exists s <- SitesOfFunction(env, f) :: Refused(s, f.system)
  {
    hide IsSafeBlock, SitesOfFunction, Refused;
    RawUseIsUnsafe(env, Parameters(f.params), f.body, k, f.params[i].0, i, f.system);
    FunctionIsSafe(env, f);
  }

  /** And so is one that declares a raw local and dereferences it. */
  lemma RawLocalIsRefused(env: Env, f: Decl, m: nat, k: nat)
    requires !f.foreign && m < k < |f.body| && f.body[m].Let? && f.body[m].declared.Some? && IsRawType(f.body[m].declared.value)
    requires Dereferences(f.body[k], f.body[m].name)
    requires forall j :: m < j < k ==> !(f.body[j].Let? && f.body[j].name == f.body[m].name)
    ensures !IsSafeFunction(env, f) && exists s <- SitesOfFunction(env, f) :: Refused(s, f.system)
  {
    hide IsSafeBlock, SitesOfFunction, Refused;
    RawLetIsUnsafe(env, Parameters(f.params), f.body, m, k, f.system);
    FunctionIsSafe(env, f);
  }

  lemma {:induction false} RawLetIsUnsafe(env: Env, ds: seq<Declaration>, ss: seq<Stmt>, m: nat, k: nat, system: bool)
    requires m < k < |ss| && ss[m].Let? && ss[m].declared.Some? && IsRawType(ss[m].declared.value)
    requires Dereferences(ss[k], ss[m].name) && forall j :: m < j < k ==> !(ss[j].Let? && ss[j].name == ss[m].name)
    ensures !IsSafeBlock(env, ds, ss, false, system)
    decreases m
  {
    hide IsSafeStmt;
    if ss[0].Let? {
      ScopeRepresents(ds);
      var d := LetDeclares(env, ss[0], ds, ScopeOf(ds));
      assert Declares(env, ds, ss[0], d);
      if m == 0 {
        assert IsInnermost(ds + [d], d.name, |ds|);
        RawUseIsUnsafe(env, ds + [d], ss[1..], k - 1, d.name, |ds|, system);
      } else {
        RawLetIsUnsafe(env, ds + [d], ss[1..], m - 1, k - 1, system);
      }
    } else {
      RawLetIsUnsafe(env, ds, ss[1..], m - 1, k - 1, system);
    }
  }
}
