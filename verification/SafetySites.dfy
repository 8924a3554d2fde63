/** Which operations of an expression are restricted, and that the pass accepts exactly the
    expressions in which each of them is where it may be. */
module SafetySites {
  import opened Options
  import opened SafetyInfer

  /** A restricted operation, and whether something around it is marked unsafe. */
  datatype Site = Site(kind: Kind, at: Expr, shielded: bool)

  /** The types: those the pass gives where nothing is restricted. */
  function TypeOf(env: Env, e: Expr, scope: Scope): Option<Type> {
    NeverRefused(env, e, scope, 1);
    Infer(env, e, scope, 1, true).value
  }

  lemma {:induction false} NeverRefused(env: Env, e: Expr, scope: Scope, depth: nat)
    requires depth > 0
    ensures Infer(env, e, scope, depth, true).Ok?
    decreases e
  {
    match e
    case Unsafe(inner) => NeverRefused(env, inner, scope, depth + 1);
    case Number(_) =>
    case Boolean =>
    case CharLit =>
    case StringLit =>
    case NullLit =>
    case Name(_) =>
    case EnumAccess(_) =>
    case ArrayLit(elements) => NeverRefusedAll(env, elements, scope, depth);
    case StructLit(_, values) => NeverRefusedAll(env, values, scope, depth);
    case IfExpr(c, t, f) =>
      NeverRefused(env, c, scope, depth);
      NeverRefused(env, t, scope, depth);
      NeverRefused(env, f, scope, depth);
    case Unary(_, operand) => NeverRefused(env, operand, scope, depth);
    case Binary(_, l, r) =>
      NeverRefused(env, l, scope, depth);
      NeverRefused(env, r, scope, depth);
    case Call(_, args) => NeverRefusedAll(env, args, scope, depth);
    case Index(t, i) =>
      NeverRefused(env, t, scope, depth);
      NeverRefused(env, i, scope, depth);
    case Member(t, _) => NeverRefused(env, t, scope, depth);
    case MethodCall(t, _, args) =>
      NeverRefused(env, t, scope, depth);
      NeverRefusedAll(env, args, scope, depth);
    case Cast(operand, _) => NeverRefused(env, operand, scope, depth);
  }

  lemma {:induction false} NeverRefusedAll(env: Env, es: seq<Expr>, scope: Scope, depth: nat)
    requires depth > 0
    ensures InferAll(env, es, scope, depth, true).Ok?
    decreases es
  {
    if es != [] {
      assert es decreases to es[0];
      NeverRefused(env, es[0], scope, depth);
      NeverRefusedAll(env, es[1..], scope, depth);
    }
  }

  function One(holds: bool, kind: Kind, at: Expr, shielded: bool): seq<Site> {
    if holds then [Site(kind, at, shielded)] else []
  }

  /** The operation of a node itself. */
  function OwnSites(env: Env, e: Expr, scope: Scope, shielded: bool): seq<Site> {
    match e
    case Unary(op, operand) => One(op == "*" && IsRaw(TypeOf(env, operand, scope)), Dereference, e, shielded)
    case Index(t, _) => One(IsRaw(TypeOf(env, t, scope)), RawIndex, e, shielded)
    case Member(t, _) => One(IsRaw(TypeOf(env, t, scope)), RawField, e, shielded)
    case MethodCall(t, m, _) => One(m != "as_ptr" && IsRaw(TypeOf(env, t, scope)), RawMethod, e, shielded)
    case Cast(operand, target) =>
      One(IsRaw(Some(target)) && !IsRaw(TypeOf(env, operand, scope)) && !operand.NullLit?, RawCreation, e, shielded)
    case Call(callee, _) =>
      if callee !in env.functions then []
      else
        var f := env.functions[callee];
        One(f.foreign, ForeignCall, e, shielded)
        + One(callee in env.builtins && f.system && callee !in SAFE_ASSET_BUILTINS, PrivilegedCall, e, shielded)
        + One(f.foreign && f.unsafeForeign, UnsafeForeignCall, e, shielded)
    case Unsafe(_) => []
    case Number(_) => []
    case Boolean => []
    case CharLit => []
    case StringLit => []
    case NullLit => []
    case Name(_) => []
    case EnumAccess(_) => []
    case ArrayLit(_) => []
    case StructLit(_, _) => []
    case IfExpr(_, _, _) => []
    case Binary(_, _, _) => []
  }

  /** The operands of a node. */
  function Parts(e: Expr): (ps: seq<Expr>)
    ensures forall p <- ps :: p < e
  {
    match e
    case Unary(_, x) => [x]
    case Index(t, i) => [t, i]
    case Member(t, _) => [t]
    case MethodCall(t, _, args) => assert forall a <- args :: a < e; [t] + args
    case Cast(x, _) => [x]
    case Call(_, args) => args
    case Unsafe(x) => [x]
    case ArrayLit(es) => es
    case StructLit(_, vs) => vs
    case IfExpr(c, t, f) => [c, t, f]
    case Binary(_, l, r) => [l, r]
    case Number(_) => []
    case Boolean => []
    case CharLit => []
    case StringLit => []
    case NullLit => []
    case Name(_) => []
    case EnumAccess(_) => []
  }

  /** All of them, in the order of evaluation. */
  function SitesOf(env: Env, e: Expr, scope: Scope, shielded: bool): seq<Site>
    decreases e, 1, 0
  {
    SitesOfAll(env, Parts(e), scope, shielded || e.Unsafe?, e) + OwnSites(env, e, scope, shielded)
  }

  function SitesOfAll(env: Env, es: seq<Expr>, scope: Scope, shielded: bool, ghost above: Expr): seq<Site>
    requires forall p <- es :: p < above
    decreases above, 0, |es|
  {
    if es == [] then [] else
      assert es[0] in es && forall p <- es[1..] :: p in es;
      SitesOf(env, es[0], scope, shielded) + SitesOfAll(env, es[1..], scope, shielded, above)
  }

  // ---- acceptance ------------------------------------------------------------

  /** FFI and privileged calls ask for an @system function, everything else for an unsafe marker. */
  predicate Refused(s: Site, system: bool) {
    if s.kind.NeedsSystem() then !system else !s.shielded
  }

  function FirstRefused(ss: seq<Site>, system: bool): Option<Site> {
    if ss == [] then None else if Refused(ss[0], system) then Some(ss[0]) else FirstRefused(ss[1..], system)
  }

  lemma {:induction false} FirstRefusedIsNone(ss: seq<Site>, system: bool)
    ensures FirstRefused(ss, system).None? <==> forall s <- ss :: !Refused(s, system)
    decreases |ss|
  {
    if ss != [] {
      FirstRefusedIsNone(ss[1..], system);
      assert forall s <- ss :: s == ss[0] || s in ss[1..];
    }
  }

  lemma {:induction false} FirstAppend(a: seq<Site>, b: seq<Site>, system: bool)
    ensures FirstRefused(a + b, system) == if FirstRefused(a, system).Some? then FirstRefused(a, system) else FirstRefused(b, system)
    decreases |a|
  {
    if a == [] {
      assert a + b == b;
    } else {
      assert (a + b)[1..] == a[1..] + b;
      FirstAppend(a[1..], b, system);
    }
  }

  /** The first refused site decides; without one, the value stands. */
  function Verdict<T>(ss: seq<Site>, system: bool, value: T): Checked<T> {
    match FirstRefused(ss, system)
    case None => Ok(value)
    case Some(s) => Violation(s.kind, s.at)
  }

  function TypesOf(env: Env, es: seq<Expr>, scope: Scope): (r: seq<Option<Type>>)
    ensures |r| == |es|
  {
    if es == [] then [] else [TypeOf(env, es[0], scope)] + TypesOf(env, es[1..], scope)
  }

  function Or<T>(a: Option<T>, b: Option<T>): Option<T> {
    if a.Some? then a else b
  }

  function First(env: Env, e: Expr, scope: Scope, shielded: bool, system: bool): Option<Site> {
    FirstRefused(SitesOf(env, e, scope, shielded), system)
  }

  function FirstOwn(env: Env, e: Expr, scope: Scope, shielded: bool, system: bool): Option<Site> {
    FirstRefused(OwnSites(env, e, scope, shielded), system)
  }

  /** Nodes with one operation of their own, if any. */
  lemma FirstOwnOne(env: Env, e: Expr, scope: Scope, shielded: bool, system: bool)
    requires !e.Call?
    ensures FirstOwn(env, e, scope, shielded, system)
         == if OwnSites(env, e, scope, shielded) != [] && Refused(OwnSites(env, e, scope, shielded)[0], system)
            then Some(OwnSites(env, e, scope, shielded)[0]) else None
  {
    hide TypeOf;
    var own := OwnSites(env, e, scope, shielded);
    assert |own| <= 1;
    if own != [] {
      FirstRefusedIsNone(own[1..], system);
      assert own == [own[0]];
    }
  }

  /** Operands are looked at one after the other, then the node itself. */
  lemma FirstOfCons(env: Env, p: Expr, ps: seq<Expr>, scope: Scope, shielded: bool, system: bool, above: Expr)
    requires forall x <- [p] + ps :: x < above
    ensures forall x <- ps :: x < above
    ensures FirstRefused(SitesOfAll(env, [p] + ps, scope, shielded, above), system)
         == Or(First(env, p, scope, shielded, system), FirstRefused(SitesOfAll(env, ps, scope, shielded, above), system))
  {
    hide SitesOf;
    var all := [p] + ps;
    assert all[0] == p && all[1..] == ps;
    assert all[0] in all && forall x <- ps :: x in all;
    FirstAppend(SitesOf(env, p, scope, shielded), SitesOfAll(env, ps, scope, shielded, above), system);
  }

  lemma FirstOfNode(env: Env, e: Expr, scope: Scope, shielded: bool, inside: bool, system: bool)
    requires inside == (shielded || e.Unsafe?)
    ensures forall x <- Parts(e) :: x < e
    ensures First(env, e, scope, shielded, system)
         == Or(FirstRefused(SitesOfAll(env, Parts(e), scope, inside, e), system), FirstOwn(env, e, scope, shielded, system))
  {
    hide SitesOfAll, OwnSites;
    FirstAppend(SitesOfAll(env, Parts(e), scope, shielded || e.Unsafe?, e), OwnSites(env, e, scope, shielded), system);
  }

  lemma FirstOfOne(env: Env, e: Expr, x: Expr, scope: Scope, shielded: bool, inside: bool, system: bool)
    requires Parts(e) == [x] && inside == (shielded || e.Unsafe?)
    ensures First(env, e, scope, shielded, system)
         == Or(First(env, x, scope, inside, system), FirstOwn(env, e, scope, shielded, system))
  {
    hide SitesOf, First, FirstOwn;
    FirstOfNode(env, e, scope, shielded, inside, system);
    assert Parts(e) == [x] + [];
    FirstOfCons(env, x, [], scope, inside, system, e);
  }

  lemma FirstOfTwo(env: Env, e: Expr, x: Expr, y: Expr, scope: Scope, shielded: bool, system: bool)
    requires Parts(e) == [x, y] && !e.Unsafe?
    ensures First(env, e, scope, shielded, system)
         == Or(First(env, x, scope, shielded, system), Or(First(env, y, scope, shielded, system), FirstOwn(env, e, scope, shielded, system)))
  {
    hide SitesOf, First, FirstOwn;
    FirstOfNode(env, e, scope, shielded, shielded, system);
    assert Parts(e) == [x] + ([y] + []);
    FirstOfCons(env, x, [y] + [], scope, shielded, system, e);
    FirstOfCons(env, y, [], scope, shielded, system, e);
  }

  lemma FirstOfThree(env: Env, e: Expr, x: Expr, y: Expr, z: Expr, scope: Scope, shielded: bool, system: bool)
    requires Parts(e) == [x, y, z] && !e.Unsafe?
    ensures First(env, e, scope, shielded, system)
         == Or(First(env, x, scope, shielded, system),
               Or(First(env, y, scope, shielded, system), Or(First(env, z, scope, shielded, system), FirstOwn(env, e, scope, shielded, system))))
  {
    hide SitesOf, First, FirstOwn;
    FirstOfNode(env, e, scope, shielded, shielded, system);
    assert Parts(e) == [x] + ([y] + ([z] + []));
    FirstOfCons(env, x, [y] + ([z] + []), scope, shielded, system, e);
    FirstOfCons(env, y, [z] + [], scope, shielded, system, e);
    FirstOfCons(env, z, [], scope, shielded, system, e);
  }

  /** The pass stops at the first refused operation, and otherwise gives a type that does not depend
      on where the expression stands. */
  ghost predicate Meant(env: Env, e: Expr, scope: Scope, depth: nat, system: bool) {
    && Infer(env, e, scope, depth, system) == Verdict(SitesOf(env, e, scope, depth > 0), system, TypeOf(env, e, scope))
    && Infer(env, e, scope, 1, true) == Ok(TypeOf(env, e, scope))
  }

  lemma UnsafeMeaning(env: Env, e: Expr, scope: Scope, depth: nat, system: bool)
    requires e.Unsafe? && Meant(env, e.inner, scope, depth + 1, system) && Meant(env, e.inner, scope, 2, true)
    ensures Meant(env, e, scope, depth, system)
  {
    hide SitesOf;
    NeverRefused(env, e, scope, 1);
    FirstOfOne(env, e, e.inner, scope, depth > 0, true, system);
  }

  lemma UnaryMeaning(env: Env, e: Expr, scope: Scope, depth: nat, system: bool)
    requires e.Unary? && Meant(env, e.operand, scope, depth, system)
    ensures Meant(env, e, scope, depth, system)
  {
    hide SitesOf;
    FirstOwnOne(env, e, scope, depth > 0, system);
    NeverRefused(env, e, scope, 1);
    FirstOfOne(env, e, e.operand, scope, depth > 0, depth > 0, system);
  }

  lemma CastMeaning(env: Env, e: Expr, scope: Scope, depth: nat, system: bool)
    requires e.Cast? && Meant(env, e.operand, scope, depth, system)
    ensures Meant(env, e, scope, depth, system)
  {
    hide SitesOf;
    FirstOwnOne(env, e, scope, depth > 0, system);
    NeverRefused(env, e, scope, 1);
    FirstOfOne(env, e, e.operand, scope, depth > 0, depth > 0, system);
  }

  lemma MemberMeaning(env: Env, e: Expr, scope: Scope, depth: nat, system: bool)
    requires e.Member? && Meant(env, e.target, scope, depth, system)
    ensures Meant(env, e, scope, depth, system)
  {
    hide SitesOf;
    FirstOwnOne(env, e, scope, depth > 0, system);
    NeverRefused(env, e, scope, 1);
    FirstOfOne(env, e, e.target, scope, depth > 0, depth > 0, system);
  }

  lemma IndexMeaning(env: Env, e: Expr, scope: Scope, depth: nat, system: bool)
    requires e.Index? && Meant(env, e.target, scope, depth, system) && Meant(env, e.index, scope, depth, system)
    ensures Meant(env, e, scope, depth, system)
  {
    hide SitesOf;
    FirstOwnOne(env, e, scope, depth > 0, system);
    NeverRefused(env, e, scope, 1);
    FirstOfTwo(env, e, e.target, e.index, scope, depth > 0, system);
  }

  lemma BinaryMeaning(env: Env, e: Expr, scope: Scope, depth: nat, system: bool)
    requires e.Binary? && Meant(env, e.left, scope, depth, system) && Meant(env, e.right, scope, depth, system)
    ensures Meant(env, e, scope, depth, system)
  {
    hide SitesOf;
    NeverRefused(env, e, scope, 1);
    FirstOfTwo(env, e, e.left, e.right, scope, depth > 0, system);
  }

  lemma IfMeaning(env: Env, e: Expr, scope: Scope, depth: nat, system: bool)
    requires e.IfExpr? && Meant(env, e.condition, scope, depth, system)
    requires Meant(env, e.thenExpr, scope, depth, system) && Meant(env, e.elseExpr, scope, depth, system)
    ensures Meant(env, e, scope, depth, system)
  {
    hide SitesOf;
    NeverRefused(env, e, scope, 1);
    FirstOfThree(env, e, e.condition, e.thenExpr, e.elseExpr, scope, depth > 0, system);
  }

  /** What the pass makes of several operands. */
  ghost predicate AllMeant(env: Env, es: seq<Expr>, scope: Scope, depth: nat, system: bool, above: Expr)
    requires forall p <- es :: p < above
  {
    && InferAll(env, es, scope, depth, system) == Verdict(SitesOfAll(env, es, scope, depth > 0, above), system, TypesOf(env, es, scope))
    && InferAll(env, es, scope, 1, true) == Ok(TypesOf(env, es, scope))
  }

  lemma MethodMeaning(env: Env, e: Expr, scope: Scope, depth: nat, system: bool)
    requires e.MethodCall? && Meant(env, e.target, scope, depth, system)
    requires forall p <- e.args :: p < e
    requires AllMeant(env, e.args, scope, depth, system, e)
    ensures Meant(env, e, scope, depth, system)
  {
    hide SitesOf;
    FirstOwnOne(env, e, scope, depth > 0, system);
    NeverRefused(env, e, scope, 1);
    FirstOfNode(env, e, scope, depth > 0, depth > 0, system);
    FirstOfCons(env, e.target, e.args, scope, depth > 0, system, e);
  }

  lemma ListMeaning(env: Env, e: Expr, scope: Scope, depth: nat, system: bool)
    requires e.Call? || e.ArrayLit? || e.StructLit?
    requires forall p <- Parts(e) :: p < e
    requires AllMeant(env, Parts(e), scope, depth, system, e)
    ensures Meant(env, e, scope, depth, system)
  {
    hide SitesOf;
    NeverRefused(env, e, scope, 1);
    FirstOfNode(env, e, scope, depth > 0, depth > 0, system);
    FirstAppendThree(env, e, scope, depth > 0, system);
    if e.ArrayLit? {
      TypesAt(env, e.elements, scope);
    }
  }

  /** The order of the three operations that a call can be. */
  lemma FirstAppendThree(env: Env, e: Expr, scope: Scope, shielded: bool, system: bool)
    ensures e.Call? && e.callee in env.functions ==>
              var f := env.functions[e.callee];
              FirstOwn(env, e, scope, shielded, system) ==
                if f.foreign && !system then Some(Site(ForeignCall, e, shielded))
                else if e.callee in env.builtins && f.system && e.callee !in SAFE_ASSET_BUILTINS && !system then Some(Site(PrivilegedCall, e, shielded))
                else if f.foreign && f.unsafeForeign && !shielded then Some(Site(UnsafeForeignCall, e, shielded))
                else None
  {
    if e.Call? && e.callee in env.functions {
      var f := env.functions[e.callee];
      var a := One(f.foreign, ForeignCall, e, shielded);
      var b := One(e.callee in env.builtins && f.system && e.callee !in SAFE_ASSET_BUILTINS, PrivilegedCall, e, shielded);
      var c := One(f.foreign && f.unsafeForeign, UnsafeForeignCall, e, shielded);
      FirstAppend(a, b, system);
      FirstAppend(a + b, c, system);
    }
  }

  lemma {:induction false} TypesAt(env: Env, es: seq<Expr>, scope: Scope)
    ensures forall i :: 0 <= i < |es| ==> TypesOf(env, es, scope)[i] == TypeOf(env, es[i], scope)
    decreases |es|
  {
    if es != [] {
      TypesAt(env, es[1..], scope);
    }
  }

  lemma {:induction false} AllMeaning(env: Env, es: seq<Expr>, scope: Scope, depth: nat, system: bool, above: Expr)
    requires forall p <- es :: p < above
    ensures AllMeant(env, es, scope, depth, system, above)
    decreases above, 0, |es|
  {
    hide Infer, SitesOf, TypeOf, Refused;
    if es != [] {
      assert es[0] in es && forall p <- es[1..] :: p in es;
      InferMeaning(env, es[0], scope, depth, system);
      AllMeaning(env, es[1..], scope, depth, system, above);
      FirstAppend(SitesOf(env, es[0], scope, depth > 0), SitesOfAll(env, es[1..], scope, depth > 0, above), system);
    }
  }

  lemma {:induction false} InferMeaning(env: Env, e: Expr, scope: Scope, depth: nat, system: bool)
    ensures Meant(env, e, scope, depth, system)
    decreases e, 1, 0
  {
    hide Infer, SitesOf, TypeOf, AllMeant, Meant, Verdict;
    match e
    case Unsafe(inner) =>
      InferMeaning(env, inner, scope, depth + 1, system);
      InferMeaning(env, inner, scope, 2, true);
      UnsafeMeaning(env, e, scope, depth, system);
    case Number(_) => LeafMeaning(env, e, scope, depth, system);
    case Boolean => LeafMeaning(env, e, scope, depth, system);
    case CharLit => LeafMeaning(env, e, scope, depth, system);
    case StringLit => LeafMeaning(env, e, scope, depth, system);
    case NullLit => LeafMeaning(env, e, scope, depth, system);
    case Name(_) => LeafMeaning(env, e, scope, depth, system);
    case EnumAccess(_) => LeafMeaning(env, e, scope, depth, system);
    case ArrayLit(elements) =>
      AllMeaning(env, elements, scope, depth, system, e);
      ListMeaning(env, e, scope, depth, system);
    case StructLit(_, values) =>
      AllMeaning(env, values, scope, depth, system, e);
      ListMeaning(env, e, scope, depth, system);
    case Call(_, args) =>
      AllMeaning(env, args, scope, depth, system, e);
      ListMeaning(env, e, scope, depth, system);
    case IfExpr(c, t, f) =>
      InferMeaning(env, c, scope, depth, system);
      InferMeaning(env, t, scope, depth, system);
      InferMeaning(env, f, scope, depth, system);
      IfMeaning(env, e, scope, depth, system);
    case Unary(_, operand) =>
      InferMeaning(env, operand, scope, depth, system);
      UnaryMeaning(env, e, scope, depth, system);
    case Binary(_, l, r) =>
      InferMeaning(env, l, scope, depth, system);
      InferMeaning(env, r, scope, depth, system);
      BinaryMeaning(env, e, scope, depth, system);
    case Index(t, i) =>
      InferMeaning(env, t, scope, depth, system);
      InferMeaning(env, i, scope, depth, system);
      IndexMeaning(env, e, scope, depth, system);
    case Member(t, _) =>
      InferMeaning(env, t, scope, depth, system);
      MemberMeaning(env, e, scope, depth, system);
    case MethodCall(t, _, args) =>
      InferMeaning(env, t, scope, depth, system);
      assert forall a <- args :: a in Parts(e);
      AllMeaning(env, args, scope, depth, system, e);
      MethodMeaning(env, e, scope, depth, system);
    case Cast(operand, _) =>
      InferMeaning(env, operand, scope, depth, system);
      CastMeaning(env, e, scope, depth, system);
  }

  lemma LeafMeaning(env: Env, e: Expr, scope: Scope, depth: nat, system: bool)
    requires Parts(e) == [] && !e.Call? && !e.ArrayLit? && !e.StructLit?
    ensures Meant(env, e, scope, depth, system)
  {}
}
