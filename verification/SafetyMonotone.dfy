/** Adding unsafe or @system never makes the pass reject what it accepted. */
module SafetyMonotone {
  import opened Options
  import opened SafetyInfer
  import opened SafetySites
  import opened SafetyChecker

  /** The same operations in the same order, no fewer of them shielded. */
  ghost predicate AtLeast(a: seq<Site>, b: seq<Site>) {
    && |a| == |b|
    && forall i :: 0 <= i < |a| ==> a[i].kind == b[i].kind && a[i].at == b[i].at && (a[i].shielded ==> b[i].shielded)
  }

  lemma AtLeastAppend(a: seq<Site>, b: seq<Site>, a': seq<Site>, b': seq<Site>)
    requires AtLeast(a, a') && AtLeast(b, b')
    ensures AtLeast(a + b, a' + b')
  {}

  lemma {:induction false} SitesShielded(env: Env, e: Expr, scope: Scope, u: bool, u': bool)
    requires u ==> u'
    ensures AtLeast(SitesOf(env, e, scope, u), SitesOf(env, e, scope, u'))
    decreases e, 1, 0
  {
    hide SitesOfAll, OwnSites, AtLeast;
    AllShielded(env, Parts(e), scope, u || e.Unsafe?, u' || e.Unsafe?, e);
    OwnShielded(env, e, scope, u, u');
    AtLeastAppend(SitesOfAll(env, Parts(e), scope, u || e.Unsafe?, e), OwnSites(env, e, scope, u),
                  SitesOfAll(env, Parts(e), scope, u' || e.Unsafe?, e), OwnSites(env, e, scope, u'));
  }

  lemma OwnShielded(env: Env, e: Expr, scope: Scope, u: bool, u': bool)
    requires u ==> u'
    ensures AtLeast(OwnSites(env, e, scope, u), OwnSites(env, e, scope, u'))
  {
    hide TypeOf;
  }

  lemma {:induction false} AllShielded(env: Env, es: seq<Expr>, scope: Scope, u: bool, u': bool, above: Expr)
    requires (u ==> u') && forall p <- es :: p < above
    ensures AtLeast(SitesOfAll(env, es, scope, u, above), SitesOfAll(env, es, scope, u', above))
    decreases above, 0, |es|
  {
    hide SitesOf, AtLeast;
    if es == [] {
      NoSites();
    } else {
      assert es[0] in es && forall p <- es[1..] :: p in es;
      SitesShielded(env, es[0], scope, u, u');
      AllShielded(env, es[1..], scope, u, u', above);
      AtLeastAppend(SitesOf(env, es[0], scope, u), SitesOfAll(env, es[1..], scope, u, above),
                    SitesOf(env, es[0], scope, u'), SitesOfAll(env, es[1..], scope, u', above));
    }
  }

  lemma NoSites()
    ensures AtLeast([], [])
  {}

  lemma {:induction false} ExprsShielded(env: Env, es: seq<Expr>, scope: Scope, u: bool, u': bool)
    requires u ==> u'
    ensures AtLeast(SitesOfExprs(env, es, scope, u), SitesOfExprs(env, es, scope, u'))
    decreases |es|
  {
    hide SitesOf, AtLeast;
    if es == [] {
      NoSites();
    } else {
      SitesShielded(env, es[0], scope, u, u');
      ExprsShielded(env, es[1..], scope, u, u');
      AtLeastAppend(SitesOf(env, es[0], scope, u), SitesOfExprs(env, es[1..], scope, u),
                    SitesOf(env, es[0], scope, u'), SitesOfExprs(env, es[1..], scope, u'));
    }
  }

  lemma {:induction false} StmtShielded(env: Env, s: Stmt, scope: Scope, u: bool, u': bool)
    requires u ==> u'
    ensures AtLeast(SitesOfStmt(env, s, scope, u), SitesOfStmt(env, s, scope, u'))
    decreases s
  {
    hide SitesOfExprs, SitesOfBlock, AtLeast;
    NoSites();
    ExprsShielded(env, Exprs(s), scope, u, u');
    if s.If? {
      BlockShielded(env, s.yes, scope, u, u');
      BlockShielded(env, s.no, scope, u, u');
      AtLeastAppend(SitesOfBlock(env, s.yes, scope, u), SitesOfBlock(env, s.no, scope, u),
                    SitesOfBlock(env, s.yes, scope, u'), SitesOfBlock(env, s.no, scope, u'));
    } else if s.While? || s.Loop? || s.DeferBlock? {
      BlockShielded(env, s.body, scope, u, u');
    } else if s.UnsafeBlock? {
      BlockShielded(env, s.body, scope, true, true);
    } else if s.For? {
      BlockShielded(env, s.body, scope[s.name := Some(Plain("usize"))], u, u');
    }
    AtLeastAppend(SitesOfExprs(env, Exprs(s), scope, u), SitesOfNested(env, s, scope, u),
                  SitesOfExprs(env, Exprs(s), scope, u'), SitesOfNested(env, s, scope, u'));
  }

  lemma {:induction false} BlockShielded(env: Env, ss: seq<Stmt>, scope: Scope, u: bool, u': bool)
    requires u ==> u'
    ensures AtLeast(SitesOfBlock(env, ss, scope, u), SitesOfBlock(env, ss, scope, u'))
    decreases ss
  {
    hide SitesOfStmt, AtLeast, TypeOf;
    if ss == [] {
      NoSites();
    } else {
      assert ss decreases to ss[0];
      StmtShielded(env, ss[0], scope, u, u');
      BlockShielded(env, ss[1..], After(env, ss[0], scope), u, u');
      AtLeastAppend(SitesOfStmt(env, ss[0], scope, u), SitesOfBlock(env, ss[1..], After(env, ss[0], scope), u),
                    SitesOfStmt(env, ss[0], scope, u'), SitesOfBlock(env, ss[1..], After(env, ss[0], scope), u'));
    }
  }

  lemma AcceptedStays(a: seq<Site>, b: seq<Site>, system: bool, system': bool)
    requires AtLeast(a, b) && (system ==> system') && FirstRefused(a, system).None?
    ensures FirstRefused(b, system').None?
  {
    FirstRefusedIsNone(a, system);
    FirstRefusedIsNone(b, system');
    forall s | s in b ensures !Refused(s, system') {
      var i :| 0 <= i < |b| && b[i] == s;
      assert a[i] in a;
    }
  }

  /** An accepted expression has the same type deeper inside unsafe or in an @system function. */
  lemma MoreUnsafeExpr(env: Env, e: Expr, scope: Scope, depth: nat, depth': nat, system: bool, system': bool)
    requires depth <= depth' && (system ==> system') && Infer(env, e, scope, depth, system).Ok?
    ensures Infer(env, e, scope, depth', system') == Infer(env, e, scope, depth, system)
  {
    hide Infer, SitesOf, TypeOf, AtLeast;
    InferMeaning(env, e, scope, depth, system);
    InferMeaning(env, e, scope, depth', system');
    SitesShielded(env, e, scope, depth > 0, depth' > 0);
    AcceptedStays(SitesOf(env, e, scope, depth > 0), SitesOf(env, e, scope, depth' > 0), system, system');
  }

  /** An accepted block is accepted deeper inside unsafe, or in an @system function. */
  lemma MoreUnsafeBlock(env: Env, ss: seq<Stmt>, scope: Scope, depth: nat, depth': nat, system: bool, system': bool)
    requires depth <= depth' && (system ==> system') && FirstRefused(SitesOfBlock(env, ss, scope, depth > 0), system).None?
    ensures FirstRefused(SitesOfBlock(env, ss, scope, depth' > 0), system').None?
  {
    hide SitesOfBlock, AtLeast;
    BlockShielded(env, ss, scope, depth > 0, depth' > 0);
    AcceptedStays(SitesOfBlock(env, ss, scope, depth > 0), SitesOfBlock(env, ss, scope, depth' > 0), system, system');
  }
}
