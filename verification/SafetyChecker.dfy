/** The unsafe-code pass over function bodies and modules. */
module SafetyChecker {
  import opened Options
  import opened SafetyInfer
  import opened SafetySites

  datatype Stmt =
    | Let(name: string, declared: Option<Type>, value: Expr)
    | Assign(target: Expr, value: Expr)
    | Return(result: Option<Expr>)
    | Expression(value: Expr)
    | If(condition: Expr, yes: seq<Stmt>, no: seq<Stmt>)
    | While(condition: Expr, body: seq<Stmt>)
    | Loop(body: seq<Stmt>)
    | For(name: string, start: Expr, end: Expr, body: seq<Stmt>)
    | UnsafeBlock(body: seq<Stmt>)
    | DeferBlock(body: seq<Stmt>)
    | DeferAssign(target: Expr, value: Expr)
    | DeferExpr(value: Expr)
    | Break
    | Continue

  /** A function of the module; a foreign one has no body to check. */
  datatype Decl = Decl(params: seq<(string, Type)>, body: seq<Stmt>, foreign: bool, system: bool)

  // ---- the restricted operations of statements -------------------------------

  /** The expressions of a statement, in the order they are looked at. */
  function Exprs(s: Stmt): seq<Expr> {
    match s
    case Let(_, _, value) => [value]
    case Assign(target, value) => [target, value]
    case Return(result) => if result.Some? then [result.value] else []
    case Expression(value) => [value]
    case If(c, _, _) => [c]
    case While(c, _) => [c]
    case For(_, start, end, _) => [start, end]
    case DeferAssign(target, value) => [target, value]
    case DeferExpr(value) => [value]
    case Loop(_) => []
    case UnsafeBlock(_) => []
    case DeferBlock(_) => []
    case Break => []
    case Continue => []
  }

  function SitesOfExprs(env: Env, es: seq<Expr>, scope: Scope, shielded: bool): seq<Site> {
    if es == [] then [] else SitesOf(env, es[0], scope, shielded) + SitesOfExprs(env, es[1..], scope, shielded)
  }

  /** The variables in scope after a statement. */
  function After(env: Env, s: Stmt, scope: Scope): Scope {
    if s.Let? then scope[s.name := if s.declared.Some? then s.declared else TypeOf(env, s.value, scope)] else scope
  }

  function SitesOfStmt(env: Env, s: Stmt, scope: Scope, shielded: bool): seq<Site>
    decreases s, 1
  {
    SitesOfExprs(env, Exprs(s), scope, shielded) + SitesOfNested(env, s, scope, shielded)
  }

  function SitesOfNested(env: Env, s: Stmt, scope: Scope, shielded: bool): seq<Site>
    decreases s, 0
  {
    match s
    case If(_, yes, no) => SitesOfBlock(env, yes, scope, shielded) + SitesOfBlock(env, no, scope, shielded)
    case While(_, body) => SitesOfBlock(env, body, scope, shielded)
    case Loop(body) => SitesOfBlock(env, body, scope, shielded)
    case For(name, _, _, body) => SitesOfBlock(env, body, scope[name := Some(Plain("usize"))], shielded)
    case UnsafeBlock(body) => SitesOfBlock(env, body, scope, true)
    case DeferBlock(body) => SitesOfBlock(env, body, scope, shielded)
    case Let(_, _, _) => []
    case Assign(_, _) => []
    case Return(_) => []
    case Expression(_) => []
    case DeferAssign(_, _) => []
    case DeferExpr(_) => []
    case Break => []
    case Continue => []
  }

  function SitesOfBlock(env: Env, ss: seq<Stmt>, scope: Scope, shielded: bool): seq<Site>
    decreases ss, 2
  {
    if ss == [] then [] else
      assert ss decreases to ss[0];
      SitesOfStmt(env, ss[0], scope, shielded) + SitesOfBlock(env, ss[1..], After(env, ss[0], scope), shielded)
  }

  function ParamScope(params: seq<(string, Type)>): Scope {
    if params == [] then map[]
    else ParamScope(params[..|params| - 1])[params[|params| - 1].0 := Some(params[|params| - 1].1)]
  }

  function SitesOfFunction(env: Env, f: Decl): seq<Site> {
    SitesOfBlock(env, f.body, ParamScope(f.params), false)
  }

  // ---- the pass --------------------------------------------------------------

  /** What is reported: the operation and the expression. */
  type Error = Option<(Kind, Expr)>

  function Report(s: Option<Site>): Error {
    if s.Some? then Some((s.value.kind, s.value.at)) else None
  }

  class StrictSafetyChecker {
    const env: Env

    constructor (env: Env)
      ensures this.env == env
    {
      this.env := env;
    }

    method CheckExpr(e: Expr, scope: Scope, depth: nat, system: bool) returns (error: Error, type_: Option<Type>)
      ensures error == Report(First(env, e, scope, depth > 0, system))
      ensures error.None? ==> type_ == TypeOf(env, e, scope)
    {
      hide SitesOf;
      var info := Infer(env, e, scope, depth, system);
      InferMeaning(env, e, scope, depth, system);
      match info
      case Ok(t) => return None, t;
      case Violation(kind, at) => return Some((kind, at)), None;
    }

    method CheckExprs(es: seq<Expr>, scope: Scope, depth: nat, system: bool) returns (error: Error)
      ensures error == Report(FirstRefused(SitesOfExprs(env, es, scope, depth > 0), system))
    {
      hide SitesOf, Refused;
      var i := 0;
      ghost var whole := FirstRefused(SitesOfExprs(env, es, scope, depth > 0), system);
      assert es[0..] == es;
      while i < |es|
        invariant 0 <= i <= |es|
        invariant FirstRefused(SitesOfExprs(env, es[i..], scope, depth > 0), system) == whole
      {
        assert es[i..][1..] == es[i + 1..];
        FirstAppend(SitesOf(env, es[i], scope, depth > 0), SitesOfExprs(env, es[i + 1..], scope, depth > 0), system);
        var type_;
        error, type_ := CheckExpr(es[i], scope, depth, system);
        if error.Some? {
          return;
        }
        i := i + 1;
      }
      return None;
    }

    /** The scope is a local dictionary: nested blocks get a copy of it, lets write to it. */
    method Statements(items: seq<Stmt>, outer: Scope, depth: nat, system: bool) returns (error: Error)
      ensures error == Report(FirstRefused(SitesOfBlock(env, items, outer, depth > 0), system))
      decreases items
    {
      hide SitesOfExprs, TypeOf, SitesOf, Refused, FirstRefused;
      var scope := outer;
      var i := 0;
      ghost var whole := FirstRefused(SitesOfBlock(env, items, outer, depth > 0), system);
      assert items[0..] == items;
      while i < |items|
        invariant 0 <= i <= |items|
        invariant FirstRefused(SitesOfBlock(env, items[i..], scope, depth > 0), system) == whole
      {
        assert items decreases to items[i];
        assert items[i..][1..] == items[i + 1..];
        var item := items[i];
        FirstAppend(SitesOfStmt(env, item, scope, depth > 0), SitesOfBlock(env, items[i + 1..], After(env, item, scope), depth > 0), system);
        if item.Let? {
          var type_;
          error, type_ := CheckExpr(item.value, scope, depth, system);
          LetSites(item, scope, depth > 0, system);
          if error.None? {
            scope := scope[item.name := if item.declared.Some? then item.declared else type_];
          }
        } else {
          error := Statement(item, scope, depth, system);
        }
        if error.Some? {
          return;
        }
        i := i + 1;
      }
      NothingRefused(scope, depth > 0, system);
      return None;
    }

    lemma NothingRefused(scope: Scope, shielded: bool, system: bool)
      ensures FirstRefused(SitesOfBlock(env, [], scope, shielded), system).None?
    {}

    lemma LetSites(s: Stmt, scope: Scope, shielded: bool, system: bool)
      requires s.Let?
      ensures FirstRefused(SitesOfStmt(env, s, scope, shielded), system) == First(env, s.value, scope, shielded, system)
    {
      hide SitesOf;
      var none: seq<Expr> := [];
      assert Exprs(s) == [s.value] && [s.value][1..] == none;
      assert SitesOfExprs(env, none, scope, shielded) == [];
      assert SitesOfStmt(env, s, scope, shielded) == SitesOf(env, s.value, scope, shielded);
    }

    method Statement(s: Stmt, scope: Scope, depth: nat, system: bool) returns (error: Error)
      requires !s.Let?
      ensures error == Report(FirstRefused(SitesOfStmt(env, s, scope, depth > 0), system))
      decreases s
    {
      hide SitesOfExprs, SitesOfBlock, SitesOf, Refused, FirstRefused;
      StmtSites(s, scope, depth > 0, system);
      error := CheckExprs(Exprs(s), scope, depth, system);
      if error.Some? {
        return;
      }
      match s
      case If(_, yes, no) =>
        error := Statements(yes, scope, depth, system);
        if error.None? {
          error := Statements(no, scope, depth, system);
        }
      case While(_, body) => error := Statements(body, scope, depth, system);
      case Loop(body) => error := Statements(body, scope, depth, system);
      case For(name, _, _, body) => error := Statements(body, scope[name := Some(Plain("usize"))], depth, system);
      case UnsafeBlock(body) => error := Statements(body, scope, depth + 1, system);
      case DeferBlock(body) => error := Statements(body, scope, depth, system);
      case Let(_, _, _) =>
      case Assign(_, _) =>
      case Return(_) =>
      case Expression(_) =>
      case DeferAssign(_, _) =>
      case DeferExpr(_) =>
      case Break =>
      case Continue =>
    }

    /** The first refused site of a statement: its expressions come before its blocks. */
    lemma StmtSites(s: Stmt, scope: Scope, shielded: bool, system: bool)
      ensures FirstRefused(SitesOfStmt(env, s, scope, shielded), system) ==
        Or(FirstRefused(SitesOfExprs(env, Exprs(s), scope, shielded), system), FirstRefused(SitesOfNested(env, s, scope, shielded), system))
      ensures s.If? ==>
        FirstRefused(SitesOfNested(env, s, scope, shielded), system)
        == Or(FirstRefused(SitesOfBlock(env, s.yes, scope, shielded), system), FirstRefused(SitesOfBlock(env, s.no, scope, shielded), system))
      ensures FirstRefused([], system).None?
    {
      hide SitesOfExprs, SitesOfBlock, Refused;
      FirstAppend(SitesOfExprs(env, Exprs(s), scope, shielded), SitesOfNested(env, s, scope, shielded), system);
      if s.If? {
        FirstAppend(SitesOfBlock(env, s.yes, scope, shielded), SitesOfBlock(env, s.no, scope, shielded), system);
      }
    }

    /** Every function of the module except the foreign ones. */
    method Check(functions: seq<Decl>) returns (error: Error)
      ensures error.None? <==> forall f <- functions :: f.foreign || forall s <- SitesOfFunction(env, f) :: !Refused(s, f.system)
      ensures error.Some? ==> exists f <- functions ::
                !f.foreign && error == Report(FirstRefused(SitesOfFunction(env, f), f.system))
    {
      hide SitesOfFunction, Refused;
      var i := 0;
      while i < |functions|
        invariant 0 <= i <= |functions|
        invariant forall f <- functions[..i] :: f.foreign || forall s <- SitesOfFunction(env, f) :: !Refused(s, f.system)
      {
        var f := functions[i];
        if !f.foreign {
          FunctionSites(f);
          FirstRefusedIsNone(SitesOfFunction(env, f), f.system);
          error := Statements(f.body, ParamScope(f.params), 0, f.system);
          if error.Some? {
            assert f in functions;
            return;
          }
        }
        i := i + 1;
      }
      assert functions[..i] == functions;
      return None;
    }

    lemma FunctionSites(f: Decl)
      ensures SitesOfFunction(env, f) == SitesOfBlock(env, f.body, ParamScope(f.params), false)
    {}
  }
}
