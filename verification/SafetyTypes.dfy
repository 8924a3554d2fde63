/** Typing rules of the unsafe-code pass, and acceptance stated by them. */
module SafetyTypes {
  import opened Options
  import opened SafetyInfer
  import opened SafetySites
  import opened SafetyChecker

  // ---- declarations -----------------------------------------------------------------------

  /** A parameter, let or for variable; its type may be unknown. */
  datatype Declaration = Declaration(name: string, type_: Option<Type>)

  /** Declaration i is the last of that name. */
  predicate IsInnermost(ds: seq<Declaration>, x: string, i: nat) {
    i < |ds| && ds[i].name == x && forall j :: i < j < |ds| ==> ds[j].name != x
  }

  predicate IsDeclared(ds: seq<Declaration>, x: string) {
    exists d <- ds :: d.name == x
  }

  ghost predicate NameHas(env: Env, ds: seq<Declaration>, x: string, t: Type) {
    || (exists i: nat :: IsInnermost(ds, x, i) && ds[i].type_ == Some(t))
    || (!IsDeclared(ds, x) && x in env.globals && env.globals[x] == t)
  }

  // ---- typing rules ---------------------------------------------------------------------------

  function Scalar(name: string, mutable: bool): Type {
    Type(name, false, mutable, false, None, false)
  }

  /** The first field of that name. */
  ghost predicate IsField(fields: seq<(string, Type)>, field: string, t: Type) {
    exists i :: 0 <= i < |fields| && fields[i] == (field, t) && forall j :: 0 <= j < i ==> fields[j].0 != field
  }

  /** The expression has this type, among these declarations. */
  ghost predicate HasType(env: Env, ds: seq<Declaration>, e: Expr, t: Type)
    decreases e
  {
    match e
    case Number(text) => t == Scalar(env.numberType(text), false)
    case Boolean => t == Scalar("bool", false)
    case CharLit => t == Scalar("u8", false)
    case StringLit => t == Type("u8", true, false, false, None, true)
    case NullLit => t == Type("null", true, false, false, None, false)
    case EnumAccess(name) => t == Scalar(name, false)
    case StructLit(name, _) => t == Scalar(name, false)
    case Cast(_, target) => t == target
    case Name(name) => NameHas(env, ds, name, t)
    case Unsafe(inner) => HasType(env, ds, inner, t)
    case IfExpr(_, yes, _) => HasType(env, ds, yes, t)
    case Call(callee, _) => callee in env.functions && t == env.functions[callee].result
    case Binary(op, l, _) =>
      if op in {"==", "!=", "<", "<=", ">", ">=", "&&", "||"} then t == Scalar("bool", false) else HasType(env, ds, l, t)
    case Unary(op, x) =>
      if op == "*" then exists u :: HasType(env, ds, x, u) && t == Scalar(u.name, u.mutable)
      else if op == "&" then exists u :: HasType(env, ds, x, u) && t == Type(u.name, true, u.mutable, false, None, true)
      else if op == "!" then t == Scalar("bool", false)
      else HasType(env, ds, x, t)
    case ArrayLit(es) =>
      es != [] && exists u :: HasType(env, ds, es[0], u) && t == Type(u.name, u.pointer, false, true, Some(u), false)
    case Index(x, _) =>
      exists u :: HasType(env, ds, x, u) && t == if u.isArray && u.elem.Some? then u.elem.value else Scalar(u.name, u.mutable)
    case Member(x, field) =>
      exists u :: HasType(env, ds, x, u) && u.name in env.structs && IsField(env.structs[u.name], field, t)
    case MethodCall(x, m, _) =>
      if m == "as_ptr" then
        exists u :: HasType(env, ds, x, u) && t == Type(if u.elem.Some? then u.elem.value.name else u.name, true, false, false, None, false)
      else if m == "add" || m == "abs" then HasType(env, ds, x, t)
      else exists u :: HasType(env, ds, x, u) && u.name + "_" + m in env.functions && t == env.functions[u.name + "_" + m].result
  }

  // ---- the pass gives these types ---------------------------------------------------------------

  /** The scope holds the innermost declaration of every name. */
  ghost predicate Represents(ds: seq<Declaration>, scope: Scope) {
    && (forall x :: x in scope <==> IsDeclared(ds, x))
    && (forall x, i: nat :: IsInnermost(ds, x, i) && x in scope ==> scope[x] == ds[i].type_)
  }

  lemma {:induction false} InnermostExists(ds: seq<Declaration>, x: string) returns (i: nat)
    requires IsDeclared(ds, x)
    ensures IsInnermost(ds, x, i)
    decreases |ds|
  {
    var n := |ds| - 1;
    if ds[n].name == x {
      i := n;
    } else {
      assert IsDeclared(ds[..n], x);
      i := InnermostExists(ds[..n], x);
    }
  }

  lemma NameIsTyped(env: Env, ds: seq<Declaration>, scope: Scope, x: string, t: Type)
    requires Represents(ds, scope)
    ensures NameType(env, scope, x) == Some(t) <==> NameHas(env, ds, x, t)
  {
    if IsDeclared(ds, x) {
      var i := InnermostExists(ds, x);
      assert forall k: nat :: IsInnermost(ds, x, k) ==> k == i;
    } else {
      forall k: nat | k < |ds| ensures ds[k].name != x {
        assert ds[k] in ds;
      }
    }
  }

  lemma {:induction false} FieldIsTyped(fields: seq<(string, Type)>, field: string, t: Type)
    ensures FieldType(fields, field) == Some(t) <==> IsField(fields, field, t)
    decreases |fields|
  {
    if fields != [] {
      var rest := fields[1..];
      FieldIsTyped(rest, field, t);
      if fields[0].0 != field {
        if IsField(fields, field, t) {
          var i :| 0 <= i < |fields| && fields[i] == (field, t) && forall j :: 0 <= j < i ==> fields[j].0 != field;
          assert rest[i - 1] == fields[i] && forall j :: 0 <= j < i - 1 ==> rest[j] == fields[j + 1];
        }
        if IsField(rest, field, t) {
          var i :| 0 <= i < |rest| && rest[i] == (field, t) && forall j :: 0 <= j < i ==> rest[j].0 != field;
          assert fields[i + 1] == rest[i] && forall j :: 0 < j < i + 1 ==> fields[j] == rest[j - 1];
        }
      }
    }
  }

  // ---- one rule of the pass at a time -----------------------------------------------------------

  /** Where nothing is restricted, the pass gives every operand its type. */
  lemma OperandType(env: Env, e: Expr, scope: Scope, depth: nat)
    requires depth > 0
    ensures Infer(env, e, scope, depth, true) == Ok(TypeOf(env, e, scope))
  {
    hide SitesOf;
    NeverRefused(env, e, scope, depth);
    InferMeaning(env, e, scope, depth, true);
  }

  lemma {:induction false} OperandTypes(env: Env, es: seq<Expr>, scope: Scope)
    ensures InferAll(env, es, scope, 1, true).Ok?
    ensures es != [] ==> InferAll(env, es, scope, 1, true).value[0] == TypeOf(env, es[0], scope)
    decreases |es|
  {
    hide Infer;
    if es != [] {
      OperandType(env, es[0], scope, 1);
      OperandTypes(env, es[1..], scope);
    }
  }

  /** The type of an expression whose operands have these types. */
  lemma LeafType(env: Env, e: Expr, scope: Scope)
    ensures e.Number? ==> TypeOf(env, e, scope) == Some(Scalar(env.numberType(e.text), false))
    ensures e.Boolean? ==> TypeOf(env, e, scope) == Some(Scalar("bool", false))
    ensures e.CharLit? ==> TypeOf(env, e, scope) == Some(Scalar("u8", false))
    ensures e.StringLit? ==> TypeOf(env, e, scope) == Some(Type("u8", true, false, false, None, true))
    ensures e.NullLit? ==> TypeOf(env, e, scope) == Some(Type("null", true, false, false, None, false))
    ensures e.EnumAccess? ==> TypeOf(env, e, scope) == Some(Scalar(e.name, false))
    ensures e.Name? ==> TypeOf(env, e, scope) == NameType(env, scope, e.name)
  {
    hide NameType;
  }

  lemma ListType(env: Env, e: Expr, scope: Scope)
    ensures e.StructLit? ==> TypeOf(env, e, scope) == Some(Scalar(e.name, false))
    ensures e.ArrayLit? ==> TypeOf(env, e, scope) == if e.elements == [] then None else ArrayType(TypeOf(env, e.elements[0], scope))
    ensures e.Call? ==> TypeOf(env, e, scope) == if e.callee in env.functions then Some(env.functions[e.callee].result) else None
  {
    hide ArrayType;
    NeverRefused(env, e, scope, 1);
    if e.StructLit? {
      OperandTypes(env, e.values, scope);
    } else if e.ArrayLit? {
      OperandTypes(env, e.elements, scope);
    } else if e.Call? {
      OperandTypes(env, e.args, scope);
    }
  }

  lemma OneOperandType(env: Env, e: Expr, scope: Scope)
    ensures e.Unsafe? ==> TypeOf(env, e, scope) == TypeOf(env, e.inner, scope)
    ensures e.Unary? ==> TypeOf(env, e, scope) == UnaryType(e.op, TypeOf(env, e.operand, scope))
    ensures e.Member? ==> TypeOf(env, e, scope) == MemberType(env, TypeOf(env, e.target, scope), e.field)
    ensures e.Cast? ==> TypeOf(env, e, scope) == Some(e.targetType)
  {
    hide UnaryType, MemberType, IsRaw;
    NeverRefused(env, e, scope, 1);
    if e.Unsafe? {
      OperandType(env, e.inner, scope, 2);
    } else if e.Unary? {
      OperandType(env, e.operand, scope, 1);
    } else if e.Member? {
      OperandType(env, e.target, scope, 1);
    } else if e.Cast? {
      OperandType(env, e.operand, scope, 1);
    }
  }

  lemma MoreOperandType(env: Env, e: Expr, scope: Scope)
    ensures e.Binary? ==> TypeOf(env, e, scope) == if IsComparison(e.op) then Some(Scalar("bool", false)) else TypeOf(env, e.left, scope)
    ensures e.IfExpr? ==> TypeOf(env, e, scope) == TypeOf(env, e.thenExpr, scope)
    ensures e.Index? ==> TypeOf(env, e, scope) == IndexType(TypeOf(env, e.target, scope))
  {
    hide IndexType, IsRaw, IsComparison;
    NeverRefused(env, e, scope, 1);
    if e.Binary? {
      OperandType(env, e.left, scope, 1);
      OperandType(env, e.right, scope, 1);
    } else if e.IfExpr? {
      OperandType(env, e.condition, scope, 1);
      OperandType(env, e.thenExpr, scope, 1);
      OperandType(env, e.elseExpr, scope, 1);
    } else if e.Index? {
      OperandType(env, e.target, scope, 1);
      OperandType(env, e.index, scope, 1);
    }
  }

  lemma MethodOperandType(env: Env, e: Expr, scope: Scope)
    requires e.MethodCall?
    ensures var target := TypeOf(env, e.target, scope);
            TypeOf(env, e, scope) ==
            if e.method_ == "as_ptr" then ElementPointer(target)
            else if e.method_ == "add" || e.method_ == "abs" then target else MethodType(env, target, e.method_)
  {
    hide ElementPointer, MethodType, IsRaw;
    NeverRefused(env, e, scope, 1);
    OperandType(env, e.target, scope, 1);
    OperandTypes(env, e.args, scope);
  }

  // ---- the rules together ---------------------------------------------------------------------------

  /** The pass knows a type exactly if the rules give it. */
  lemma {:induction false} TypesAreRules(env: Env, e: Expr, ds: seq<Declaration>, scope: Scope)
    requires Represents(ds, scope)
    ensures forall t :: TypeOf(env, e, scope) == Some(t) <==> HasType(env, ds, e, t)
    decreases e
  {
    hide Infer, TypeOf, NameType, NameHas, Represents, FieldType, IsField;
    LeafType(env, e, scope);
    ListType(env, e, scope);
    OneOperandType(env, e, scope);
    MoreOperandType(env, e, scope);
    match e
    case Name(x) =>
      forall t ensures NameType(env, scope, x) == Some(t) <==> NameHas(env, ds, x, t) {
        NameIsTyped(env, ds, scope, x, t);
      }
    case Unsafe(x) => TypesAreRules(env, x, ds, scope);
    case IfExpr(_, x, _) => TypesAreRules(env, x, ds, scope);
    case Binary(_, x, _) => TypesAreRules(env, x, ds, scope);
    case Unary(_, x) => TypesAreRules(env, x, ds, scope);
    case Index(x, _) => TypesAreRules(env, x, ds, scope);
    case ArrayLit(es) =>
      if es != [] {
        TypesAreRules(env, es[0], ds, scope);
      }
    case Member(x, field) =>
      TypesAreRules(env, x, ds, scope);
      forall fields, t ensures FieldType(fields, field) == Some(t) <==> IsField(fields, field, t) {
        FieldIsTyped(fields, field, t);
      }
    case MethodCall(x, m, _) =>
      MethodOperandType(env, e, scope);
      TypesAreRules(env, x, ds, scope);
    case Number(_) =>
    case Boolean =>
    case CharLit =>
    case StringLit =>
    case NullLit =>
    case EnumAccess(_) =>
    case StructLit(_, _) =>
    case Call(_, _) =>
    case Cast(_, _) =>
  }
}
