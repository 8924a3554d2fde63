/** The unsafe-code pass over expressions: types, and the operations it restricts. */
module SafetyInfer {
  import opened Options

  /** A pointer is raw unless it is a reference; arrays are not pointers. */
  datatype Type = Type(name: string, pointer: bool, mutable: bool, isArray: bool, elem: Option<Type>, reference: bool)

  function Plain(name: string): Type {
    Type(name, false, false, false, None, false)
  }

  predicate IsRaw(t: Option<Type>) {
    t.Some? && t.value.pointer && !t.value.isArray && !t.value.reference
  }

  datatype Expr =
    | Number(text: string)
    | Boolean
    | CharLit
    | StringLit
    | NullLit
    | Name(name: string)
    | EnumAccess(name: string)
    | Unsafe(inner: Expr)
    | Unary(op: string, operand: Expr)
    | Binary(op: string, left: Expr, right: Expr)
    | Call(callee: string, args: seq<Expr>)
    | Index(target: Expr, index: Expr)
    | Member(target: Expr, field: string)
    | MethodCall(target: Expr, method_: string, args: seq<Expr>)
    | Cast(operand: Expr, targetType: Type)
    | ArrayLit(elements: seq<Expr>)
    | StructLit(name: string, values: seq<Expr>)
    | IfExpr(condition: Expr, thenExpr: Expr, elseExpr: Expr)

  datatype Function_ = Function_(result: Type, foreign: bool, unsafeForeign: bool, system: bool)

  /** What a module sees: its functions with built-in and imported ones, globals and structs.
      The type of a number is decided elsewhere. */
  datatype Env = Env(
    functions: map<string, Function_>,
    builtins: set<string>,
    globals: map<string, Type>,
    structs: map<string, seq<(string, Type)>>,
    numberType: string -> string)

  const SAFE_ASSET_BUILTINS := {
    "baken_get_font_advances", "baken_get_font_alpha", "baken_get_font_width",
    "baken_get_font_height", "baken_get_font_px", "baken_get_cjk_width",
    "baken_get_cjk_height", "baken_get_cjk_alpha", "baken_get_logo_pixels",
    "baken_get_logo_size", "baken_srgb_to_linear", "baken_linear_to_srgb",
    "baken_get_app_icon_alpha", "baken_get_motion_icon_alpha"}

  /** Local variables; a let may leave the type of its variable unknown. */
  type Scope = map<string, Option<Type>>

  /** The restricted operations. */
  datatype Kind =
    | Dereference | RawIndex | RawField | RawMethod | RawCreation | UnsafeForeignCall
    | ForeignCall | PrivilegedCall
  {
    predicate NeedsSystem() {
      ForeignCall? || PrivilegedCall?
    }
  }

  datatype Checked<+T> = Ok(value: T) | Violation(kind: Kind, at: Expr) {
    predicate IsFailure() {
      Violation?
    }

    function PropagateFailure<U>(): Checked<U>
      requires Violation?
    {
      Violation(kind, at)
    }

    function Extract(): T
      requires Ok?
    {
      value
    }
  }

  predicate IsComparison(op: string) {
    op in {"==", "!=", "<", "<=", ">", ">=", "&&", "||"}
  }

  function FieldType(fields: seq<(string, Type)>, field: string): Option<Type> {
    if fields == [] then None else if fields[0].0 == field then Some(fields[0].1) else FieldType(fields[1..], field)
  }

  function MemberType(env: Env, target: Option<Type>, field: string): Option<Type> {
    if target.Some? && target.value.name in env.structs then FieldType(env.structs[target.value.name], field) else None
  }

  function NameType(env: Env, scope: Scope, name: string): Option<Type> {
    if name in scope then scope[name] else if name in env.globals then Some(env.globals[name]) else None
  }

  function IndexType(target: Option<Type>): Option<Type> {
    if target.None? then None
    else if target.value.isArray && target.value.elem.Some? then target.value.elem
    else Some(Plain(target.value.name).(mutable := target.value.mutable))
  }

  function UnaryType(op: string, inner: Option<Type>): Option<Type> {
    if op == "*" then
      if inner.None? then None else Some(Plain(inner.value.name).(mutable := inner.value.mutable))
    else if op == "&" then
      if inner.None? then None
      else Some(Type(inner.value.name, true, inner.value.mutable, false, None, true))
    else if op == "!" then Some(Plain("bool"))
    else inner
  }

  function ArrayType(first: Option<Type>): Option<Type> {
    if first.None? then None
    else Some(Type(first.value.name, first.value.pointer, false, true, first, false))
  }

  function ElementPointer(target: Option<Type>): Option<Type> {
    if target.None? then None
    else Some(Plain((if target.value.elem.Some? then target.value.elem.value else target.value).name).(pointer := true))
  }

  function MethodType(env: Env, target: Option<Type>, method_: string): Option<Type> {
    if target.Some? && target.value.name + "_" + method_ in env.functions then
      Some(env.functions[target.value.name + "_" + method_].result)
    else None
  }

  /** Raises unless the operation is inside unsafe. */
  function RequireUnsafe(depth: nat, kind: Kind, at: Expr): Checked<()> {
    if depth == 0 then Violation(kind, at) else Ok(())
  }

  function CallType(env: Env, e: Expr, depth: nat, system: bool): Checked<Option<Type>>
    requires e.Call?
  {
    if e.callee !in env.functions then Ok(None)
    else
      var f := env.functions[e.callee];
      if f.foreign && !system then Violation(ForeignCall, e)
      else if e.callee in env.builtins && f.system && e.callee !in SAFE_ASSET_BUILTINS && !system then Violation(PrivilegedCall, e)
      else
        var _ :- if f.foreign && f.unsafeForeign then RequireUnsafe(depth, UnsafeForeignCall, e) else Ok(());
        Ok(Some(f.result))
  }

  /** Type inference and checking in one walk: operands first, in order. */
  function Infer(env: Env, e: Expr, scope: Scope, depth: nat, system: bool): Checked<Option<Type>> {
    match e
    case Unsafe(inner) => Infer(env, inner, scope, depth + 1, system)
    case Number(text) => Ok(Some(Plain(env.numberType(text))))
    case Boolean => Ok(Some(Plain("bool")))
    case CharLit => Ok(Some(Plain("u8")))
    case StringLit => Ok(Some(Type("u8", true, false, false, None, true)))
    case NullLit => Ok(Some(Plain("null").(pointer := true)))
    case Name(name) => Ok(NameType(env, scope, name))
    case EnumAccess(name) => Ok(Some(Plain(name)))
    case ArrayLit(elements) =>
      var types :- InferAll(env, elements, scope, depth, system);
      Ok(if types == [] then None else ArrayType(types[0]))
    case StructLit(name, values) =>
      var _ :- InferAll(env, values, scope, depth, system);
      Ok(Some(Plain(name)))
    case IfExpr(c, t, f) =>
      var _ :- Infer(env, c, scope, depth, system);
      var left :- Infer(env, t, scope, depth, system);
      var _ :- Infer(env, f, scope, depth, system);
      Ok(left)
    case Unary(op, operand) =>
      var inner :- Infer(env, operand, scope, depth, system);
      var _ :- if op == "*" && IsRaw(inner) then RequireUnsafe(depth, Dereference, e) else Ok(());
      Ok(UnaryType(op, inner))
    case Binary(op, l, r) =>
      var left :- Infer(env, l, scope, depth, system);
      var _ :- Infer(env, r, scope, depth, system);
      Ok(if IsComparison(op) then Some(Plain("bool")) else left)
    case Call(callee, args) =>
      var _ :- InferAll(env, args, scope, depth, system);
      CallType(env, e, depth, system)
    case Index(t, i) =>
      var target :- Infer(env, t, scope, depth, system);
      var _ :- Infer(env, i, scope, depth, system);
      var _ :- if IsRaw(target) then RequireUnsafe(depth, RawIndex, e) else Ok(());
      Ok(IndexType(target))
    case Member(t, field) =>
      var target :- Infer(env, t, scope, depth, system);
      var _ :- if IsRaw(target) then RequireUnsafe(depth, RawField, e) else Ok(());
      Ok(MemberType(env, target, field))
    case MethodCall(t, method_, args) =>
      var target :- Infer(env, t, scope, depth, system);
      var _ :- InferAll(env, args, scope, depth, system);
      if method_ == "as_ptr" then Ok(ElementPointer(target))
      else
        var _ :- if IsRaw(target) then RequireUnsafe(depth, RawMethod, e) else Ok(());
        Ok(if method_ == "add" || method_ == "abs" then target else MethodType(env, target, method_))
    case Cast(operand, targetType) =>
      var inner :- Infer(env, operand, scope, depth, system);
      var _ :- if IsRaw(Some(targetType)) && !IsRaw(inner) && !operand.NullLit? then RequireUnsafe(depth, RawCreation, e) else Ok(());
      Ok(Some(targetType))
  }

  function InferAll(env: Env, es: seq<Expr>, scope: Scope, depth: nat, system: bool): (r: Checked<seq<Option<Type>>>)
    ensures r.Ok? ==> |r.value| == |es|
  {
    if es == [] then Ok([])
    else
      assert es decreases to es[0];
      var first :- Infer(env, es[0], scope, depth, system);
      var rest :- InferAll(env, es[1..], scope, depth, system);
      Ok([first] + rest)
  }
}
