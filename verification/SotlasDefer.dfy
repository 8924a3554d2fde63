/** Sotlas function bodies, what they mean, and how the C emitter lowers `defer`.

    Source and lowered code share one statement language and one meaning; lowered code has no
    `defer` left. The meaning is relative to an arbitrary interpretation of expressions. */
module SotlasDefer {
  import opened Options
  import opened SotlasTokens
  import opened SotlasParsing
  import opened SotlasPrinting

  datatype Item =
    | Value(e: Expr)
    | Store(target: Expr, op: Kind, value: Expr)

  datatype Stmt =
    | Let(decl: string, name: string, init: Expr)
    | Do(item: Item)
    | If(condition: Expr, yes: seq<Stmt>, no: Alternative)
    | Guard(condition: Expr, otherwise: seq<Stmt>)
    | While(condition: Expr, body: seq<Stmt>)
    | Return(value: Option<Expr>)
    | Break
    | Continue
    | Defer(deferred: seq<Stmt>)

  /** Nothing stands for no else part and for an empty one. */
  datatype Alternative =
    | Nothing
    | Else(body: seq<Stmt>)
    | ElseIf(condition: Expr, yes: seq<Stmt>, no: Alternative)

  const RET_VAL := "_ret_val"

  // ---- names -----------------------------------------------------------------

  /** The variables an expression mentions, spelled as the emitter spells them. */
  function Names(e: Expr): set<string> {
    match e
    case Literal(_, _) => {}
    case Ident(name, path) => {JoinPath(path, name)}
    case Binary(_, l, r) => Names(l) + Names(r)
    case Unary(_, x) => Names(x)
    case Call(f, args) => Names(f) + NamesOfArgs(args)
    case Index(b, i) => Names(b) + Names(i)
    case Field(b, _) => Names(b)
    case BitSlice(b, lo, hi) => Names(b) + Names(lo) + Names(hi)
    case BitNotch(b, i) => Names(b) + Names(i)
    case BitStrand(b) => Names(b)
    case TupleIndex(b, _) => Names(b)
    case Slice(b, lo, hi) => Names(b) + (if lo.Some? then Names(lo.value) else {}) + (if hi.Some? then Names(hi.value) else {})
    case OptionalChain(x) => Names(x)
    case ForceUnwrap(x) => Names(x)
    case StructLit(_, _, fields) => NamesOfFields(fields)
    case TupleLit(elements) => NamesOfAll(elements)
    case ArrayLit(elements) => NamesOfAll(elements)
    case IfExpr(c, t, f) => Names(c) + Names(t) + Names(f)
  }

  function NamesOfArgs(args: seq<Arg>): set<string> {
    if args == [] then {}
    else
      assert args decreases to args[0];
      Names(args[0].value) + NamesOfArgs(args[1..])
  }

  function NamesOfFields(fields: seq<FieldInit>): set<string> {
    if fields == [] then {}
    else
      assert fields decreases to fields[0];
      Names(fields[0].value) + NamesOfFields(fields[1..])
  }

  function NamesOfAll(es: seq<Expr>): set<string> {
    if es == [] then {} else Names(es[0]) + NamesOfAll(es[1..])
  }

  function ItemNames(item: Item): set<string> {
    match item
    case Value(e) => Names(e)
    case Store(target, _, e) => Names(target) + Names(e)
  }

  // ---- environments ----------------------------------------------------------

  datatype Binding<+V> = Binding(name: string, value: V)

  /** Innermost binding first; entering a block pushes, leaving it trims back. */
  type Env<+V> = seq<Binding<V>>

  function Scope<V>(env: Env<V>): (names: seq<string>)
    ensures |names| == |env|
    ensures forall i :: 0 <= i < |env| ==> names[i] == env[i].name
  {
    if env == [] then [] else [env[0].name] + Scope(env[1..])
  }

  function Elems(names: seq<string>): set<string> {
    set x | x in names
  }

  /** The outermost n entries. */
  function Trim<T>(s: seq<T>, n: nat): (r: seq<T>)
    requires n <= |s|
    ensures |r| == n
  {
    s[|s| - n..]
  }

  function Lookup<V>(env: Env<V>, x: string): V
    requires x in Scope(env)
  {
    if env[0].name == x then env[0].value else Lookup(env[1..], x)
  }

  function View<V>(env: Env<V>, names: set<string>): map<string, V> {
    map x | x in names && x in Scope(env) :: Lookup(env, x)
  }

  /** Only the innermost binding of each name takes its new value. */
  function Update<V>(env: Env<V>, new_: map<string, V>): (r: Env<V>)
    ensures Scope(r) == Scope(env)
  {
    if env == [] then []
    else if env[0].name in new_ then [Binding(env[0].name, new_[env[0].name])] + Update(env[1..], new_ - {env[0].name})
    else [env[0]] + Update(env[1..], new_)
  }

  // ---- meaning ---------------------------------------------------------------

  datatype Reply<+V, +W> = Reply(value: V, locals: map<string, V>, world: W, halts: bool)

  /** Any interpretation of expressions and assignments: it sees the current values of the
      variables the item mentions and the rest of the world (memory and effects so far), and
      yields a value, new values for those variables and a new world, or halts the program. */
  datatype Interp<!V, !W> = Interp(
    run: (Item, map<string, V>, W) -> Reply<V, W>,
    truth: V -> bool)

  datatype Flow<+V> = Normal | Broke | Continued | Returned(value: Option<V>) | Halted | OutOfSteps

  datatype Result<+V, +W> = Result(flow: Flow<V>, env: Env<V>, world: W)

  datatype Evaluated<+V, +W> = Evaluated(value: V, env: Env<V>, world: W, halts: bool)

  function Eval<V, W>(I: Interp<V, W>, item: Item, env: Env<V>, w: W): (r: Evaluated<V, W>)
    ensures Scope(r.env) == Scope(env) && |r.env| == |env|
  {
    var names := ItemNames(item);
    var reply := I.run(item, View(env, names), w);
    Evaluated(reply.value, Update(env, map x | x in reply.locals && x in names :: reply.locals[x]), reply.world, reply.halts)
  }

  /** The outermost n bindings are still there, under the same names. */
  predicate Keeps<V>(env: Env<V>, env': Env<V>, n: nat) {
    n <= |env| && n <= |env'| && Scope(Trim(env, n)) == Scope(Trim(env', n))
  }

  lemma KeepsLess<V>(a: Env<V>, b: Env<V>, m: nat, n: nat)
    requires n <= m && Keeps(a, b, m)
    ensures Keeps(a, b, n)
  {
    forall i | 0 <= i < n ensures Trim(a, n)[i].name == Trim(b, n)[i].name {
      assert Scope(Trim(a, m))[m - n + i] == Scope(Trim(b, m))[m - n + i];
    }
    assert Scope(Trim(a, n)) == Scope(Trim(b, n));
  }

  /** A registered defer, with the number of bindings in scope where it was registered. */
  datatype Registered = Registered(body: seq<Stmt>, height: nat)

  /** Newest first, for a scope of n bindings: the older a defer, the fewer bindings it sees. */
  predicate Stacked(ds: seq<Registered>, n: nat) {
    ds == [] || (ds[0].height <= n && Stacked(ds[1..], ds[0].height))
  }

  /** What the oldest defer sees, which running the defers leaves in scope. */
  function Base(ds: seq<Registered>, n: nat): (r: nat)
    requires Stacked(ds, n)
    ensures r <= n
  {
    if ds == [] then n else Base(ds[1..], ds[0].height)
  }

  lemma StackedDeeper(ds: seq<Registered>, n: nat, m: nat)
    requires Stacked(ds, n) && n <= m
    ensures Stacked(ds, m) && Base(ds, n) <= Base(ds, m)
  {}

  lemma KeepsBase<V>(ds: seq<Registered>, a: Env<V>, b: Env<V>, c: Env<V>)
    requires Stacked(ds, |a|) && Stacked(ds, |b|) && Keeps(a, b, |a|) && Keeps(b, c, Base(ds, |b|))
    ensures Keeps(a, c, Base(ds, |a|))
  {
    StackedDeeper(ds, |a|, |b|);
    KeepsLess(b, c, Base(ds, |b|), Base(ds, |a|));
    KeepsLess(a, b, |a|, Base(ds, |a|));
  }

  lemma TrimKeeps<V>(a: Env<V>, b: Env<V>, m: nat, n: nat)
    requires n <= m <= |a| && Keeps(Trim(a, m), b, n)
    ensures Keeps(a, b, n)
  {
    assert Trim(Trim(a, m), n) == Trim(a, n);
  }

  function Size(s: Stmt): nat {
    match s
    case If(_, yes, no) => 1 + SizeAll(yes) + SizeOther(no)
    case Guard(_, ss) => 1 + SizeAll(ss)
    case While(_, ss) => 2 + SizeAll(ss)
    case Defer(ss) => 1 + SizeAll(ss)
    case Let(_, _, _) => 0
    case Do(_) => 0
    case Return(_) => 0
    case Break => 0
    case Continue => 0
  }

  function SizeAll(ss: seq<Stmt>): nat {
    if ss == [] then 0 else 1 + Size(ss[0]) + SizeAll(ss[1..])
  }

  function SizeOther(no: Alternative): nat {
    match no
    case Nothing => 0
    case Else(ss) => 1 + SizeAll(ss)
    case ElseIf(_, yes, no') => 1 + SizeAll(yes) + SizeOther(no')
  }

  function SizeRegistered(ds: seq<Registered>): nat {
    if ds == [] then 0 else 1 + SizeAll(ds[0].body) + SizeRegistered(ds[1..])
  }

  /** A statement list, in which ds are the defers registered so far: they run, last registered
      first, when control leaves the list in whichever way. */
  function Exec<V, W>(I: Interp<V, W>, ss: seq<Stmt>, env: Env<V>, w: W, ds: seq<Registered>, limit: nat): (r: Result<V, W>)
    requires Stacked(ds, |env|)
    ensures Keeps(env, r.env, Base(ds, |env|))
    decreases SizeAll(ss) + SizeRegistered(ds), 2, 0
  {
    if ss == [] then RunDefers(I, ds, Normal, env, w, limit)
    else if ss[0].Defer? then
      var ds' := [Registered(ss[0].deferred, |env|)] + ds;
      assert ds'[1..] == ds && SizeRegistered(ds') == 1 + SizeAll(ss[0].deferred) + SizeRegistered(ds);
      assert SizeAll(ss) == 1 + Size(ss[0]) + SizeAll(ss[1..]);
      Exec(I, ss[1..], env, w, ds', limit)
    else
      var r := Step(I, ss[0], env, w, limit);
      StackedDeeper(ds, |env|, |r.env|);
      if r.flow.Halted? || r.flow.OutOfSteps? then
        KeepsLess(env, r.env, |env|, Base(ds, |env|));
        r
      else
        var last :=
          if r.flow.Normal? then Exec(I, ss[1..], r.env, r.world, ds, limit)
          else RunDefers(I, ds, r.flow, r.env, r.world, limit);
        KeepsBase(ds, env, r.env, last.env);
        last
  }

  /** Each defer runs in the scope it was registered in. */
  function RunDefers<V, W>(I: Interp<V, W>, ds: seq<Registered>, flow: Flow<V>, env: Env<V>, w: W, limit: nat): (r: Result<V, W>)
    requires Stacked(ds, |env|)
    ensures Keeps(env, r.env, Base(ds, |env|))
    decreases SizeRegistered(ds), 1, 0
  {
    if ds == [] then Result(flow, env, w)
    else
      var inner := Trim(env, ds[0].height);
      var r := Exec(I, ds[0].body, inner, w, [], limit);
      StackedDeeper(ds[1..], |inner|, |r.env|);
      if r.flow.Normal? then
        var last := RunDefers(I, ds[1..], flow, r.env, r.world, limit);
        KeepsBase(ds[1..], inner, r.env, last.env);
        TrimKeeps(env, last.env, |inner|, Base(ds, |env|));
        last
      else
        KeepsLess(inner, r.env, |inner|, Base(ds, |env|));
        TrimKeeps(env, r.env, |inner|, Base(ds, |env|));
        r
  }

  function Block<V, W>(I: Interp<V, W>, ss: seq<Stmt>, env: Env<V>, w: W, limit: nat): (r: Result<V, W>)
    ensures |r.env| == |env| && Scope(r.env) == Scope(env)
    decreases SizeAll(ss), 3, 0
  {
    var r := Exec(I, ss, env, w, [], limit);
    Result(r.flow, Trim(r.env, |env|), r.world)
  }

  function Step<V, W>(I: Interp<V, W>, s: Stmt, env: Env<V>, w: W, limit: nat): (r: Result<V, W>)
    requires !s.Defer?
    ensures Keeps(env, r.env, |env|) && (!s.Let? ==> |r.env| == |env|)
    decreases Size(s), 4, 0
  {
    match s
    case Let(_, name, init) =>
      var v := Eval(I, Value(init), env, w);
      if v.halts then Result(Halted, v.env, v.world) else Result(Normal, [Binding(name, v.value)] + v.env, v.world)
    case Do(item) =>
      var v := Eval(I, item, env, w);
      Result(if v.halts then Halted else Normal, v.env, v.world)
    case If(condition, yes, no) => Branch(I, condition, yes, no, env, w, limit)
    case Guard(condition, otherwise) =>
      var v := Eval(I, Value(condition), env, w);
      if v.halts then Result(Halted, v.env, v.world)
      else if I.truth(v.value) then Result(Normal, v.env, v.world)
      else Block(I, otherwise, v.env, v.world, limit)
    case While(condition, body) => Loop(I, condition, body, env, w, limit, limit)
    case Return(value) =>
      if value.None? then Result(Returned(None), env, w)
      else
        var v := Eval(I, Value(value.value), env, w);
        Result(if v.halts then Halted else Returned(Some(v.value)), v.env, v.world)
    case Break => Result(Broke, env, w)
    case Continue => Result(Continued, env, w)
  }

  function Branch<V, W>(I: Interp<V, W>, condition: Expr, yes: seq<Stmt>, no: Alternative, env: Env<V>, w: W, limit: nat): (r: Result<V, W>)
    ensures Keeps(env, r.env, |env|) && |r.env| == |env|
    decreases SizeAll(yes) + SizeOther(no), 4, 0
  {
    var v := Eval(I, Value(condition), env, w);
    if v.halts then Result(Halted, v.env, v.world)
    else if I.truth(v.value) then Block(I, yes, v.env, v.world, limit)
    else
      match no
      case Nothing => Result(Normal, v.env, v.world)
      case Else(ss) => Block(I, ss, v.env, v.world, limit)
      case ElseIf(c, yes', no') => Branch(I, c, yes', no', v.env, v.world, limit)
  }

  /** At most k more iterations; every loop entered may make `limit` of them. */
  function Loop<V, W>(I: Interp<V, W>, condition: Expr, body: seq<Stmt>, env: Env<V>, w: W, limit: nat, k: nat): (r: Result<V, W>)
    ensures Keeps(env, r.env, |env|) && |r.env| == |env|
    decreases 1 + SizeAll(body), 0, k
  {
    var v := Eval(I, Value(condition), env, w);
    if v.halts then Result(Halted, v.env, v.world)
    else if !I.truth(v.value) then Result(Normal, v.env, v.world)
    else if k == 0 then Result(OutOfSteps, v.env, v.world)
    else
      var r := Block(I, body, v.env, v.world, limit);
      match r.flow
      case Normal => Loop(I, condition, body, r.env, r.world, limit, k - 1)
      case Continued => Loop(I, condition, body, r.env, r.world, limit, k - 1)
      case Broke => Result(Normal, r.env, r.world)
      case Returned(_) => r
      case Halted => r
      case OutOfSteps => r
  }

  /** What a caller of the function observes: how it ends and the world it leaves. */
  datatype Outcome<+V, +W> = Outcome(flow: Flow<V>, world: W)

  function Observe<V, W>(I: Interp<V, W>, body: seq<Stmt>, params: Env<V>, w: W, limit: nat): Outcome<V, W> {
    var r := Exec(I, body, params, w, [], limit);
    Outcome(r.flow, r.world)
  }

  // ---- lowering --------------------------------------------------------------

  type DeferStack = seq<seq<Stmt>>

  /** The code of the defers on the stack, top first. */
  function Inline(stack: DeferStack): seq<Stmt> {
    if stack == [] then [] else stack[0] + Inline(stack[1..])
  }

  function Temporary(e: Expr): Stmt {
    Let("__typeof__(" + Print(e) + ")", RET_VAL, e)
  }

  /** The emitted statements and the defer stack afterwards. The stack belongs to the function:
      a defer in a nested block stays on it after the block. */
  function Lower(ss: seq<Stmt>, stack: DeferStack): (seq<Stmt>, DeferStack) {
    if ss == [] then ([], stack)
    else
      var (code, stack1) := LowerStmt(ss[0], stack);
      var (rest, stack2) := Lower(ss[1..], stack1);
      (code + rest, stack2)
  }

  function LowerStmt(s: Stmt, stack: DeferStack): (seq<Stmt>, DeferStack) {
    match s
    case Let(_, _, _) => ([s], stack)
    case Do(_) => ([s], stack)
    case Break => ([s], stack)
    case Continue => ([s], stack)
    case If(c, yes, no) =>
      var (yes1, stack1) := Lower(yes, stack);
      var (no1, stack2) := LowerOther(no, stack1);
      ([If(c, yes1, no1)], stack2)
    case Guard(c, ss) =>
      var (ss1, stack1) := Lower(ss, stack);
      ([Guard(c, ss1)], stack1)
    case While(c, ss) =>
      var (ss1, stack1) := Lower(ss, stack);
      ([While(c, ss1)], stack1)
    case Defer(body) => ([], [body] + stack)
    case Return(value) =>
      if stack == [] then ([s], stack)
      else if value.None? then (Inline(stack) + [s], stack)
      else ([Temporary(value.value)] + Inline(stack) + [Return(Some(Expr.Ident(RET_VAL, [])))], stack)
  }

  function LowerOther(no: Alternative, stack: DeferStack): (Alternative, DeferStack) {
    match no
    case Nothing => (no, stack)
    case Else(ss) =>
      var (ss1, stack1) := Lower(ss, stack);
      (Else(ss1), stack1)
    case ElseIf(c, yes, no') =>
      var (yes1, stack1) := Lower(yes, stack);
      var (no1, stack2) := LowerOther(no', stack1);
      (ElseIf(c, yes1, no1), stack2)
  }

  /** A whole function body: the defers still on the stack follow the last statement. */
  function LowerBody(body: seq<Stmt>): seq<Stmt> {
    var (code, stack) := Lower(body, []);
    code + Inline(stack)
  }
}
