/** What an expression is worth, and the C tree that is made of it. */
module SotlasCMeaning {
  import opened Options
  import opened SotlasTokens
  import S = SotlasParsing
  import opened SotlasPrinting
  import opened SotlasCTrees

  // ---- what an expression is worth -------------------------------------------------------------

  /** Names by their paths. */
  type Scope = map<seq<string>, Val>

  /** Hexadecimal and binary by their prefixes, otherwise decimal. */
  function IntegerValue(t: string): Option<nat> {
    if IsPrefixed(t, 'x', 'X') then ValueIn(t[2..], 16)
    else if IsPrefixed(t, 'b', 'B') then ValueIn(t[2..], 2)
    else ValueIn(t, 10)
  }

  /** Bits lo to hi, both included. */
  function Bits(v: nat, lo: nat, hi: nat): nat
    requires lo <= hi
  {
    v / Power(2, lo) % Power(2, hi - lo + 1)
  }

  function LiteralValue(k: Kind, t: string, m: Machine): Option<Val> {
    if k.KwTrue? then Some(Num(1))
    else if k.KwFalse? then Some(Num(0))
    else if k.KwNil? then m.cast("void*", Num(0))
    else if k.StrLit? then Some(Text('\"', t))
    else if k.CharLit? then Some(Text('\'', t))
    else if k.IntLit? then if IntegerValue(t).None? then None else Some(Num(IntegerValue(t).value))
    else Some(m.fraction(t))
  }

  /** A slit of bits of a 64-bit number; of all 64 see WholeSlit. */
  function Slit(v: Val, lo: Val, hi: Val): Option<Val> {
    if v.Num? && lo.Num? && hi.Num? && v.n < W && lo.n <= hi.n < 64 && hi.n - lo.n < 63 then Some(Num(Bits(v.n, lo.n, hi.n)))
    else None
  }

  function Notch(v: Val, bit: Val): Option<Val> {
    if v.Num? && bit.Num? && v.n < W && bit.n < 64 then Some(Num(Bits(v.n, bit.n, bit.n))) else None
  }

  /** Number of elements, by sizes. */
  function Count(v: Val, m: Machine): Option<Val> {
    var first := m.unary("*", v);
    if first.None? then None else m.binary("/", m.size(v), m.size(first.value))
  }

  /** Where a slice starts, and how long it is. */
  function View(v: Val, lo: Val, hi: Val, m: Machine): Option<Val> {
    var data, length := m.binary("+", v, lo), m.binary("-", hi, lo);
    if data.None? || length.None? then None
    else
      var size := m.cast("size_t", length.value);
      if size.None? then None else Some(Record("", map["data" := data.value, "len" := size.value]))
  }

  function Places(n: nat): (r: seq<string>)
    ensures |r| == n
  {
    seq(n, i requires 0 <= i < n => "_" + PrintNat(i))
  }

  function Tags(fields: seq<S.FieldInit>): (r: seq<string>)
    ensures |r| == |fields|
  {
    seq(|fields|, i requires 0 <= i < |fields| => fields[i].name)
  }

  ghost function All(vs: seq<Option<Val>>): (r: Option<seq<Val>>)
    ensures r.Some? ==> |r.value| == |vs| && forall i :: 0 <= i < |vs| ==> vs[i] == Some(r.value[i])
    ensures r.None? ==> exists i :: 0 <= i < |vs| && vs[i].None?
  {
    if exists i :: 0 <= i < |vs| && vs[i].None? then None
    else Some(seq(|vs|, i requires 0 <= i < |vs| => vs[i].value))
  }

  /** The second operand of && and || matters only if the first does not decide. */
  function Operate(op: Kind, v: Val, w: Option<Val>, m: Machine): Option<Val> {
    if !IsCBinaryOp(op) then None
    else if op.And? && !IsTrue(v) then Some(Num(0))
    else if op.Or? && IsTrue(v) then Some(Num(1))
    else if w.None? then None
    else if op.And? || op.Or? then Some(Truth(IsTrue(w.value)))
    else m.binary(Spelling(op), v, w.value)
  }

  ghost function Eval(e: S.Expr, env: Scope, m: Machine): Option<Val>
    decreases e
  {
    match e
    case Literal(k, t) => LiteralValue(k, t, m)
    case Ident(name, path) => if path + [name] in env then Some(env[path + [name]]) else None
    case Binary(op, l, r) =>
      var v, w := Eval(l, env, m), Eval(r, env, m);
      if v.None? then None else Operate(op, v.value, w, m)
    case Unary(op, x) =>
      var v := Eval(x, env, m);
      if v.None? || op.KwAwait? then v else if IsCUnaryOp(op) then m.unary(Spelling(op), v.value) else None
    case Call(f, args) =>
      var g, vs := Eval(f, env, m), All(seq(|args|, i requires 0 <= i < |args| => Eval(args[i].value, env, m)));
      if g.None? || vs.None? then None else m.call(g.value, vs.value)
    case Index(b, i) =>
      var v, w := Eval(b, env, m), Eval(i, env, m);
      if v.None? || w.None? then None else m.index(v.value, w.value)
    case Field(b, field) =>
      var v := Eval(b, env, m);
      if v.None? then None else Member(m, v.value, field)
    case BitSlice(b, lo, hi) =>
      var v, l, h := Eval(b, env, m), Eval(lo, env, m), Eval(hi, env, m);
      if v.None? || l.None? || h.None? then None else Slit(v.value, l.value, h.value)
    case BitNotch(b, bit) =>
      var v, n := Eval(b, env, m), Eval(bit, env, m);
      if v.None? || n.None? then None else Notch(v.value, n.value)
    case BitStrand(b) =>
      var v := Eval(b, env, m);
      if v.Some? && v.value.Num? then Some(Num(Swapped(v.value.n, 8))) else None
    case TupleIndex(b, n) =>
      var v := Eval(b, env, m);
      if v.None? then None else Member(m, v.value, "_" + PrintNat(n))
    case Slice(b, from, to) =>
      var v := Eval(b, env, m);
      if v.None? then None
      else
        var lo := if from.None? then Some(Num(0)) else Eval(from.value, env, m);
        var hi := if to.None? then Count(v.value, m) else Eval(to.value, env, m);
        if lo.None? || hi.None? then None else View(v.value, lo.value, hi.value, m)
    case OptionalChain(_) => None
    case ForceUnwrap(x) => Eval(x, env, m)
    case StructLit(name, _, fields) =>
      var vs := All(seq(|fields|, i requires 0 <= i < |fields| => Eval(fields[i].value, env, m)));
      if vs.None? then None else Some(Record(name, Fields(Tags(fields), vs.value)))
    case TupleLit(es) =>
      var vs := All(seq(|es|, i requires 0 <= i < |es| => Eval(es[i], env, m)));
      if es == [] then Some(Num(0)) else if vs.None? then None else Some(Record("", Fields(Places(|es|), vs.value)))
    case ArrayLit(es) =>
      var vs := All(seq(|es|, i requires 0 <= i < |es| => Eval(es[i], env, m)));
      if vs.None? then None else Some(Row(vs.value))
    case IfExpr(c, t, f) =>
      var v := Eval(c, env, m);
      if v.None? then None else if IsTrue(v.value) then Eval(t, env, m) else Eval(f, env, m)
  }

  // ---- the trees --------------------------------------------------------------------------------

  function LiteralTree(k: Kind, t: string): C {
    if k.KwTrue? then Number("1")
    else if k.KwFalse? then Number("0")
    else if k.KwNil? then Paren(Cast("void*", Number("0")))
    else if k.StrLit? then Quoted('\"', t)
    else if k.CharLit? then Quoted('\'', t)
    else if k.IntLit? then Number(t)
    else Real(t)
  }

  function Width(lo: C, hi: C): C {
    Bin(Bin(Paren(hi), COp.Minus, false, Paren(lo)), COp.Plus, false, Number("1"))
  }

  /** (((b) >> (lo)) & ((1ULL << ((hi)-(lo)+1)) - 1)) */
  function SlitTree(b: C, lo: C, hi: C): C {
    var mask := Paren(Bin(Paren(Bin(Number("1ULL"), ShiftLeft, true, Paren(Width(lo, hi)))), COp.Minus, true, Number("1")));
    Paren(Bin(Paren(Bin(Paren(b), ShiftRight, true, Paren(lo))), BitAnd, true, mask))
  }

  function NotchTree(b: C, bit: C): C {
    Paren(Bin(Paren(Bin(Paren(b), ShiftRight, true, Paren(bit))), BitAnd, true, Number("1ULL")))
  }

  function CountTree(b: C): C {
    Paren(Bin(SizeOf(b), Over, false, SizeOf(Pre(Times, Paren(b)))))
  }

  function ViewParts(lo: C, hi: C): (r: seq<C>)
    ensures |r| == 2
  {
    [Bin(Name("_b"), COp.Plus, true, Paren(lo)), Cast("size_t", Paren(Bin(Paren(hi), COp.Minus, true, Paren(lo))))]
  }

  function ViewLet(lo: C, hi: C): C {
    Let(VIEW, "_s", Tagged(["data", "len"], ViewParts(lo, hi)), Name("_s"))
  }

  /** A block that names the base _b, and the slice _s. */
  function SliceTree(b: C, lo: C, hi: C): C {
    Block(Let("__typeof__(" + CText(b) + ")", "_b", Paren(b), ViewLet(lo, hi)))
  }

  function BinaryOp(op: Kind): COp
    requires IsCBinaryOp(op)
  {
    match op
    case Eq => Same case Neq => Differs case And => AndAlso case Or => OrElse
    case LAnd => BitAnd case LOr => BitOr case Xor => BitXor case Shl => ShiftLeft case Shr => ShiftRight
    case Lt => Less case Lte => AtMost case Gt => More case Gte => AtLeast
    case Plus => COp.Plus case Minus => COp.Minus case Star => Times case Slash => Over case Percent => Modulo
  }

  function UnaryOp(op: Kind): COp
    requires IsCUnaryOp(op)
  {
    match op
    case Not => Bang case Minus => COp.Minus case Tilde => Flip case Star => Times case LAnd => BitAnd
  }

  lemma BinarySpelled(op: Kind)
    requires IsCBinaryOp(op)
    ensures op.IsOperator() && OpText(BinaryOp(op)) == Spelling(op)
  {}

  lemma UnarySpelled(op: Kind)
    requires IsCUnaryOp(op)
    ensures op.IsOperator() && OpText(UnaryOp(op)) == Spelling(op)
  {}

  function AsC(e: S.Expr): C
    decreases e
  {
    match e
    case Literal(k, t) => LiteralTree(k, t)
    case Ident(name, path) => Name(JoinPath(path, name))
    case Binary(op, l, r) => if IsCBinaryOp(op) then Paren(Bin(AsC(l), BinaryOp(op), true, AsC(r))) else Name(Print(e))
    case Unary(op, x) =>
      if op.KwAwait? then Noted(" await ", AsC(x)) else if IsCUnaryOp(op) then Paren(Pre(UnaryOp(op), AsC(x))) else Name(Print(e))
    case Call(f, args) => App(AsC(f), seq(|args|, i requires 0 <= i < |args| => AsC(args[i].value)))
    case Index(b, i) => Element(AsC(b), AsC(i))
    case Field(b, field) => Part(AsC(b), field)
    case BitSlice(b, lo, hi) => SlitTree(AsC(b), AsC(lo), AsC(hi))
    case BitNotch(b, bit) => NotchTree(AsC(b), AsC(bit))
    case BitStrand(b) => App(Name("__builtin_bswap64"), [AsC(b)])
    case TupleIndex(b, n) => Part(AsC(b), "_" + PrintNat(n))
    case Slice(b, from, to) =>
      SliceTree(AsC(b), if from.None? then Number("0") else AsC(from.value), if to.None? then CountTree(AsC(b)) else AsC(to.value))
    case OptionalChain(_) => Name("/* unknown_expr */")
    case ForceUnwrap(x) => AsC(x)
    case StructLit(name, _, fields) =>
      Compound(name, Tagged(Tags(fields), seq(|fields|, i requires 0 <= i < |fields| => AsC(fields[i].value))))
    case TupleLit(es) =>
      if es == [] then Number("0") else Tagged(Places(|es|), seq(|es|, i requires 0 <= i < |es| => AsC(es[i])))
    case ArrayLit(es) => Braces(seq(|es|, i requires 0 <= i < |es| => AsC(es[i])))
    case IfExpr(c, t, f) => Paren(Cond(Paren(AsC(c)), Paren(AsC(t)), Paren(AsC(f))))
  }
}
