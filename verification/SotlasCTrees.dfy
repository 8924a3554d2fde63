/** Expressions of C as trees: their texts, where they may stand, and their values. */
module SotlasCTrees {
  import opened Options

  // ---- values ----------------------------------------------------------------------------

  datatype Val =
    | Num(n: nat)
    | Text(quote: char, text: string)
    | Record(kind: string, fields: map<string, Val>)
    | Row(elements: seq<Val>)
    | Other(id: int)

  /** What is not fixed here: operators, calls, elements, fields of other values, sizes. */
  datatype Machine = Machine(
    binary: (string, Val, Val) -> Option<Val>,
    unary: (string, Val) -> Option<Val>,
    call: (Val, seq<Val>) -> Option<Val>,
    index: (Val, Val) -> Option<Val>,
    member: (Val, string) -> Option<Val>,
    cast: (string, Val) -> Option<Val>,
    size: Val -> Val,
    fraction: string -> Val)

  const W := 0x1_0000_0000_0000_0000

  predicate IsTrue(v: Val) {
    v != Num(0)
  }

  function Truth(b: bool): Val {
    Num(if b then 1 else 0)
  }

  function Member(m: Machine, v: Val, field: string): Option<Val> {
    if v.Record? && field in v.fields then Some(v.fields[field]) else m.member(v, field)
  }

  /** The fields of an initializer, where a later one replaces an earlier one. */
  function Fields(tags: seq<string>, values: seq<Val>): map<string, Val>
    requires |tags| == |values|
  {
    if tags == [] then map[]
    else Fields(tags[..|tags| - 1], values[..|tags| - 1])[tags[|tags| - 1] := values[|tags| - 1]]
  }

  /** The first n bytes of a number in the opposite order. */
  function Swapped(v: nat, n: nat): nat {
    if n == 0 then 0 else v % 256 * Power(256, n - 1) + Swapped(v / 256, n - 1)
  }

  function Power(base: nat, n: nat): (r: nat)
    ensures base > 0 ==> r > 0
  {
    if n == 0 then 1 else base * Power(base, n - 1)
  }

  // ---- integer constants -------------------------------------------------------------------

  function Digit(c: char): nat {
    if '0' <= c <= '9' then c as nat - '0' as nat
    else if 'a' <= c <= 'f' then c as nat - 'a' as nat + 10
    else if 'A' <= c <= 'F' then c as nat - 'A' as nat + 10
    else 16
  }

  function ValueIn(t: string, base: nat): Option<nat> {
    if t == "" then None
    else
      var d := Digit(t[|t| - 1]);
      if d >= base then None
      else if |t| == 1 then Some(d)
      else
        var rest := ValueIn(t[..|t| - 1], base);
        if rest.None? then None else Some(base * rest.value + d)
  }

  predicate IsPrefixed(t: string, c: char, d: char) {
    |t| > 1 && t[0] == '0' && (t[1] == c || t[1] == d)
  }

  /** Section 6.4.4.1 of C11, with binary constants as GNU C has them: a leading zero makes it octal. */
  function CNumber(t: string): Option<nat> {
    if t == "1ULL" then Some(1)
    else if IsPrefixed(t, 'x', 'X') then ValueIn(t[2..], 16)
    else if IsPrefixed(t, 'b', 'B') then ValueIn(t[2..], 2)
    else if |t| > 1 && t[0] == '0' then ValueIn(t, 8)
    else ValueIn(t, 10)
  }

  // ---- trees -------------------------------------------------------------------------------

  datatype COp =
    | Times | Over | Modulo | Plus | Minus | ShiftLeft | ShiftRight | Less | AtMost | More | AtLeast
    | Same | Differs | BitAnd | BitXor | BitOr | AndAlso | OrElse | Bang | Flip

  /** As it is spelled, also in front of an operand. */
  function OpText(op: COp): string {
    match op
    case Times => "*" case Over => "/" case Modulo => "%" case Plus => "+" case Minus => "-"
    case ShiftLeft => "<<" case ShiftRight => ">>" case Less => "<" case AtMost => "<=" case More => ">" case AtLeast => ">="
    case Same => "==" case Differs => "!=" case BitAnd => "&" case BitXor => "^" case BitOr => "|"
    case AndAlso => "&&" case OrElse => "||" case Bang => "!" case Flip => "~"
  }

  datatype C =
    | Number(text: string)
    | Real(text: string)
    | Quoted(quote: char, text: string)
    | Name(text: string)
    | Paren(x: C)
    | Bin(left: C, op: COp, wide: bool, right: C)
    | Pre(op: COp, x: C)
    | Noted(note: string, x: C)
    | App(f: C, args: seq<C>)
    | Element(base: C, index: C)
    | Part(base: C, field: string)
    | Cond(c: C, t: C, f: C)
    | Cast(kind: string, x: C)
    | SizeOf(x: C)
    | Braces(values: seq<C>)
    | Tagged(tags: seq<string>, values: seq<C>)
    | Compound(kind: string, x: C)
    | Block(x: C)
    | Let(kind: string, name: string, init: C, rest: C)

  function Join(ts: seq<string>): string {
    if ts == [] then "" else if |ts| == 1 then ts[0] else ts[0] + (", " + Join(ts[1..]))
  }

  function Texts(xs: seq<C>): (r: seq<string>)
    ensures |r| == |xs|
    decreases xs
  {
    seq(|xs|, i requires 0 <= i < |xs| => CText(xs[i]))
  }

  /** `.a = x`, for each tag. */
  function Designated(tags: seq<string>, ts: seq<string>): (r: seq<string>)
    requires |tags| == |ts|
    ensures |r| == |ts|
  {
    seq(|ts|, i requires 0 <= i < |ts| => "." + tags[i] + " = " + ts[i])
  }

  function CText(x: C): string
    decreases x
  {
    match x
    case Number(t) => t
    case Real(t) => t
    case Quoted(q, t) => [q] + t + [q]
    case Name(t) => t
    case Paren(y) => "(" + (CText(y) + ")")
    case Bin(l, op, wide, r) => if wide then CText(l) + (" " + (OpText(op) + (" " + CText(r)))) else CText(l) + (OpText(op) + CText(r))
    case Pre(op, y) => OpText(op) + CText(y)
    case Noted(note, y) => "/*" + note + "*/ " + CText(y)
    case App(f, args) => CText(f) + ("(" + (Join(Texts(args)) + ")"))
    case Element(b, i) => CText(b) + ("[" + (CText(i) + "]"))
    case Part(b, field) => CText(b) + ("." + field)
    case Cond(c, t, f) => CText(c) + " ? " + CText(t) + " : " + CText(f)
    case Cast(kind, y) => "(" + kind + ")" + CText(y)
    case SizeOf(y) => "sizeof(" + CText(y) + ")"
    case Braces(xs) => "{" + Join(Texts(xs)) + "}"
    case Tagged(tags, xs) => "{ " + (if |tags| == |xs| then Join(Designated(tags, Texts(xs))) else "") + " }"
    case Compound(kind, y) => "(" + kind + ")" + CText(y)
    case Block(y) => "({ " + CText(y) + "; })"
    case Let(kind, name, init, rest) => kind + " " + name + " = " + CText(init) + "; " + CText(rest)
  }

  // ---- where an expression may stand -----------------------------------------------------------

  /** Section 6.5 of C11. */
  function Precedence(op: COp): nat {
    match op
    case Times | Over | Modulo => 13
    case Plus | Minus => 12
    case ShiftLeft | ShiftRight => 11
    case Less | AtMost | More | AtLeast => 10
    case Same | Differs => 9
    case BitAnd => 8
    case BitXor => 7
    case BitOr => 6
    case AndAlso => 5
    case OrElse => 4
    case Bang | Flip => 0
  }

  function Level(x: C): nat {
    match x
    case Bin(_, op, _, _) => Precedence(op)
    case Pre(_, _) => 14
    case Cast(_, _) => 14
    case SizeOf(_) => 14
    case Cond(_, _, _) => 3
    case Noted(_, y) => Level(y)
    case Braces(_) => 0
    case Tagged(_, _) => 0
    case Let(_, _, _, _) => 0
    case _ => 15
  }

  /** What a literal of C with this between its quotes stands for (sections 6.4.4.4 and 6.4.5 of C11);
      escapes by numbers, which are longer than what they stand for, are not read. */
  function Contents(quote: char, text: string): Option<string> {
    if text == "" then Some("")
    else if text[0] == quote || text[0] == '\n' then None
    else if text[0] == '\\' then
      if |text| < 2 || Escaped(text[1]).None? then None
      else
        var rest := Contents(quote, text[2..]);
        if rest.None? then None else Some([Escaped(text[1]).value] + rest.value)
    else
      var rest := Contents(quote, text[1..]);
      if rest.None? then None else Some([text[0]] + rest.value)
  }

  function Escaped(c: char): Option<char> {
    if c == 'n' then Some('\n') else if c == 't' then Some('\t') else if c == 'r' then Some('\r')
    else if c == '\\' || c == '\'' || c == '\"' || c == '?' then Some(c)
    else None
  }

  /** Operands bind at least as tightly as the operator, and more tightly on its right. */
  predicate IsC(x: C)
    decreases x, 0
  {
    match x
    case Number(t) => CNumber(t).Some?
    case Real(_) => true
    case Quoted(q, t) => Contents(q, t).Some?
    case Name(_) => true
    case Paren(y) => IsC(y) && Level(y) >= 3
    case Bin(l, op, _, r) => IsC(l) && IsC(r) && 0 < Precedence(op) <= Level(l) && Precedence(op) < Level(r)
    case Pre(op, y) => (op.Bang? || op.Minus? || op.Flip? || op.Times? || op.BitAnd?) && IsC(y) && Level(y) >= 14
    case Noted(_, y) => IsC(y)
    case App(f, args) => IsC(f) && Level(f) == 15 && forall y <- args :: IsC(y) && Level(y) >= 3
    case Element(b, i) => IsC(b) && Level(b) == 15 && IsC(i) && Level(i) >= 3
    case Part(b, _) => IsC(b) && Level(b) == 15
    case Cond(c, t, f) => IsC(c) && Level(c) > 3 && IsC(t) && Level(t) >= 3 && IsC(f) && Level(f) >= 3
    case Cast(_, y) => IsC(y) && Level(y) >= 14
    case SizeOf(y) => IsC(y) && Level(y) >= 3
    case Braces(xs) => forall y <- xs :: IsInitializer(y)
    case Tagged(tags, xs) => |tags| == |xs| && forall y <- xs :: IsInitializer(y)
    case Compound(_, y) => y.Tagged? && IsC(y)
    case Block(y) => IsC(y) && (y.Let? || Level(y) >= 3)
    case Let(_, _, init, rest) => IsInitializer(init) && IsC(rest) && (rest.Let? || Level(rest) >= 3)
  }

  predicate IsInitializer(x: C)
    decreases x, 1
  {
    IsC(x) && (Level(x) >= 3 || x.Braces? || x.Tagged?)
  }

  // ---- values of trees ---------------------------------------------------------------------------

  type Env = map<string, Val>

  ghost function ValuesOf(xs: seq<C>, env: Env, m: Machine): (r: Option<seq<Val>>)
    ensures r.Some? ==> |r.value| == |xs|
    decreases xs
  {
    if exists i :: 0 <= i < |xs| && EvalC(xs[i], env, m).None? then None
    else Some(seq(|xs|, i requires 0 <= i < |xs| => EvalC(xs[i], env, m).value))
  }

  /** The operators that do not look at their second operand first. */
  function Lazy(op: COp, l: Val, r: Option<Val>, m: Machine): Option<Val> {
    if op.AndAlso? && !IsTrue(l) then Some(Num(0))
    else if op.OrElse? && IsTrue(l) then Some(Num(1))
    else if r.None? then None
    else if op.AndAlso? || op.OrElse? then Some(Truth(IsTrue(r.value)))
    else m.binary(OpText(op), l, r.value)
  }

  ghost function EvalC(x: C, env: Env, m: Machine): Option<Val>
    decreases x
  {
    match x
    case Number(t) => if CNumber(t).None? then None else Some(Num(CNumber(t).value))
    case Real(t) => Some(m.fraction(t))
    case Quoted(q, t) => if Contents(q, t).None? then None else Some(Text(q, Contents(q, t).value))
    case Name(t) => if t in env then Some(env[t]) else None
    case Paren(y) => EvalC(y, env, m)
    case Bin(l, op, _, r) =>
      var v := EvalC(l, env, m);
      if v.None? then None else Lazy(op, v.value, EvalC(r, env, m), m)
    case Pre(op, y) =>
      var v := EvalC(y, env, m);
      if v.None? then None else m.unary(OpText(op), v.value)
    case Noted(_, y) => EvalC(y, env, m)
    case App(f, args) =>
      var vs := ValuesOf(args, env, m);
      if vs.None? then None
      else if f == Name("__builtin_bswap64") then
        if |args| == 1 && vs.value[0].Num? then Some(Num(Swapped(vs.value[0].n, 8))) else None
      else
        var g := EvalC(f, env, m);
        if g.None? then None else m.call(g.value, vs.value)
    case Element(b, i) =>
      var v, w := EvalC(b, env, m), EvalC(i, env, m);
      if v.None? || w.None? then None else m.index(v.value, w.value)
    case Part(b, field) =>
      var v := EvalC(b, env, m);
      if v.None? then None else Member(m, v.value, field)
    case Cond(c, t, f) =>
      var v := EvalC(c, env, m);
      if v.None? then None else if IsTrue(v.value) then EvalC(t, env, m) else EvalC(f, env, m)
    case Cast(kind, y) =>
      var v := EvalC(y, env, m);
      if v.None? then None else m.cast(kind, v.value)
    case SizeOf(y) =>
      var v := EvalC(y, env, m);
      if v.None? then None else Some(m.size(v.value))
    case Braces(xs) =>
      var vs := ValuesOf(xs, env, m);
      if vs.None? then None else Some(Row(vs.value))
    case Tagged(tags, xs) =>
      var vs := ValuesOf(xs, env, m);
      if vs.None? || |tags| != |xs| then None else Some(Record("", Fields(tags, vs.value)))
    case Compound(kind, y) =>
      var v := EvalC(y, env, m);
      if v.None? || !v.value.Record? then None else Some(Record(kind, v.value.fields))
    case Block(y) => EvalC(y, env, m)
    case Let(_, name, init, rest) =>
      // The new name is in scope in its own initializer and has no value there.
      var v := EvalC(init, env - {name}, m);
      if v.None? then None else EvalC(rest, env[name := v.value], m)
  }
}
