/** The grammar of expressions: the ways to write one, the tokens each consists of, and the tree it
    stands for. */
module SotlasForms {
  import opened Options
  import opened SotlasTokens
  import opened SotlasParsing

  // ---- ways to write an expression ----------------------------------------------------------

  /** The flag comma is a comma behind the last item; mut is the word behind an ampersand; chained is
      an else part that is a condition without braces. */
  datatype Form =
    | Atom(word: Word)
    | Path(names: seq<string>)
    | Group(inner: Form)
    | Tuple(items: seq<Form>, comma: bool)
    | Array(items: seq<Form>, comma: bool)
    | Repeat(item: Form, count: Form)
    | Struct(names: seq<string>, fields: seq<FieldForm>)
    | Choice(condition: Form, yes: Form, no: Form, chained: bool)
    | Dotted(base: Form, name: string)
    | Method(base: Form, name: string, args: seq<ArgForm>, comma: bool)
    | Applied(base: Form, args: seq<ArgForm>, comma: bool)
    | Indexed(base: Form, index: Form)
    | Cut(base: Form, from: Option<Form>, to: Option<Form>)
    | Bits(base: Form, lo: Form, hi: Form)
    | Bit(base: Form, index: Form)
    | Order(base: Form)
    | Place(base: Form, digits: string)
    | Asked(base: Form)
    | Forced(base: Form)
    | Signed(op: Kind, mut: bool, operand: Form)
    | Pair(left: Form, op: Kind, right: Form)

  datatype ArgForm = ArgForm(tag: Option<string>, value: Form)

  /** A field may be followed by a comma. */
  datatype FieldForm = FieldForm(name: string, value: Form, comma: bool)

  /** What may be followed by a suffix. */
  predicate IsOperand(f: Form) {
    !f.Pair? && !f.Signed?
  }

  predicate IsPrimary(f: Form) {
    f.Atom? || f.Path? || f.Group? || f.Tuple? || f.Array? || f.Repeat? || f.Struct? || f.Choice?
  }

  /** Binary operators have one level and group to the left; prefix operators take an operand with its
      suffixes. A tuple of one has its comma, and an empty list has none. */
  predicate IsForm(f: Form) {
    match f
    case Atom(w) => IsLiteral(w.kind) || w.kind == KwSelf || w.kind == KwSuper
    case Path(names) => names != []
    case Group(x) => IsForm(x)
    case Tuple(xs, comma) => AreForms(xs) && (|xs| == 1 ==> comma) && (comma ==> xs != [])
    case Array(xs, comma) => AreForms(xs) && (comma ==> xs != [])
    case Repeat(x, n) => IsForm(x) && IsForm(n) && (IsCount(Tree(n)) ==> DecimalValue(Tree(n).text).Some?)
    case Struct(names, fields) => names != [] && AreFieldForms(fields)
    case Choice(c, t, e, chained) => IsForm(c) && IsForm(t) && IsForm(e) && (chained ==> e.Choice?)
    case Dotted(b, _) => IsOperand(b) && IsForm(b)
    case Method(b, _, args, comma) => IsOperand(b) && IsForm(b) && AreArgForms(args) && (comma ==> args != [])
    case Applied(b, args, comma) => IsOperand(b) && !b.Dotted? && IsForm(b) && AreArgForms(args) && (comma ==> args != [])
    case Indexed(b, i) => IsOperand(b) && IsForm(b) && IsForm(i)
    case Cut(b, lo, hi) => IsOperand(b) && IsForm(b) && (lo.Some? ==> IsForm(lo.value)) && (hi.Some? ==> IsForm(hi.value))
    case Bits(b, lo, hi) => IsOperand(b) && IsForm(b) && IsForm(lo) && IsForm(hi)
    case Bit(b, i) => IsOperand(b) && IsForm(b) && IsForm(i)
    case Order(b) => IsOperand(b) && IsForm(b)
    case Place(b, digits) => IsOperand(b) && IsForm(b) && DecimalValue(digits).Some?
    case Asked(b) => IsOperand(b) && IsForm(b)
    case Forced(b) => IsOperand(b) && IsForm(b)
    case Signed(op, mut, x) => IsUnaryOp(op) && (mut ==> op == LAnd) && !x.Pair? && IsForm(x)
    case Pair(l, op, r) => IsBinaryOp(op) && IsForm(l) && !r.Pair? && IsForm(r)
  }

  predicate AreForms(xs: seq<Form>) {
    xs == [] || (IsForm(xs[0]) && AreForms(xs[1..]))
  }

  predicate AreArgForms(args: seq<ArgForm>) {
    args == [] || (assert args decreases to args[0]; IsForm(args[0].value) && AreArgForms(args[1..]))
  }

  predicate AreFieldForms(fields: seq<FieldForm>) {
    fields == [] || (assert fields decreases to fields[0]; IsForm(fields[0].value) && AreFieldForms(fields[1..]))
  }

  // ---- tokens -----------------------------------------------------------------------------------

  /** A token of a kind, whatever its text, or exactly this token. */
  datatype Tok = Mark(kind: Kind) | Exact(word: Word)

  predicate Fits(w: Word, t: Tok) {
    match t
    case Mark(k) => w.kind == k
    case Exact(x) => w == x
  }

  function Named(name: string): Tok {
    Exact(Word(Kind.Ident, name))
  }

  function SpellPath(names: seq<string>): seq<Tok> {
    if names == [] then [] else if |names| == 1 then [Named(names[0])]
    else [Named(names[0])] + ([Mark(DColon)] + SpellPath(names[1..]))
  }

  function Spell(f: Form): seq<Tok>
    decreases f, 0
  {
    match f
    case Atom(w) => [Exact(w)]
    case Path(names) => SpellPath(names)
    case Group(x) => [Mark(LParen)] + (Spell(x) + [Mark(RParen)])
    case Tuple(xs, comma) => [Mark(LParen)] + (SpellItems(xs, comma) + [Mark(RParen)])
    case Array(xs, comma) => [Mark(LBracket)] + (SpellItems(xs, comma) + [Mark(RBracket)])
    case Repeat(x, n) => [Mark(LBracket)] + (Spell(x) + ([Mark(Semicolon)] + (Spell(n) + [Mark(RBracket)])))
    case Struct(names, fields) => SpellPath(names) + ([Mark(LBrace)] + (SpellFields(fields) + [Mark(RBrace)]))
    case Choice(c, t, e, chained) =>
      [Mark(KwIf)] + (Spell(c) + ([Mark(LBrace)] + (Spell(t) + ([Mark(RBrace)] + ([Mark(KwElse)]
        + (if chained then Spell(e) else [Mark(LBrace)] + (Spell(e) + [Mark(RBrace)])))))))
    case Dotted(b, name) => Spell(b) + ([Mark(Dot)] + [Named(name)])
    case Method(b, name, args, comma) =>
      Spell(b) + ([Mark(Dot)] + ([Named(name)] + ([Mark(LParen)] + (SpellArgs(args, comma) + [Mark(RParen)]))))
    case Applied(b, args, comma) => Spell(b) + ([Mark(LParen)] + (SpellArgs(args, comma) + [Mark(RParen)]))
    case Indexed(b, i) => Spell(b) + ([Mark(LBracket)] + (Spell(i) + [Mark(RBracket)]))
    case Cut(b, lo, hi) =>
      Spell(b) + ([Mark(LBracket)] + ((if lo.Some? then Spell(lo.value) else [])
                                      + ([Mark(DotDot)] + ((if hi.Some? then Spell(hi.value) else []) + [Mark(RBracket)]))))
    case Bits(b, lo, hi) =>
      Spell(b) + ([Mark(Dot)] + ([Mark(KwSlit)] + ([Mark(LBracket)] + (Spell(lo) + ([Mark(DotDot)] + (Spell(hi) + [Mark(RBracket)]))))))
    case Bit(b, i) => Spell(b) + ([Mark(Dot)] + ([Mark(KwNotch)] + ([Mark(LBracket)] + (Spell(i) + [Mark(RBracket)]))))
    case Order(b) => Spell(b) + ([Mark(Dot)] + [Mark(KwStrand)])
    case Place(b, digits) => Spell(b) + ([Mark(Dot)] + [Exact(Word(IntLit, digits))])
    case Asked(b) => Spell(b) + [Mark(QMark)]
    case Forced(b) => Spell(b) + [Mark(Not)]
    case Signed(op, mut, x) => [Mark(op)] + (if mut then [Mark(KwMut)] + Spell(x) else Spell(x))
    case Pair(l, op, r) => Spell(l) + ([Mark(op)] + Spell(r))
  }

  /** The comma behind an item, if there is one. */
  function Comma_(more: bool): seq<Tok> {
    if more then [Mark(Comma)] else []
  }

  function SpellItems(xs: seq<Form>, comma: bool): seq<Tok> {
    if xs == [] then [] else Spell(xs[0]) + (Comma_(|xs| > 1 || comma) + SpellItems(xs[1..], comma))
  }

  function SpellArg(a: ArgForm): seq<Tok> {
    if a.tag.Some? then [Named(a.tag.value)] + ([Mark(Colon)] + Spell(a.value)) else Spell(a.value)
  }

  function SpellArgs(args: seq<ArgForm>, comma: bool): seq<Tok> {
    if args == [] then []
    else
      assert args decreases to args[0];
      SpellArg(args[0]) + (Comma_(|args| > 1 || comma) + SpellArgs(args[1..], comma))
  }

  function SpellFields(fields: seq<FieldForm>): seq<Tok> {
    if fields == [] then []
    else
      assert fields decreases to fields[0];
      [Named(fields[0].name)] + ([Mark(Colon)] + (Spell(fields[0].value) + (Comma_(fields[0].comma) + SpellFields(fields[1..]))))
  }

  // ---- trees ------------------------------------------------------------------------------------

  predicate IsCount(e: Expr) {
    e.Literal? && e.kind == IntLit
  }

  /** Grouping, mut and commas leave no trace; a repeated element is copied. */
  function Tree(f: Form): Expr {
    match f
    case Atom(w) => if IsLiteral(w.kind) then Literal(w.kind, w.text) else Expr.Ident(w.text, [])
    case Path(names) => if names == [] then Expr.Ident("", []) else Expr.Ident(names[|names| - 1], names[..|names| - 1])
    case Group(x) => Tree(x)
    case Tuple(xs, _) => TupleLit(Trees(xs))
    case Array(xs, _) => ArrayLit(Trees(xs))
    case Repeat(x, n) =>
      if IsCount(Tree(n)) && DecimalValue(Tree(n).text).Some? then ArrayLit(seq(DecimalValue(Tree(n).text).value, _ => Tree(x)))
      else ArrayLit([Tree(x)])
    case Struct(names, fields) =>
      if names == [] then StructLit("", [], FieldTrees(fields))
      else StructLit(names[|names| - 1], names[..|names| - 1], FieldTrees(fields))
    case Choice(c, t, e, _) => IfExpr(Tree(c), Tree(t), Tree(e))
    case Dotted(b, name) => Field(Tree(b), name)
    case Method(b, name, args, _) => Call(Field(Tree(b), name), ArgTrees(args))
    case Applied(b, args, _) => Call(Tree(b), ArgTrees(args))
    case Indexed(b, i) => Index(Tree(b), Tree(i))
    case Cut(b, lo, hi) =>
      Slice(Tree(b), if lo.Some? then Some(Tree(lo.value)) else None, if hi.Some? then Some(Tree(hi.value)) else None)
    case Bits(b, lo, hi) => BitSlice(Tree(b), Tree(lo), Tree(hi))
    case Bit(b, i) => BitNotch(Tree(b), Tree(i))
    case Order(b) => BitStrand(Tree(b))
    case Place(b, digits) => TupleIndex(Tree(b), if DecimalValue(digits).Some? then DecimalValue(digits).value else 0)
    case Asked(b) => OptionalChain(Tree(b))
    case Forced(b) => ForceUnwrap(Tree(b))
    case Signed(op, _, x) => Unary(op, Tree(x))
    case Pair(l, op, r) => Binary(op, Tree(l), Tree(r))
  }

  function Trees(xs: seq<Form>): (es: seq<Expr>)
    ensures |es| == |xs|
  {
    if xs == [] then [] else [Tree(xs[0])] + Trees(xs[1..])
  }

  function ArgTrees(args: seq<ArgForm>): (r: seq<Arg>)
    ensures |r| == |args|
  {
    if args == [] then []
    else
      assert args decreases to args[0];
      [Arg(args[0].tag, Tree(args[0].value))] + ArgTrees(args[1..])
  }

  function FieldTrees(fields: seq<FieldForm>): (r: seq<FieldInit>)
    ensures |r| == |fields|
  {
    if fields == [] then []
    else
      assert fields decreases to fields[0];
      [FieldInit(fields[0].name, Tree(fields[0].value))] + FieldTrees(fields[1..])
  }

  // ---- where forms stand ------------------------------------------------------------------------

  /** The tokens from p up to q are these. */
  ghost predicate Fit(ws: seq<Word>, p: nat, ts: seq<Tok>, q: nat) {
    Ended(ws) && q == p + |ts| < |ws| && forall k :: 0 <= k < |ts| ==> Fits(ws[p + k], ts[k])
  }

  lemma Split(ws: seq<Word>, p: nat, a: seq<Tok>, b: seq<Tok>, q: nat)
    requires Fit(ws, p, a + b, q)
    ensures Fit(ws, p, a, p + |a|) && Fit(ws, p + |a|, b, q)
  {
    var n := p + |a|;
    forall k | 0 <= k < |a| ensures Fits(ws[p + k], a[k]) {
      assert (a + b)[k] == a[k];
    }
    forall k | 0 <= k < |b| ensures Fits(ws[n + k], b[k]) {
      assert (a + b)[|a| + k] == b[k] && ws[p + (|a| + k)] == ws[n + k];
    }
  }

  lemma Joined(ws: seq<Word>, p: nat, a: seq<Tok>, n: nat, b: seq<Tok>, q: nat)
    requires Fit(ws, p, a, n) && Fit(ws, n, b, q)
    ensures Fit(ws, p, a + b, q)
  {
    forall k | 0 <= k < |a + b| ensures Fits(ws[p + k], (a + b)[k]) {
      if k >= |a| {
        assert Fits(ws[n + (k - |a|)], b[k - |a|]);
      }
    }
  }

  lemma First(ws: seq<Word>, p: nat, t: Tok, b: seq<Tok>, q: nat)
    requires Fit(ws, p, [t] + b, q)
    ensures p + 1 <= q < |ws| && Ended(ws) && Fits(ws[p], t) && Fit(ws, p + 1, b, q)
  {
    Split(ws, p, [t], b, q);
    assert Fits(ws[p + 0], [t][0]);
  }

  lemma Only(ws: seq<Word>, p: nat, t: Tok, q: nat)
    requires Fit(ws, p, [t], q)
    ensures p + 1 == q < |ws| && Ended(ws) && Fits(ws[p], t)
  {
    assert Fits(ws[p + 0], [t][0]);
  }

  lemma FitOne(ws: seq<Word>, p: nat, t: Tok)
    requires Ended(ws) && p + 1 < |ws| && Fits(ws[p], t)
    ensures Fit(ws, p, [t], p + 1)
  {}

  lemma FitNone(ws: seq<Word>, p: nat)
    requires Ended(ws) && p < |ws|
    ensures Fit(ws, p, [], p)
  {}

  lemma FitInside(ws: seq<Word>, p: nat, ts: seq<Tok>, q: nat)
    requires Fit(ws, p, ts, q)
    ensures Ended(ws) && q == p + |ts| < |ws|
    ensures ts != [] ==> p < q && Fits(ws[p], ts[0])
  {
    if ts != [] {
      assert Fits(ws[p + 0], ts[0]);
    }
  }

  lemma FitSecond(ws: seq<Word>, p: nat, ts: seq<Tok>, q: nat)
    requires Fit(ws, p, ts, q) && |ts| > 1
    ensures p + 1 < q && Fits(ws[p + 1], ts[1])
  {}
}
