/** The trees that the expression parser can yield, and that each of them can be written. */
module SotlasGrammar {
  import opened Options
  import opened SotlasTokens
  import opened SotlasParsing
  import opened SotlasPrinting
  import opened SotlasForms
  import opened SotlasFormYields

  // ---- the trees of the grammar ---------------------------------------------------------

  predicate InGrammar(e: Expr) {
    match e
    case Literal(k, _) => IsLiteral(k)
    case Ident(_, _) => true
    case Binary(op, l, r) => IsBinaryOp(op) && InGrammar(l) && InGrammar(r)
    case Unary(op, x) => IsUnaryOp(op) && InGrammar(x)
    case Call(f, args) => InGrammar(f) && ArgsInGrammar(args)
    case Index(b, i) => InGrammar(b) && InGrammar(i)
    case Field(b, _) => InGrammar(b)
    case BitSlice(b, lo, hi) => InGrammar(b) && InGrammar(lo) && InGrammar(hi)
    case BitNotch(b, i) => InGrammar(b) && InGrammar(i)
    case BitStrand(b) => InGrammar(b)
    case TupleIndex(b, _) => InGrammar(b)
    case Slice(b, lo, hi) => InGrammar(b) && (lo.Some? ==> InGrammar(lo.value)) && (hi.Some? ==> InGrammar(hi.value))
    case OptionalChain(x) => InGrammar(x)
    case ForceUnwrap(x) => InGrammar(x)
    case StructLit(_, _, fields) => FieldsInGrammar(fields)
    case TupleLit(es) => AllInGrammar(es)
    case ArrayLit(es) => AllInGrammar(es)
    case IfExpr(c, t, f) => InGrammar(c) && InGrammar(t) && InGrammar(f)
  }

  predicate ArgsInGrammar(args: seq<Arg>) {
    args == [] || (assert args decreases to args[0]; InGrammar(args[0].value) && ArgsInGrammar(args[1..]))
  }

  predicate FieldsInGrammar(fields: seq<FieldInit>) {
    fields == [] || (assert fields decreases to fields[0]; InGrammar(fields[0].value) && FieldsInGrammar(fields[1..]))
  }

  predicate AllInGrammar(es: seq<Expr>) {
    es == [] || (InGrammar(es[0]) && AllInGrammar(es[1..]))
  }

  // ---- one way to write each -----------------------------------------------------------------

  /** Every operand in parentheses. */
  function FormOf(e: Expr): Form {
    match e
    case Literal(k, text) => Atom(Word(k, text))
    case Ident(name, path) => Path(path + [name])
    case Binary(op, l, r) => Pair(Group(FormOf(l)), op, Group(FormOf(r)))
    case Unary(op, x) => Signed(op, false, Group(FormOf(x)))
    case Call(f, args) => Applied(Group(FormOf(f)), ArgFormsOf(args), false)
    case Index(b, i) => Indexed(Group(FormOf(b)), FormOf(i))
    case Field(b, name) => Dotted(Group(FormOf(b)), name)
    case BitSlice(b, lo, hi) => Bits(Group(FormOf(b)), FormOf(lo), FormOf(hi))
    case BitNotch(b, i) => Bit(Group(FormOf(b)), FormOf(i))
    case BitStrand(b) => Order(Group(FormOf(b)))
    case TupleIndex(b, n) => Place(Group(FormOf(b)), PrintNat(n))
    case Slice(b, lo, hi) =>
      Cut(Group(FormOf(b)), if lo.Some? then Some(FormOf(lo.value)) else None, if hi.Some? then Some(FormOf(hi.value)) else None)
    case OptionalChain(x) => Asked(Group(FormOf(x)))
    case ForceUnwrap(x) => Forced(Group(FormOf(x)))
    case StructLit(name, path, fields) => Struct(path + [name], FieldFormsOf(fields))
    case TupleLit(es) => Tuple(FormsOf(es), |es| == 1)
    case ArrayLit(es) => Array(FormsOf(es), false)
    case IfExpr(c, t, f) => Choice(Group(FormOf(c)), FormOf(t), FormOf(f), false)
  }

  function FormsOf(es: seq<Expr>): (xs: seq<Form>)
    ensures |xs| == |es|
  {
    if es == [] then [] else [FormOf(es[0])] + FormsOf(es[1..])
  }

  function ArgFormsOf(args: seq<Arg>): (r: seq<ArgForm>)
    ensures |r| == |args|
  {
    if args == [] then []
    else
      assert args decreases to args[0];
      [ArgForm(args[0].tag, FormOf(args[0].value))] + ArgFormsOf(args[1..])
  }

  function FieldFormsOf(fields: seq<FieldInit>): (r: seq<FieldForm>)
    ensures |r| == |fields|
  {
    if fields == [] then []
    else
      assert fields decreases to fields[0];
      [FieldForm(fields[0].name, FormOf(fields[0].value), true)] + FieldFormsOf(fields[1..])
  }

  lemma {:induction false} NatReads(n: nat)
    ensures DecimalValue(PrintNat(n)) == Some(n)
    decreases n
  {
    if n < 10 {
      DigitReads("", n);
    } else {
      NatReads(n / 10);
      DigitReads(PrintNat(n / 10), n % 10);
    }
  }

  lemma {:induction false} DigitReads(t: string, d: nat)
    requires d < 10
    ensures var c := ('0' as int + d) as char;
            DecimalValue(t + [c]) == if t == "" then Some(d) else if DecimalValue(t).None? then None else Some(10 * DecimalValue(t).value + d)
  {
    var c := ('0' as int + d) as char;
    assert (t + [c])[..|t + [c]| - 1] == t;
    assert IsDigit(c) && c as nat - '0' as nat == d;
  }

  lemma {:induction false} FormOfIsForm(e: Expr)
    requires InGrammar(e)
    ensures IsForm(FormOf(e)) && Tree(FormOf(e)) == e
    decreases e, 1
  {
    hide InGrammar, IsForm, FormOf, Tree;
    if e.Binary? || e.Unary? {
      OperatorForm(e);
    } else if e.IfExpr? {
      ConditionForm(e);
    } else if e.BitSlice? {
      GrammarBits(e);
    } else if e.Call? || e.Index? || e.BitNotch? {
      OperandsForm(e);
    } else if e.Field? || e.BitStrand? || e.OptionalChain? || e.ForceUnwrap? {
      SuffixedForm(e);
    } else if e.TupleIndex? {
      PlaceForm(e);
    } else if e.Slice? {
      SliceForm(e);
    } else {
      PrimaryFormOf(e);
    }
  }

  lemma {:induction false} OperatorForm(e: Expr)
    requires InGrammar(e) && (e.Binary? || e.Unary?)
    ensures IsForm(FormOf(e)) && Tree(FormOf(e)) == e
    decreases e, 0
  {
    hide IsLiteral, IsBinaryOp, IsUnaryOp;
    match e
    case Binary(_, l, r) =>
      FormOfIsForm(l);
      FormOfIsForm(r);
    case Unary(_, x) => FormOfIsForm(x);
  }

  lemma {:induction false} ConditionForm(e: Expr)
    requires InGrammar(e) && e.IfExpr?
    ensures IsForm(FormOf(e)) && Tree(FormOf(e)) == e
    decreases e, 0
  {
    FormOfIsForm(e.condition);
    FormOfIsForm(e.thenExpr);
    FormOfIsForm(e.elseExpr);
  }

  lemma {:induction false} OperandsForm(e: Expr)
    requires InGrammar(e) && (e.Call? || e.Index? || e.BitNotch?)
    ensures IsForm(FormOf(e)) && Tree(FormOf(e)) == e
    decreases e, 0
  {
    hide ArgsInGrammar, AreArgForms, ArgTrees, ArgFormsOf;
    match e
    case Call(f, args) =>
      FormOfIsForm(f);
      ArgsAreForms(args);
    case Index(b, i) =>
      FormOfIsForm(b);
      FormOfIsForm(i);
    case BitNotch(b, i) =>
      FormOfIsForm(b);
      FormOfIsForm(i);
  }

  lemma {:induction false} GrammarBits(e: Expr)
    requires InGrammar(e) && e.BitSlice?
    ensures IsForm(FormOf(e)) && Tree(FormOf(e)) == e
    decreases e, 0
  {
    FormOfIsForm(e.base);
    FormOfIsForm(e.lo);
    FormOfIsForm(e.hi);
  }

  lemma {:induction false} SuffixedForm(e: Expr)
    requires InGrammar(e) && (e.Field? || e.BitStrand? || e.OptionalChain? || e.ForceUnwrap?)
    ensures IsForm(FormOf(e)) && Tree(FormOf(e)) == e
    decreases e, 0
  {
    match e
    case Field(b, _) => FormOfIsForm(b);
    case BitStrand(b) => FormOfIsForm(b);
    case OptionalChain(x) => FormOfIsForm(x);
    case ForceUnwrap(x) => FormOfIsForm(x);
  }

  lemma {:induction false} PlaceForm(e: Expr)
    requires InGrammar(e) && e.TupleIndex?
    ensures IsForm(FormOf(e)) && Tree(FormOf(e)) == e
    decreases e, 0
  {
    hide DecimalValue, PrintNat;
    FormOfIsForm(e.base);
    NatReads(e.position);
  }

  lemma {:induction false} PrimaryFormOf(e: Expr)
    requires InGrammar(e) && (e.Literal? || e.Ident? || e.StructLit? || e.TupleLit? || e.ArrayLit?)
    ensures IsForm(FormOf(e)) && Tree(FormOf(e)) == e
    decreases e, 0
  {
    hide IsLiteral, AllInGrammar, FieldsInGrammar, AreForms, Trees, FormsOf, AreFieldForms, FieldTrees, FieldFormsOf;
    match e
    case Literal(_, _) => LiteralForm(e);
    case Ident(name, path) => NamesOf(path, name);
    case StructLit(name, path, fields) =>
      NamesOf(path, name);
      FieldsAreForms(fields);
    case TupleLit(es) => AllAreForms(es);
    case ArrayLit(es) => AllAreForms(es);
  }

  lemma LiteralForm(e: Expr)
    requires e.Literal? && InGrammar(e)
    ensures IsForm(FormOf(e)) && Tree(FormOf(e)) == e
  {}

  lemma {:induction false} SliceForm(e: Expr)
    requires e.Slice? && InGrammar(e)
    ensures IsForm(FormOf(e)) && Tree(FormOf(e)) == e
    decreases e, 0
  {
    FormOfIsForm(e.base);
    if e.from.Some? {
      FormOfIsForm(e.from.value);
    }
    if e.to.Some? {
      FormOfIsForm(e.to.value);
    }
  }

  lemma NamesOf(path: seq<string>, name: string)
    ensures var names := path + [name]; names != [] && names[|names| - 1] == name && names[..|names| - 1] == path
  {}

  lemma {:induction false} AllAreForms(es: seq<Expr>)
    requires AllInGrammar(es)
    ensures AreForms(FormsOf(es)) && Trees(FormsOf(es)) == es
    decreases es
  {
    hide FormOf, InGrammar, IsForm, Tree;
    if es != [] {
      FormOfIsForm(es[0]);
      AllAreForms(es[1..]);
      assert FormsOf(es)[1..] == FormsOf(es[1..]);
    }
  }

  lemma {:induction false} ArgsAreForms(args: seq<Arg>)
    requires ArgsInGrammar(args)
    ensures AreArgForms(ArgFormsOf(args)) && ArgTrees(ArgFormsOf(args)) == args
    decreases args
  {
    hide FormOf, InGrammar, IsForm, Tree;
    if args != [] {
      assert args decreases to args[0];
      FormOfIsForm(args[0].value);
      ArgsAreForms(args[1..]);
      assert ArgFormsOf(args)[1..] == ArgFormsOf(args[1..]);
    }
  }

  lemma {:induction false} FieldsAreForms(fields: seq<FieldInit>)
    requires FieldsInGrammar(fields)
    ensures AreFieldForms(FieldFormsOf(fields)) && FieldTrees(FieldFormsOf(fields)) == fields
    decreases fields
  {
    hide FormOf, InGrammar, IsForm, Tree;
    if fields != [] {
      assert fields decreases to fields[0];
      FormOfIsForm(fields[0].value);
      FieldsAreForms(fields[1..]);
      assert FieldFormsOf(fields)[1..] == FieldFormsOf(fields[1..]);
    }
  }

  // ---- the tree of every form is of the grammar -----------------------------------------------

  lemma {:induction false} TreeInGrammar(f: Form)
    requires IsForm(f)
    ensures InGrammar(Tree(f))
    decreases f, 2
  {
    hide InGrammar, IsForm, Tree;
    if IsPrimary(f) {
      PrimaryInGrammar(f);
    } else if f.Cut? {
      CutInGrammar(f);
    } else {
      SuffixInGrammar(f);
    }
  }

  lemma {:induction false} PrimaryInGrammar(f: Form)
    requires IsPrimary(f) && IsForm(f)
    ensures InGrammar(Tree(f))
    decreases f, 1
  {
    hide AllInGrammar, FieldsInGrammar, AreForms, Trees, AreFieldForms, FieldTrees, DecimalValue;
    match f
    case Atom(_) =>
    case Path(_) =>
    case Group(x) => TreeInGrammar(x);
    case Tuple(xs, _) => TreesInGrammar(xs);
    case Array(xs, _) => TreesInGrammar(xs);
    case Repeat(x, n) => RepeatInGrammar(f);
    case Struct(_, fields) => FieldTreesInGrammar(fields);
    case Choice(c, t, e, _) =>
      TreeInGrammar(c);
      TreeInGrammar(t);
      TreeInGrammar(e);
  }

  lemma {:induction false} SuffixInGrammar(f: Form)
    requires !IsPrimary(f) && !f.Cut? && IsForm(f)
    ensures InGrammar(Tree(f))
    decreases f, 1
  {
    hide IsBinaryOp, IsUnaryOp, DecimalValue, ArgsInGrammar, AreArgForms, ArgTrees;
    match f
    case Dotted(b, _) => TreeInGrammar(b);
    case Method(b, _, args, _) =>
      TreeInGrammar(b);
      ArgTreesInGrammar(args);
    case Applied(b, args, _) =>
      TreeInGrammar(b);
      ArgTreesInGrammar(args);
    case Indexed(b, i) =>
      TreeInGrammar(b);
      TreeInGrammar(i);
    case Bits(b, lo, hi) =>
      TreeInGrammar(b);
      TreeInGrammar(lo);
      TreeInGrammar(hi);
    case Bit(b, i) =>
      TreeInGrammar(b);
      TreeInGrammar(i);
    case Order(b) => TreeInGrammar(b);
    case Place(b, _) => TreeInGrammar(b);
    case Asked(b) => TreeInGrammar(b);
    case Forced(b) => TreeInGrammar(b);
    case Signed(_, _, x) => TreeInGrammar(x);
    case Pair(l, _, r) =>
      TreeInGrammar(l);
      TreeInGrammar(r);
  }

  lemma {:induction false} CutInGrammar(f: Form)
    requires f.Cut? && IsForm(f)
    ensures InGrammar(Tree(f))
    decreases f, 0
  {
    TreeInGrammar(f.base);
    if f.from.Some? {
      TreeInGrammar(f.from.value);
    }
    if f.to.Some? {
      TreeInGrammar(f.to.value);
    }
  }

  lemma {:induction false} RepeatInGrammar(f: Form)
    requires f.Repeat? && IsForm(f)
    ensures InGrammar(Tree(f))
    decreases f, 0
  {
    hide DecimalValue;
    TreeInGrammar(f.item);
    AllSame(Tree(f).elements, Tree(f.item));
  }

  lemma {:induction false} AllSame(es: seq<Expr>, e: Expr)
    requires InGrammar(e) && forall x <- es :: x == e
    ensures AllInGrammar(es)
    decreases |es|
  {
    hide InGrammar;
    if es != [] {
      assert es[0] in es && forall x <- es[1..] :: x in es;
      AllSame(es[1..], e);
    }
  }

  lemma {:induction false} TreesInGrammar(xs: seq<Form>)
    requires AreForms(xs)
    ensures AllInGrammar(Trees(xs))
    decreases xs
  {
    hide InGrammar, IsForm, Tree;
    if xs != [] {
      TreeInGrammar(xs[0]);
      TreesInGrammar(xs[1..]);
      assert Trees(xs)[1..] == Trees(xs[1..]);
    }
  }

  lemma {:induction false} ArgTreesInGrammar(args: seq<ArgForm>)
    requires AreArgForms(args)
    ensures ArgsInGrammar(ArgTrees(args))
    decreases args
  {
    hide InGrammar, IsForm, Tree;
    if args != [] {
      assert args decreases to args[0];
      TreeInGrammar(args[0].value);
      ArgTreesInGrammar(args[1..]);
      assert ArgTrees(args)[1..] == ArgTrees(args[1..]);
    }
  }

  lemma {:induction false} FieldTreesInGrammar(fields: seq<FieldForm>)
    requires AreFieldForms(fields)
    ensures FieldsInGrammar(FieldTrees(fields))
    decreases fields
  {
    hide InGrammar, IsForm, Tree;
    if fields != [] {
      assert fields decreases to fields[0];
      TreeInGrammar(fields[0].value);
      FieldTreesInGrammar(fields[1..]);
      assert FieldTrees(fields)[1..] == FieldTrees(fields[1..]);
    }
  }

  // ---- exactly -----------------------------------------------------------------------------------

  /** Tokens of these kinds. */
  function Words(ts: seq<Tok>): (ws: seq<Word>)
    ensures |ws| == |ts| && forall k :: 0 <= k < |ts| ==> Fits(ws[k], ts[k])
  {
    seq(|ts|, k requires 0 <= k < |ts| => match ts[k] case Mark(kind) => Word(kind, "") case Exact(w) => w)
  }

  lemma WordsFit(ts: seq<Tok>)
    ensures Fit(Words(ts) + [Word(Eof, "")], 0, ts, |ts|)
  {
    var ws := Words(ts) + [Word(Eof, "")];
    assert forall k :: 0 <= k < |ts| ==> ws[0 + k] == Words(ts)[k];
  }

  /** The parser yields a tree for some token list if and only if it is of the grammar. */
  lemma GrammarIsWhatParses(e: Expr)
    ensures InGrammar(e) <==> exists ws :: Ended(ws) && ParseWhole(ws).Parsed? && ParseWhole(ws).value == e
  {
    hide ParseWhole, InGrammar, FormOf, IsForm, Tree, Spell, Fit;
    if InGrammar(e) {
      var f := FormOf(e);
      var ws := Words(Spell(f)) + [Word(Eof, "")];
      FormOfIsForm(e);
      WordsFit(Spell(f));
      ParserIsGrammar(ws, e, |Spell(f)|);
    }
    if ws :| Ended(ws) && ParseWhole(ws).Parsed? && ParseWhole(ws).value == e {
      ParserIsGrammar(ws, e, ParseWhole(ws).next);
      var f :| IsForm(f) && Tree(f) == e && Fit(ws, 0, Spell(f), ParseWhole(ws).next);
      TreeInGrammar(f);
    }
  }
}
