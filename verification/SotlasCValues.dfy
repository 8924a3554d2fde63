/** The C that is printed for an expression is an expression of C, with the value of the expression. */
module SotlasCValues {
  import opened Options
  import opened SotlasTokens
  import S = SotlasParsing
  import opened SotlasPrinting
  import opened SotlasCTrees
  import opened SotlasCMeaning
  import opened SotlasCText

  // ---- integer literals ------------------------------------------------------------------------

  predicate IsOctal(t: string) {
    |t| > 1 && t[0] == '0' && !IsPrefixed(t, 'x', 'X') && !IsPrefixed(t, 'b', 'B')
  }

  lemma {:induction false} OctalIsLess(t: string)
    requires ValueIn(t, 10).Some?
    ensures ValueIn(t, 8).None? ==> ValueIn(t, 10).value >= 8
    ensures ValueIn(t, 8).Some? ==> ValueIn(t, 8).value <= ValueIn(t, 10).value
    ensures ValueIn(t, 8).Some? && ValueIn(t, 10).value >= 8 ==> ValueIn(t, 8).value < ValueIn(t, 10).value
    ensures ValueIn(t, 10).value < 8 ==> ValueIn(t, 8) == ValueIn(t, 10)
    decreases |t|
  {
    if |t| > 1 {
      OctalIsLess(t[..|t| - 1]);
    }
  }

  /** A literal of digits keeps its value in C unless it has a leading zero and is 8 or more. */
  lemma LiteralKeepsValue(t: string)
    requires IntegerValue(t).Some?
    ensures CNumber(t) == IntegerValue(t) <==> !IsOctal(t) || IntegerValue(t).value < 8
  {
    assert ValueIn("1ULL", 10).None?;
    if IsOctal(t) {
      OctalIsLess(t);
    }
  }

  /** 010 is ten, and eight in C. */
  lemma OctalMatters()
    ensures IntegerValue("010") == Some(10) && CNumber("010") == Some(8)
  {
    var t := "010";
    assert t[..2] == "01" && "01"[..1] == "0";
    assert ValueIn("0", 10) == Some(0) && ValueIn("0", 8) == Some(0);
    assert ValueIn("01", 10) == Some(1) && ValueIn("01", 8) == Some(1);
    assert Digit(t[2]) == 0 && Digit("01"[1]) == 1;
  }

  lemma SmallNumbers()
    ensures CNumber("0") == Some(0) && CNumber("1") == Some(1) && CNumber("1ULL") == Some(1)
  {}

  // ---- string and character literals --------------------------------------------------------------

  /** No character that ends a literal or means something else in it. */
  predicate IsPlain(quote: char, text: string) {
    forall c <- text :: c != quote && c != '\\' && c != '\n'
  }

  lemma {:induction false} ContentsAreShorter(quote: char, text: string)
    ensures Contents(quote, text).Some? ==> |Contents(quote, text).value| <= |text|
    decreases |text|
  {
    if text != "" {
      ContentsAreShorter(quote, text[1..]);
      if |text| > 1 {
        ContentsAreShorter(quote, text[2..]);
      }
    }
  }

  /** A text between quotes, as it is printed, stands for itself in C exactly if it is plain. */
  lemma {:induction false} TextKeepsContents(quote: char, text: string)
    ensures Contents(quote, text) == Some(text) <==> IsPlain(quote, text)
    decreases |text|
  {
    if text != "" {
      TextKeepsContents(quote, text[1..]);
      assert text == [text[0]] + text[1..];
      assert text[0] in text && forall c :: c in text <==> c == text[0] || c in text[1..];
      if text[0] == '\\' {
        if |text| > 1 {
          ContentsAreShorter(quote, text[2..]);
        }
      } else if Contents(quote, text[1..]).Some? {
        assert ([text[0]] + Contents(quote, text[1..]).value)[1..] == Contents(quote, text[1..]).value;
      }
    }
  }

  // ---- where the text is C -----------------------------------------------------------------------

  predicate LiteralIsC(k: Kind, t: string) {
    && (k.IntLit? ==> IntegerValue(t).Some? && (IsOctal(t) ==> IntegerValue(t).value < 8))
    && (k.StrLit? ==> IsPlain('\"', t)) && (k.CharLit? ==> IsPlain('\'', t))
  }

  /** Without the operator ?? and optional chains, with tuples and arrays as initializers only. */
  predicate IsOperand(e: S.Expr)
    decreases e, 0
  {
    match e
    case Literal(k, t) => LiteralIsC(k, t)
    case Ident(_, _) => true
    case Binary(op, l, r) => IsCBinaryOp(op) && IsOperand(l) && IsOperand(r)
    case Unary(op, x) => (op.KwAwait? || IsCUnaryOp(op)) && IsOperand(x)
    case Call(f, args) => IsOperand(f) && forall i :: 0 <= i < |args| ==> IsOperand(args[i].value)
    case Index(b, i) => IsOperand(b) && IsOperand(i)
    case Field(b, _) => IsOperand(b)
    case BitSlice(b, lo, hi) => IsOperand(b) && IsOperand(lo) && IsOperand(hi)
    case BitNotch(b, bit) => IsOperand(b) && IsOperand(bit)
    case BitStrand(b) => IsOperand(b)
    case TupleIndex(b, _) => IsOperand(b)
    case Slice(b, from, to) => IsOperand(b) && (from.Some? ==> IsOperand(from.value)) && (to.Some? ==> IsOperand(to.value))
    case OptionalChain(_) => false
    case ForceUnwrap(x) => IsOperand(x)
    case StructLit(_, _, fields) => forall i :: 0 <= i < |fields| ==> IsWhole(fields[i].value)
    case TupleLit(es) => es == []
    case ArrayLit(_) => false
    case IfExpr(c, t, f) => IsOperand(c) && IsOperand(t) && IsOperand(f)
  }

  /** What may stand in an initializer, and alone. */
  predicate IsWhole(e: S.Expr)
    decreases e, 1
  {
    || IsOperand(e)
    || (e.TupleLit? && forall i :: 0 <= i < |e.elements| ==> IsWhole(e.elements[i]))
    || (e.ArrayLit? && forall i :: 0 <= i < |e.elements| ==> IsWhole(e.elements[i]))
  }

  lemma OperatorsAreC(op: Kind)
    ensures IsCBinaryOp(op) ==> 0 < Precedence(BinaryOp(op)) <= 13
    ensures IsCUnaryOp(op) ==> var u := UnaryOp(op); u.Bang? || u.Minus? || u.Flip? || u.Times? || u.BitAnd?
  {}

  /** A tree that may stand anywhere. */
  predicate IsPrimary(x: C) {
    IsC(x) && Level(x) == 15
  }

  predicate IsAt(x: C, level: nat) {
    IsC(x) && Level(x) == level
  }

  lemma ParenIsC(x: C)
    requires IsC(x) && Level(x) >= 3
    ensures IsPrimary(Paren(x))
  {}

  lemma BinIsC(l: C, op: COp, wide: bool, r: C)
    requires IsC(l) && IsC(r) && 0 < Precedence(op) <= Level(l) && Precedence(op) < Level(r)
    ensures IsAt(Bin(l, op, wide, r), Precedence(op))
  {}

  lemma NumbersAreC()
    ensures IsPrimary(Number("0")) && IsPrimary(Number("1")) && IsPrimary(Number("1ULL"))
  {
    SmallNumbers();
  }

  lemma ShiftedIsC(b: C, n: C)
    requires IsPrimary(b) && IsPrimary(n)
    ensures IsPrimary(Paren(Bin(Paren(b), ShiftRight, true, Paren(n))))
  {
    hide IsC;
    ParenIsC(b);
    ParenIsC(n);
    BinIsC(Paren(b), ShiftRight, true, Paren(n));
    ParenIsC(Bin(Paren(b), ShiftRight, true, Paren(n)));
  }

  lemma SlitIsC(b: C, lo: C, hi: C)
    requires IsPrimary(b) && IsPrimary(lo) && IsPrimary(hi)
    ensures IsPrimary(SlitTree(b, lo, hi))
  {
    hide IsC;
    NumbersAreC();
    ShiftedIsC(b, lo);
    ParenIsC(lo);
    ParenIsC(hi);
    var diff := Bin(Paren(hi), COp.Minus, false, Paren(lo));
    BinIsC(Paren(hi), COp.Minus, false, Paren(lo));
    BinIsC(diff, COp.Plus, false, Number("1"));
    ParenIsC(Width(lo, hi));
    var one := Bin(Number("1ULL"), ShiftLeft, true, Paren(Width(lo, hi)));
    BinIsC(Number("1ULL"), ShiftLeft, true, Paren(Width(lo, hi)));
    ParenIsC(one);
    var mask := Bin(Paren(one), COp.Minus, true, Number("1"));
    BinIsC(Paren(one), COp.Minus, true, Number("1"));
    ParenIsC(mask);
    var shifted := Paren(Bin(Paren(b), ShiftRight, true, Paren(lo)));
    BinIsC(shifted, BitAnd, true, Paren(mask));
    ParenIsC(Bin(shifted, BitAnd, true, Paren(mask)));
  }

  lemma NotchIsC(b: C, bit: C)
    requires IsPrimary(b) && IsPrimary(bit)
    ensures IsPrimary(NotchTree(b, bit))
  {
    hide IsC;
    NumbersAreC();
    ShiftedIsC(b, bit);
    var shifted := Paren(Bin(Paren(b), ShiftRight, true, Paren(bit)));
    BinIsC(shifted, BitAnd, true, Number("1ULL"));
    ParenIsC(Bin(shifted, BitAnd, true, Number("1ULL")));
  }

  lemma CountIsC(b: C)
    requires IsPrimary(b)
    ensures IsPrimary(CountTree(b))
  {
    hide IsC;
    ParenIsC(b);
    FrontIsC(Paren(b));
    SizeIsC(b);
    SizeIsC(Pre(Times, Paren(b)));
    var count := Bin(SizeOf(b), Over, false, SizeOf(Pre(Times, Paren(b))));
    assert Level(SizeOf(b)) == Level(SizeOf(Pre(Times, Paren(b)))) == 14;
    BinIsC(SizeOf(b), Over, false, SizeOf(Pre(Times, Paren(b))));
    ParenIsC(count);
  }

  lemma FrontIsC(x: C)
    requires IsPrimary(x)
    ensures IsAt(Pre(Times, x), 14) && IsAt(Cast("size_t", x), 14)
  {}

  lemma SizeIsC(x: C)
    requires IsC(x) && Level(x) >= 3
    ensures IsAt(SizeOf(x), 14)
  {
    hide CNumber, Contents, Precedence;
  }

  lemma LetIsC(kind: string, name: string, init: C, rest: C)
    requires IsInitializer(init) && IsC(rest) && (rest.Let? || Level(rest) >= 3)
    ensures IsC(Let(kind, name, init, rest)) && IsPrimary(Block(Let(kind, name, init, rest)))
  {}

  lemma PartsAreC(lo: C, hi: C)
    requires IsPrimary(lo) && IsPrimary(hi)
    ensures IsInitializer(Tagged(["data", "len"], ViewParts(lo, hi)))
  {
    hide IsC;
    ParenIsC(lo);
    ParenIsC(hi);
    NamesAreC("_b");
    BinIsC(Name("_b"), COp.Plus, true, Paren(lo));
    BinIsC(Paren(hi), COp.Minus, true, Paren(lo));
    var diff := Paren(Bin(Paren(hi), COp.Minus, true, Paren(lo)));
    ParenIsC(Bin(Paren(hi), COp.Minus, true, Paren(lo)));
    FrontIsC(diff);
    var parts := ViewParts(lo, hi);
    assert IsInitializer(parts[0]) && IsInitializer(parts[1]);
    TagsAreC(["data", "len"], parts);
  }

  lemma TagsAreC(tags: seq<string>, xs: seq<C>)
    requires |tags| == |xs| && forall i :: 0 <= i < |xs| ==> IsInitializer(xs[i])
    ensures IsInitializer(Tagged(tags, xs)) && IsInitializer(Braces(xs))
    ensures forall kind :: IsPrimary(Compound(kind, Tagged(tags, xs)))
  {}

  lemma AppIsC(f: C, xs: seq<C>)
    requires IsPrimary(f) && forall i :: 0 <= i < |xs| ==> IsC(xs[i]) && Level(xs[i]) >= 3
    ensures IsPrimary(App(f, xs))
  {}

  lemma SliceIsC(b: C, lo: C, hi: C)
    requires IsPrimary(b) && IsPrimary(lo) && IsPrimary(hi)
    ensures IsPrimary(SliceTree(b, lo, hi))
  {
    hide ViewParts, CText;
    PartsAreC(lo, hi);
    var tags := Tagged(["data", "len"], ViewParts(lo, hi));
    ParenIsC(b);
    assert IsPrimary(Name("_s"));
    hide IsC;
    LetIsC(VIEW, "_s", tags, Name("_s"));
    LetIsC("__typeof__(" + CText(b) + ")", "_b", Paren(b), ViewLet(lo, hi));
  }

  lemma ChoiceIsC(c: C, t: C, f: C)
    requires IsPrimary(c) && IsPrimary(t) && IsPrimary(f)
    ensures IsPrimary(Paren(Cond(Paren(c), Paren(t), Paren(f))))
  {
    ParenIsC(c);
    ParenIsC(t);
    ParenIsC(f);
    assert IsC(Cond(Paren(c), Paren(t), Paren(f)));
  }

  lemma LiteralTreeIsC(k: Kind, t: string)
    requires LiteralIsC(k, t)
    ensures IsPrimary(LiteralTree(k, t))
  {
    NumbersAreC();
    if k.IntLit? {
      LiteralKeepsValue(t);
    } else if k.StrLit? {
      TextKeepsContents('\"', t);
    } else if k.CharLit? {
      TextKeepsContents('\'', t);
    } else if k.KwNil? {
      var x := Cast("void*", Number("0"));
      hide CNumber;
      assert IsC(x) && Level(x) == 14;
    }
    hide CNumber, IntegerValue, IsOctal, ValueIn;
  }

  lemma SuffixIsC(b: C, i: C, field: string)
    requires IsPrimary(b)
    ensures IsPrimary(Part(b, field)) && (IsPrimary(i) ==> IsPrimary(Element(b, i)))
  {}

  lemma PrefixIsC(op: COp, note: string, x: C)
    requires IsPrimary(x)
    ensures IsPrimary(Noted(note, x))
    ensures op.Bang? || op.Minus? || op.Flip? || op.Times? || op.BitAnd? ==> IsPrimary(Paren(Pre(op, x)))
  {
    assert op.Bang? || op.Minus? || op.Flip? || op.Times? || op.BitAnd? ==> IsC(Pre(op, x));
  }

  lemma NamesAreC(name: string)
    ensures IsPrimary(Name(name))
  {}

  lemma PrimaryInitializes(x: C)
    requires IsPrimary(x)
    ensures IsInitializer(x)
  {}

  /** The trees keep the rules of C on what may stand where. */
  lemma {:induction false} TreesAreC(e: S.Expr)
    requires IsWhole(e)
    ensures IsInitializer(AsC(e)) && (IsOperand(e) ==> IsPrimary(AsC(e)))
    decreases e, 1
  {
    hide SlitTree, NotchTree, SliceTree, IsC, LiteralTree, LiteralIsC, BinaryOp, UnaryOp, Print;
    match e
    case Literal(k, t) =>
      LiteralTreeIsC(k, t);
      PrimaryInitializes(AsC(e));
    case Ident(name, path) => NamesAreC(JoinPath(path, name));
    case Binary(op, l, r) =>
      TreesAreC(l);
      TreesAreC(r);
      OperatorsAreC(op);
      BinIsC(AsC(l), BinaryOp(op), true, AsC(r));
      ParenIsC(Bin(AsC(l), BinaryOp(op), true, AsC(r)));
    case Unary(op, x) =>
      TreesAreC(x);
      OperatorsAreC(op);
      PrefixIsC(if IsCUnaryOp(op) then UnaryOp(op) else Bang, " await ", AsC(x));
    case Index(b, i) =>
      TreesAreC(b);
      TreesAreC(i);
      SuffixIsC(AsC(b), AsC(i), "");
    case Field(b, field) =>
      TreesAreC(b);
      SuffixIsC(AsC(b), AsC(b), field);
    case TupleIndex(b, n) =>
      TreesAreC(b);
      SuffixIsC(AsC(b), AsC(b), "_" + PrintNat(n));
    case ForceUnwrap(x) => TreesAreC(x);
    case BitSlice(_, _, _) => BitsAreC(e);
    case BitNotch(_, _) => BitsAreC(e);
    case BitStrand(_) => BitsAreC(e);
    case IfExpr(_, _, _) => BitsAreC(e);
    case Slice(_, _, _) => BitsAreC(e);
    case Call(_, _) => ListsAreC(e);
    case StructLit(_, _, _) => ListsAreC(e);
    case TupleLit(_) => ListsAreC(e);
    case ArrayLit(_) => ListsAreC(e);
  }

  lemma {:induction false} BitsAreC(e: S.Expr)
    requires IsOperand(e) && (e.BitSlice? || e.BitNotch? || e.BitStrand? || e.IfExpr? || e.Slice?)
    ensures IsPrimary(AsC(e))
    decreases e, 0
  {
    hide SlitTree, NotchTree, SliceTree, CountTree, IsC;
    match e
    case BitSlice(b, lo, hi) =>
      TreesAreC(b);
      TreesAreC(lo);
      TreesAreC(hi);
      SlitIsC(AsC(b), AsC(lo), AsC(hi));
    case BitNotch(b, bit) =>
      TreesAreC(b);
      TreesAreC(bit);
      NotchIsC(AsC(b), AsC(bit));
    case BitStrand(b) =>
      TreesAreC(b);
      NamesAreC("__builtin_bswap64");
      AppIsC(Name("__builtin_bswap64"), [AsC(b)]);
    case IfExpr(c, t, f) =>
      TreesAreC(c);
      TreesAreC(t);
      TreesAreC(f);
      ChoiceIsC(AsC(c), AsC(t), AsC(f));
    case Slice(b, from, to) =>
      TreesAreC(b);
      CountIsC(AsC(b));
      NumbersAreC();
      if from.Some? {
        TreesAreC(from.value);
      }
      if to.Some? {
        TreesAreC(to.value);
      }
      var lo, hi := if from.None? then Number("0") else AsC(from.value), if to.None? then CountTree(AsC(b)) else AsC(to.value);
      SliceIsC(AsC(b), lo, hi);
  }

  lemma {:induction false} ListsAreC(e: S.Expr)
    requires IsWhole(e) && (e.Call? || e.StructLit? || e.TupleLit? || e.ArrayLit?)
    ensures IsInitializer(AsC(e)) && (IsOperand(e) ==> IsPrimary(AsC(e)))
    decreases e, 0
  {
    hide IsC, Places, Tags;
    match e
    case Call(f, args) =>
      TreesAreC(f);
      var xs := seq(|args|, i requires 0 <= i < |args| => AsC(args[i].value));
      forall i | 0 <= i < |xs| ensures IsC(xs[i]) && Level(xs[i]) >= 3 {
        TreesAreC(args[i].value);
      }
      AppIsC(AsC(f), xs);
    case StructLit(name, _, fields) =>
      var xs := seq(|fields|, i requires 0 <= i < |fields| => AsC(fields[i].value));
      forall i | 0 <= i < |xs| ensures IsInitializer(xs[i]) {
        TreesAreC(fields[i].value);
      }
      TagsAreC(Tags(fields), xs);
      assert IsPrimary(Compound(name, Tagged(Tags(fields), xs)));
    case TupleLit(es) =>
      NumbersAreC();
      var xs := seq(|es|, i requires 0 <= i < |es| => AsC(es[i]));
      forall i | 0 <= i < |xs| ensures IsInitializer(xs[i]) {
        TreesAreC(es[i]);
      }
      TagsAreC(Places(|es|), xs);
    case ArrayLit(es) =>
      var xs := seq(|es|, i requires 0 <= i < |es| => AsC(es[i]));
      forall i | 0 <= i < |xs| ensures IsInitializer(xs[i]) {
        TreesAreC(es[i]);
      }
      TagsAreC(seq(|xs|, i => ""), xs);
  }
}
