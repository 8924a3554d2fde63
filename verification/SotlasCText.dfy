/** The text that is printed for an expression is the text of its C tree. */
module SotlasCText {
  import opened Options
  import opened SotlasTokens
  import S = SotlasParsing
  import opened SotlasPrinting
  import opened SotlasCTrees
  import opened SotlasCMeaning

  lemma {:induction false} JoinArgs(args: seq<S.Arg>, ts: seq<string>)
    requires |ts| == |args| && forall i :: 0 <= i < |args| ==> ts[i] == Print(args[i].value)
    ensures Join(ts) == PrintArgs(args)
    decreases |args|
  {
    hide Print;
    if |args| > 1 {
      JoinMoreArgs(args[1..], ts[1..]);
    }
  }

  lemma {:induction false} JoinMoreArgs(args: seq<S.Arg>, ts: seq<string>)
    requires |args| > 0 && |ts| == |args| && forall i :: 0 <= i < |args| ==> ts[i] == Print(args[i].value)
    ensures ", " + Join(ts) == PrintMoreArgs(args)
    decreases |args|
  {
    hide Print;
    if |args| > 1 {
      JoinMoreArgs(args[1..], ts[1..]);
    }
    assert PrintMoreArgs(args) == "," + (" " + (ts[0] + PrintMoreArgs(args[1..])));
    assert ", " == "," + " ";
    if |args| == 1 {
      assert PrintMoreArgs(args[1..]) == "";
    }
  }

  lemma {:induction false} JoinFields(fields: seq<S.FieldInit>, ts: seq<string>)
    requires |ts| == |fields| && forall i :: 0 <= i < |fields| ==> ts[i] == Print(fields[i].value)
    ensures Join(Designated(Tags(fields), ts)) == PrintFields(fields)
    decreases |fields|
  {
    hide Print;
    if fields != [] {
      var d := Designated(Tags(fields), ts);
      assert d[0] == "." + fields[0].name + " = " + ts[0];
      assert d[1..] == Designated(Tags(fields[1..]), ts[1..]);
      JoinFields(fields[1..], ts[1..]);
    }
  }

  lemma {:induction false} JoinTuple(es: seq<S.Expr>, ts: seq<string>, tags: seq<string>, i: nat)
    requires |tags| == |ts| == |es| && forall k :: 0 <= k < |es| ==> ts[k] == Print(es[k]) && tags[k] == "_" + PrintNat(i + k)
    ensures Join(Designated(tags, ts)) == PrintTuple(es, i)
    decreases |es|
  {
    hide Print, PrintNat;
    if es != [] {
      var d := Designated(tags, ts);
      assert d[0] == "." + tags[0] + " = " + ts[0];
      assert "." + ("_" + PrintNat(i)) == "._" + PrintNat(i);
      assert d[1..] == Designated(tags[1..], ts[1..]);
      forall k | 0 <= k < |es| - 1 ensures tags[1..][k] == "_" + PrintNat(i + 1 + k) {
        assert tags[1..][k] == tags[k + 1];
      }
      JoinTuple(es[1..], ts[1..], tags[1..], i + 1);
    }
  }

  lemma {:induction false} JoinElements(es: seq<S.Expr>, ts: seq<string>)
    requires |ts| == |es| && forall i :: 0 <= i < |es| ==> ts[i] == Print(es[i])
    ensures Join(ts) == PrintElements(es)
    decreases |es|
  {
    hide Print;
    if |es| > 1 {
      JoinElements(es[1..], ts[1..]);
    }
  }

  /** The tree spells the text that is printed, character by character. */
  lemma {:induction false} PrintIs(e: S.Expr)
    ensures CText(AsC(e)) == Print(e)
    decreases e, 1
  {
    hide SlitTree, NotchTree, SliceTree;
    match e
    case Literal(k, t) => LiteralPrints(k, t);
    case Ident(_, _) =>
    case Binary(_, _, _) => OperationPrintIs(e);
    case Unary(_, _) => OperationPrintIs(e);
    case Index(b, i) =>
      PrintIs(b);
      PrintIs(i);
    case Field(b, _) => PrintIs(b);
    case TupleIndex(b, n) =>
      PrintIs(b);
      assert "." + ("_" + PrintNat(n)) == "._" + PrintNat(n);
    case OptionalChain(_) =>
    case ForceUnwrap(x) => PrintIs(x);
    case BitSlice(_, _, _) => BitsPrintIs(e);
    case BitNotch(_, _) => BitsPrintIs(e);
    case BitStrand(_) => BitsPrintIs(e);
    case IfExpr(_, _, _) => BitsPrintIs(e);
    case Call(_, _) => LongPrintIs(e);
    case Slice(_, _, _) => LongPrintIs(e);
    case StructLit(_, _, _) => LongPrintIs(e);
    case TupleLit(_) => LongPrintIs(e);
    case ArrayLit(_) => LongPrintIs(e);
  }

  lemma {:induction false} OperationPrintIs(e: S.Expr)
    requires e.Binary? || e.Unary?
    ensures CText(AsC(e)) == Print(e)
    decreases e, 0
  {
    match e
    case Binary(op, l, r) =>
      PrintIs(l);
      PrintIs(r);
      if IsCBinaryOp(op) {
        BinarySpelled(op);
      }
    case Unary(op, x) =>
      PrintIs(x);
      if IsCUnaryOp(op) {
        UnarySpelled(op);
      }
      assert "/*" + " await " + "*/ " == "/* await */ ";
  }

  lemma {:induction false} BitsPrintIs(e: S.Expr)
    requires e.BitSlice? || e.BitNotch? || e.BitStrand? || e.IfExpr?
    ensures CText(AsC(e)) == Print(e)
    decreases e, 0
  {
    hide SlitTree, NotchTree, CText;
    match e
    case BitSlice(b, lo, hi) =>
      PrintIs(b);
      PrintIs(lo);
      PrintIs(hi);
      SlitPrints(AsC(b), AsC(lo), AsC(hi));
    case BitNotch(b, bit) =>
      PrintIs(b);
      PrintIs(bit);
      NotchPrints(AsC(b), AsC(bit));
    case BitStrand(b) =>
      PrintIs(b);
      StrandPrints(AsC(b));
    case IfExpr(c, t, f) =>
      PrintIs(c);
      PrintIs(t);
      PrintIs(f);
      ChoicePrints(AsC(c), AsC(t), AsC(f));
  }

  lemma {:induction false} LongPrintIs(e: S.Expr)
    requires e.Call? || e.Slice? || e.StructLit? || e.TupleLit? || e.ArrayLit?
    ensures CText(AsC(e)) == Print(e)
    decreases e, 0
  {
    hide Print, AsC, CText;
    match e
    case Call(f, args) =>
      PrintIs(f);
      forall i | 0 <= i < |args| ensures CText(AsC(args[i].value)) == Print(args[i].value) {
        PrintIs(args[i].value);
      }
      CallPrints(f, args);
    case Slice(b, from, to) =>
      PrintIs(b);
      if from.Some? {
        PrintIs(from.value);
      }
      if to.Some? {
        PrintIs(to.value);
      }
      SlicePrints(e);
    case StructLit(_, _, fields) =>
      forall i | 0 <= i < |fields| ensures CText(AsC(fields[i].value)) == Print(fields[i].value) {
        PrintIs(fields[i].value);
      }
      StructPrints(e);
    case TupleLit(es) =>
      forall i | 0 <= i < |es| ensures CText(AsC(es[i])) == Print(es[i]) {
        PrintIs(es[i]);
      }
      TuplePrints(es);
    case ArrayLit(es) =>
      forall i | 0 <= i < |es| ensures CText(AsC(es[i])) == Print(es[i]) {
        PrintIs(es[i]);
      }
      ArrayPrints(es);
  }

  lemma LiteralPrints(k: Kind, t: string)
    ensures CText(LiteralTree(k, t)) == PrintLiteral(k, t)
  {
    assert CText(Paren(Cast("void*", Number("0")))) == "(" + (("(" + "void*" + ")" + "0") + ")");
    assert "(" + (("(" + "void*" + ")" + "0") + ")") == "((void*)0)";
  }

  lemma CallPrints(f: S.Expr, args: seq<S.Arg>)
    requires CText(AsC(f)) == Print(f) && forall i :: 0 <= i < |args| ==> CText(AsC(args[i].value)) == Print(args[i].value)
    ensures CText(AsC(S.Call(f, args))) == Print(S.Call(f, args))
  {
    var xs := seq(|args|, i requires 0 <= i < |args| => AsC(args[i].value));
    JoinArgs(args, Texts(xs));
  }

  lemma Grouped(a: string, b: string, c: string)
    ensures a + (b + c) == a + b + c
  {}

  /** Put in front of five texts joined from the left, and behind them. */
  lemma Around5(p: string, a: string, b: string, c: string, d: string, e: string, q: string)
    ensures p + (a + b + c + d + e) + q == (p + a) + b + c + d + (e + q)
  {
    Grouped(p, a + b + c + d, e);
    Grouped(p, a + b + c, d);
    Grouped(p, a + b, c);
    Grouped(p, a, b);
    Grouped((p + a) + b + c + d, e, q);
  }

  lemma Around7(p: string, a: string, b: string, c: string, d: string, e: string, f: string, g: string, q: string)
    ensures p + (a + b + c + d + e + f + g) + q == (p + a) + b + c + d + e + f + (g + q)
  {
    Around5(p, a, b, c, d, e, "");
    Grouped(p, a + b + c + d + e + f, g);
    Grouped(p, a + b + c + d + e, f);
    Grouped((p + a) + b + c + d + e + f, g, q);
    assert e + "" == e && p + (a + b + c + d + e) + "" == p + (a + b + c + d + e);
  }

  /** One text between two others. */
  lemma Around3(p: string, a: string, b: string, c: string, q: string)
    ensures p + (a + b + c) + q == (p + a) + b + (c + q)
  {
    Grouped(p, a + b, c);
    Grouped(p, a, b);
    Grouped((p + a) + b, c, q);
  }

  lemma ParenText(x: C)
    ensures CText(Paren(x)) == "(" + CText(x) + ")"
  {
    Grouped("(", CText(x), ")");
  }

  /** A binary operation with blanks around its operator, in parentheses. */
  lemma WideText(l: C, op: COp, r: C)
    ensures CText(Paren(Bin(l, op, true, r))) == "(" + CText(l) + " " + OpText(op) + " " + CText(r) + ")"
  {
    hide OpText;
  }

  lemma ShiftText(b: C, n: C)
    ensures CText(Paren(Bin(Paren(b), ShiftRight, true, Paren(n)))) == "((" + CText(b) + ") >> (" + CText(n) + "))"
  {
    var x, y := CText(b), CText(n);
    ParenText(b);
    ParenText(n);
    WideText(Paren(b), ShiftRight, Paren(n));
    hide CText;
    assert "(" + ("(" + x + ")") + " " + ">>" + " " + ("(" + y + ")") + ")" == "((" + x + ") >> (" + y + "))";
  }

  lemma WidthText(lo: C, hi: C)
    ensures CText(Width(lo, hi)) == "(" + CText(hi) + ")-(" + CText(lo) + ")+1"
  {
    var x, y := CText(hi), CText(lo);
    ParenText(hi);
    ParenText(lo);
    assert CText(Width(lo, hi)) == ("(" + x + ")" + ("-" + ("(" + y + ")"))) + ("+" + "1");
    hide CText;
    assert "-" + ("(" + y + ")") == "-(" + y + ")";
    assert "(" + x + ")" + ("-(" + y + ")") == "(" + x + ")-(" + y + ")";
    Grouped("(" + x + ")-(" + y, ")", "+" + "1");
    assert ")" + ("+" + "1") == ")+1";
  }

  lemma MaskText(w: C)
    ensures CText(Paren(Bin(Paren(Bin(Number("1ULL"), ShiftLeft, true, Paren(w))), COp.Minus, true, Number("1"))))
         == "((1ULL << (" + CText(w) + ")) - 1)"
  {
    var x := CText(w);
    ParenText(w);
    WideText(Number("1ULL"), ShiftLeft, Paren(w));
    WideText(Paren(Bin(Number("1ULL"), ShiftLeft, true, Paren(w))), COp.Minus, Number("1"));
    assert CText(Number("1ULL")) == "1ULL" && CText(Number("1")) == "1";
    hide CText;
    MaskJoins(x);
  }

  lemma MaskJoins(x: string)
    ensures "(" + ("(" + "1ULL" + " " + "<<" + " " + ("(" + x + ")") + ")") + " " + "-" + " " + "1" + ")" == "((1ULL << (" + x + ")) - 1)"
  {
    var inner := "(" + "1ULL" + " " + "<<" + " " + ("(" + x + ")") + ")";
    assert inner == "(1ULL << (" + x + "))";
    assert "(" + inner + " " + "-" + " " + "1" + ")" == "(" + inner + " - 1)";
    Around3("(", "(1ULL << (", x, "))", " - 1)");
    assert "(" + "(1ULL << (" == "((1ULL << (" && "))" + " - 1)" == ")) - 1)";
  }

  lemma SlitPrints(b: C, lo: C, hi: C)
    ensures CText(SlitTree(b, lo, hi))
         == "(((" + CText(b) + ") >> (" + CText(lo) + ")) & ((1ULL << ((" + CText(hi) + ")-(" + CText(lo) + ")+1)) - 1))"
  {
    var shift := Paren(Bin(Paren(b), ShiftRight, true, Paren(lo)));
    var mask := Paren(Bin(Paren(Bin(Number("1ULL"), ShiftLeft, true, Paren(Width(lo, hi)))), COp.Minus, true, Number("1")));
    ShiftText(b, lo);
    WidthText(lo, hi);
    MaskText(Width(lo, hi));
    WideText(shift, BitAnd, mask);
    var x, y, z := CText(b), CText(lo), CText(hi);
    hide CText;
    SlitJoins(x, y, z);
  }

  lemma SlitJoins(x: string, y: string, z: string)
    ensures var s, w := "((" + x + ") >> (" + y + "))", "(" + z + ")-(" + y + ")+1";
            "(" + s + " " + "&" + " " + ("((1ULL << (" + w + ")) - 1)") + ")"
            == "(((" + x + ") >> (" + y + ")) & ((1ULL << ((" + z + ")-(" + y + ")+1)) - 1))"
  {
    var s, w := "((" + x + ") >> (" + y + "))", "(" + z + ")-(" + y + ")+1";
    var k := "((1ULL << (" + w + ")) - 1)";
    assert k == "((1ULL << ((" + z + ")-(" + y + ")+1)) - 1)" by {
      Around5("((1ULL << (", "(", z, ")-(", y, ")+1", ")) - 1)");
      assert "((1ULL << (" + "(" == "((1ULL << ((" && ")+1" + ")) - 1)" == ")+1)) - 1)";
    }
    var mid := " " + "&" + " ";
    Grouped("(" + s, " ", "&");
    Grouped("(" + s, " " + "&", " ");
    assert "(" + s + " " + "&" + " " == "(" + s + mid;
    Around5("(", "((", x, ") >> (", y, "))", mid);
    assert "(" + "((" == "(((" && "))" + mid == ")) & ";
    var head := "(((" + x + ") >> (" + y;
    assert "(" + s + mid == head + ")) & ";
    Around5(head + ")) & ", "((1ULL << ((", z, ")-(", y, ")+1)) - 1)", ")");
    Grouped(head, ")) & ", "((1ULL << ((");
    assert ")) & " + "((1ULL << ((" == ")) & ((1ULL << ((" && ")+1)) - 1)" + ")" == ")+1)) - 1))";
  }

  lemma NotchPrints(b: C, bit: C)
    ensures CText(NotchTree(b, bit)) == "(((" + CText(b) + ") >> (" + CText(bit) + ")) & 1ULL)"
  {
    ShiftText(b, bit);
    WideText(Paren(Bin(Paren(b), ShiftRight, true, Paren(bit))), BitAnd, Number("1ULL"));
    assert CText(Number("1ULL")) == "1ULL";
    var x, y := CText(b), CText(bit);
    hide CText;
    var s := "((" + x + ") >> (" + y + "))";
    assert "(" + s + " " + "&" + " " + "1ULL" + ")" == "(" + s + " & 1ULL)";
    Around5("(", "((", x, ") >> (", y, "))", " & 1ULL)");
    assert "(" + "((" == "(((" && "))" + " & 1ULL)" == ")) & 1ULL)";
  }

  lemma StrandPrints(b: C)
    ensures CText(App(Name("__builtin_bswap64"), [b])) == "__builtin_bswap64(" + CText(b) + ")"
  {
    assert Texts([b]) == [CText(b)];
    var x := CText(b);
    assert "__builtin_bswap64" + ("(" + (x + ")")) == "__builtin_bswap64(" + x + ")";
  }

  lemma ChoicePrints(c: C, t: C, f: C)
    ensures CText(Paren(Cond(Paren(c), Paren(t), Paren(f)))) == "((" + CText(c) + ") ? (" + CText(t) + ") : (" + CText(f) + "))"
  {
    ParenText(c);
    ParenText(t);
    ParenText(f);
    var x, y, z := CText(c), CText(t), CText(f);
    CondText(Paren(c), Paren(t), Paren(f));
    ParenText(Cond(Paren(c), Paren(t), Paren(f)));
    hide CText;
    ChoiceJoins(x, y, z);
  }

  lemma CondText(c: C, t: C, f: C)
    ensures CText(Cond(c, t, f)) == CText(c) + " ? " + CText(t) + " : " + CText(f)
  {}

  lemma ChoiceJoins(x: string, y: string, z: string)
    ensures "(" + (("(" + x + ")") + " ? " + ("(" + y + ")") + " : " + ("(" + z + ")")) + ")" == "((" + x + ") ? (" + y + ") : (" + z + "))"
  {
    var first := ("(" + x + ")") + " ? " + ("(" + y + ")");
    assert first == "(" + x + ") ? (" + y + ")";
    Around5("(", "(", x, ") ? (", y, ")", " : (");
    assert "(" + "(" == "((" && ")" + " : (" == ") : (";
    assert " : " + ("(" + z + ")") == " : (" + z + ")";
    Grouped(first, " : ", "(" + z + ")");
    Around3(first, " : (", z, ")", ")");
    Grouped("(", first, " : (" + z + ")");
    assert ")" + ")" == "))";
    Around3("(" + first, " : (", z, ")", ")");
    Grouped("(", first, " : (");
  }

  lemma CountPrints(b: C)
    ensures CText(CountTree(b)) == "(sizeof(" + CText(b) + ")/sizeof(*(" + CText(b) + ")))"
  {
    var x := CText(b);
    ParenText(b);
    var deref := CText(Pre(Times, Paren(b)));
    assert CText(SizeOf(Pre(Times, Paren(b)))) == "sizeof(" + deref + ")";
    assert CText(SizeOf(b)) == "sizeof(" + x + ")";
    ParenText(Bin(SizeOf(b), Over, false, SizeOf(Pre(Times, Paren(b)))));
    var first, second := "sizeof(" + x + ")", "sizeof(" + deref + ")";
    assert CText(CountTree(b)) == "(" + (first + ("/" + second)) + ")";
    Around3("*", "(", x, ")", "");
    assert deref == "*" + ("(" + x + ")");
    hide CText;
    assert "*" + ("(" + x + ")") + "" == "*" + ("(" + x + ")") && ")" + "" == ")" && "*" + "(" == "*(";
    CountJoins(x);
  }

  lemma CountJoins(x: string)
    ensures var first, second := "sizeof(" + x + ")", "sizeof(" + ("*(" + x + ")") + ")";
            "(" + (first + ("/" + second)) + ")" == "(sizeof(" + x + ")/sizeof(*(" + x + ")))"
  {
    var first, second := "sizeof(" + x + ")", "sizeof(" + ("*(" + x + ")") + ")";
    Around3("sizeof(", "*(", x, ")", ")");
    assert "sizeof(" + "*(" == "sizeof(*(" && ")" + ")" == "))";
    Grouped(first, "/", second);
    Grouped("(", first + "/", second);
    Around3("(", "sizeof(", x, ")", "/");
    Grouped("(", first, "/");
    assert "(" + "sizeof(" == "(sizeof(" && ")" + "/" == ")/";
    Around3("(sizeof(" + x + ")/", "sizeof(*(", x, "))", ")");
    Grouped("(sizeof(" + x, ")/", "sizeof(*(");
    assert ")/" + "sizeof(*(" == ")/sizeof(*(" && "))" + ")" == ")))";
  }

  lemma SlicePrints(e: S.Expr)
    requires e.Slice? && CText(AsC(e.base)) == Print(e.base)
    requires (e.from.Some? ==> CText(AsC(e.from.value)) == Print(e.from.value)) && (e.to.Some? ==> CText(AsC(e.to.value)) == Print(e.to.value))
    ensures CText(AsC(e)) == Print(e)
  {
    var b := AsC(e.base);
    var lo, hi := if e.from.None? then Number("0") else AsC(e.from.value), if e.to.None? then CountTree(b) else AsC(e.to.value);
    CountPrints(b);
    ViewPrints(b, lo, hi);
    assert CText(Number("0")) == "0";
  }

  lemma PartsText(lo: C, hi: C)
    ensures CText(Bin(Name("_b"), COp.Plus, true, Paren(lo))) == "_b + (" + CText(lo) + ")"
    ensures CText(Cast("size_t", Paren(Bin(Paren(hi), COp.Minus, true, Paren(lo))))) == "(size_t)((" + CText(hi) + ") - (" + CText(lo) + "))"
  {
    var x, y := CText(lo), CText(hi);
    ParenText(lo);
    ParenText(hi);
    WideText(Paren(hi), COp.Minus, Paren(lo));
    assert CText(Name("_b")) == "_b";
    var diff := CText(Paren(Bin(Paren(hi), COp.Minus, true, Paren(lo))));
    assert CText(Cast("size_t", Paren(Bin(Paren(hi), COp.Minus, true, Paren(lo))))) == "(" + "size_t" + ")" + diff;
    assert CText(Bin(Name("_b"), COp.Plus, true, Paren(lo))) == "_b" + (" " + ("+" + (" " + ("(" + x + ")"))));
    hide CText;
    PlusJoins(x);
    LengthJoins(x, y);
  }

  lemma PlusJoins(x: string)
    ensures "_b" + (" " + ("+" + (" " + ("(" + x + ")")))) == "_b + (" + x + ")"
  {}

  lemma LengthJoins(x: string, y: string)
    ensures "(" + "size_t" + ")" + ("(" + ("(" + y + ")") + " " + "-" + " " + ("(" + x + ")") + ")") == "(size_t)((" + y + ") - (" + x + "))"
  {
    var diff := "(" + ("(" + y + ")") + " " + "-" + " " + ("(" + x + ")") + ")";
    assert diff == "((" + y + ") - (" + x + "))";
    Around5("(size_t)", "((", y, ") - (", x, "))", "");
    assert "(" + "size_t" + ")" == "(size_t)" && "(size_t)" + "((" == "(size_t)((" && "))" + "" == "))";
    assert "(size_t)" + diff + "" == "(size_t)" + diff;
  }

  lemma TagsText(lo: C, hi: C)
    ensures CText(Tagged(["data", "len"], ViewParts(lo, hi)))
         == "{ .data = _b + (" + CText(lo) + "), .len = (size_t)((" + CText(hi) + ") - (" + CText(lo) + ")) }"
  {
    var parts := ViewParts(lo, hi);
    PartsText(lo, hi);
    var x, y := CText(lo), CText(hi);
    var d, l := CText(parts[0]), CText(parts[1]);
    assert Texts(parts) == [d, l];
    assert Designated(["data", "len"], [d, l]) == ["." + "data" + " = " + d, "." + "len" + " = " + l];
    assert Join(["." + "data" + " = " + d, "." + "len" + " = " + l]) == "." + "data" + " = " + d + (", " + ("." + "len" + " = " + l));
    assert "." + "data" + " = " == ".data = " && "." + "len" + " = " == ".len = ";
    var whole := CText(Tagged(["data", "len"], parts));
    assert whole == "{ " + (".data = " + d + (", " + (".len = " + l))) + " }";
    hide CText;
    TagsJoin(x, y);
  }

  lemma TagsJoin(x: string, y: string)
    ensures var d, l := "_b + (" + x + ")", "(size_t)((" + y + ") - (" + x + "))";
      "{ " + (".data = " + d + (", " + (".len = " + l))) + " }" == "{ .data = _b + (" + x + "), .len = (size_t)((" + y + ") - (" + x + ")) }"
  {
    var d, l := "_b + (" + x + ")", "(size_t)((" + y + ") - (" + x + "))";
    assert "{ " + (".data = " + d + (", " + (".len = " + l))) + " }" == ("{ .data = " + d + ", .len = ") + l + " }";
    Around3("{ .data = ", "_b + (", x, ")", ", .len = ");
    assert "{ .data = " + "_b + (" == "{ .data = _b + (" && ")" + ", .len = " == "), .len = ";
    var head := "{ .data = _b + (" + x;
    Around5(head + "), .len = ", "(size_t)((", y, ") - (", x, "))", " }");
    Grouped(head, "), .len = ", "(size_t)((");
    assert "), .len = " + "(size_t)((" == "), .len = (size_t)((" && "))" + " }" == ")) }";
  }

  lemma ViewLetText(lo: C, hi: C)
    ensures CText(ViewLet(lo, hi))
         == VIEW + " " + "_s" + " = " + ("{ .data = _b + (" + CText(lo) + "), .len = (size_t)((" + CText(hi) + ") - (" + CText(lo) + ")) }") + "; " + "_s"
  {
    TagsText(lo, hi);
    var tags := Tagged(["data", "len"], ViewParts(lo, hi));
    var s := CText(tags);
    assert CText(Name("_s")) == "_s";
    assert CText(Let(VIEW, "_s", tags, Name("_s"))) == VIEW + " " + "_s" + " = " + s + "; " + "_s" by {
      LetText(VIEW, "_s", tags, Name("_s"));
    }
  }

  lemma LetText(kind: string, name: string, init: C, rest: C)
    ensures CText(Let(kind, name, init, rest)) == kind + " " + name + " = " + CText(init) + "; " + CText(rest)
  {}

  lemma ViewPrints(b: C, lo: C, hi: C)
    ensures CText(SliceTree(b, lo, hi))
         == "({ __typeof__(" + CText(b) + ") _b = (" + CText(b) + "); " + VIEW + " _s = { .data = _b + ("
            + CText(lo) + "), .len = (size_t)((" + CText(hi) + ") - (" + CText(lo) + ")) }; _s; })"
  {
    ViewLetText(lo, hi);
    ParenText(b);
    var x, y, z := CText(b), CText(lo), CText(hi);
    LetText("__typeof__(" + x + ")", "_b", Paren(b), ViewLet(lo, hi));
    BlockText(Let("__typeof__(" + x + ")", "_b", Paren(b), ViewLet(lo, hi)));
    hide CText, ViewLet;
    ViewJoins(x, y, z);
  }

  lemma BlockText(x: C)
    ensures CText(Block(x)) == "({ " + CText(x) + "; })"
  {}

  lemma ViewJoins(x: string, y: string, z: string)
    ensures var tags := "{ .data = _b + (" + y + "), .len = (size_t)((" + z + ") - (" + y + ")) }";
      "({ " + (("__typeof__(" + x + ")") + " " + "_b" + " = " + ("(" + x + ")") + "; " + (VIEW + " " + "_s" + " = " + tags + "; " + "_s")) + "; })"
      == "({ __typeof__(" + x + ") _b = (" + x + "); " + VIEW + " _s = { .data = _b + ("
            + y + "), .len = (size_t)((" + z + ") - (" + y + ")) }; _s; })"
  {
    var tags := "{ .data = _b + (" + y + "), .len = (size_t)((" + z + ") - (" + y + ")) }";
    var view := VIEW + " " + "_s" + " = ";
    var decl := ("__typeof__(" + x + ")") + " " + "_b" + " = " + ("(" + x + ")") + "; ";
    DeclJoins(x);
    var h := "__typeof__(" + x + ") _b = (" + x;
    assert decl == h + "); ";
    TailJoins(view, tags);
    Around7(view, "{ .data = _b + (", y, "), .len = (size_t)((", z, ") - (", y, ")) }", "; _s");
    assert ")) }" + "; _s" == ")) }; _s";
    var v0 := view + "{ .data = _b + (";
    Grouped("({ ", decl, v0 + y + "), .len = (size_t)((" + z + ") - (" + y + ")) }; _s");
    Around7("({ " + decl, v0, y, "), .len = (size_t)((", z, ") - (", y, ")) }; _s", "; })");
    assert ")) }; _s" + "; })" == ")) }; _s; })";
    HeadJoins(x, decl);
  }

  lemma DeclJoins(x: string)
    ensures ("__typeof__(" + x + ")") + " " + "_b" + " = " + ("(" + x + ")") + "; " == "__typeof__(" + x + ") _b = (" + x + "); "
  {
    var a := "__typeof__(" + x;
    Grouped(a, ")", " ");
    Grouped(a, ")" + " ", "_b");
    Grouped(a, ")" + " " + "_b", " = ");
    assert ")" + " " + "_b" + " = " == ") _b = ";
    Around3(a + ") _b = ", "(", x, ")", "; ");
    Grouped(a, ") _b = ", "(");
    assert ") _b = " + "(" == ") _b = (" && ")" + "; " == "); ";
  }

  lemma TailJoins(view: string, tags: string)
    ensures view + tags + "; " + "_s" == view + tags + "; _s"
  {
    Grouped(view + tags, "; ", "_s");
    assert "; " + "_s" == "; _s";
  }

  lemma HeadJoins(x: string, decl: string)
    requires decl == "__typeof__(" + x + ") _b = (" + x + "); "
    ensures "({ " + decl + (VIEW + " " + "_s" + " = " + "{ .data = _b + (")
         == "({ __typeof__(" + x + ") _b = (" + x + "); " + VIEW + " _s = { .data = _b + ("
  {
    hide VIEW;
    Around5("({ ", "__typeof__(", x, ") _b = (", x, "); ", "");
    assert "({ " + "__typeof__(" == "({ __typeof__(" && "); " + "" == "); ";
    var first := "({ " + decl;
    assert first + "" == first;
    Grouped(VIEW, " ", "_s");
    Grouped(VIEW, " " + "_s", " = ");
    Grouped(VIEW, " " + "_s" + " = ", "{ .data = _b + (");
    assert " " + "_s" + " = " + "{ .data = _b + (" == " _s = { .data = _b + (";
    Grouped(first, VIEW, " _s = { .data = _b + (");
  }

  lemma StructPrints(e: S.Expr)
    requires e.StructLit? && forall i :: 0 <= i < |e.fields| ==> CText(AsC(e.fields[i].value)) == Print(e.fields[i].value)
    ensures CText(AsC(e)) == Print(e)
  {
    var xs := seq(|e.fields|, i requires 0 <= i < |e.fields| => AsC(e.fields[i].value));
    JoinFields(e.fields, Texts(xs));
  }

  lemma TuplePrints(es: seq<S.Expr>)
    requires forall i :: 0 <= i < |es| ==> CText(AsC(es[i])) == Print(es[i])
    ensures CText(AsC(S.TupleLit(es))) == Print(S.TupleLit(es))
  {
    var xs := seq(|es|, i requires 0 <= i < |es| => AsC(es[i]));
    JoinTuple(es, Texts(xs), Places(|es|), 0);
  }

  lemma ArrayPrints(es: seq<S.Expr>)
    requires forall i :: 0 <= i < |es| ==> CText(AsC(es[i])) == Print(es[i])
    ensures CText(AsC(S.ArrayLit(es))) == Print(S.ArrayLit(es))
  {
    var xs := seq(|es|, i requires 0 <= i < |es| => AsC(es[i]));
    JoinElements(es, Texts(xs));
  }
}
