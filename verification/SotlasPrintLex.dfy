/** The printed text of a shared expression lexes to exactly its tokens. */
module SotlasPrintLex {
  import opened Options
  import opened SotlasTokens
  import opened SotlasLexing
  import opened SotlasLexStability
  import opened SotlasParsing
  import opened SotlasPrinting

  lemma OpIsPlain(kw: Keywords, k: Kind)
    requires k.IsOperator()
    ensures IsPlain(kw, OpWord(k))
  {}

  lemma CBinaryIsOperator(k: Kind)
    requires IsCBinaryOp(k)
    ensures k.IsOperator() && BinarySpelling(k) == Spelling(k) && Word(k, BinarySpelling(k)) == OpWord(k)
  {}

  lemma CUnaryIsOperator(k: Kind)
    requires IsCUnaryOp(k)
    ensures k.IsOperator() && UnarySpelling(k) == Spelling(k) && Word(k, UnarySpelling(k)) == OpWord(k)
  {}

  /** What may follow an expression stops an identifier and a number. */
  lemma FollowStops(tail: string)
    requires MayFollow(tail)
    ensures Stops(tail, 0, Kind.Ident) && Stops(tail, 0, IntLit)
  {}

  /** A printed shared expression starts with a character no operator continues with. */
  lemma {:induction false} PrintStart(kw: Keywords, e: Expr)
    requires IsShared(kw, e)
    ensures |Print(e)| > 0
    ensures var c := Print(e)[0]; IsIdentStart(c) || IsDigit(c) || c == '('
  {
    match e
    case Call(callee, _) => PrintStart(kw, callee);
    case Index(base, _) => PrintStart(kw, base);
    case Field(base, _) => PrintStart(kw, base);
    case _ =>
  }

  lemma OperatorBefore(k: Kind, tail: string)
    requires k.IsOperator() && |tail| > 0
    requires var c := tail[0]; IsIdentStart(c) || IsDigit(c) || c == '(' || c == ' '
    ensures Stops(tail, 0, k)
  {}

  /** An opening token, the inside, and a closing token. */
  lemma LexEnclosed(src: string, kw: Keywords, i: nat, open: Kind, inner: string, ws: seq<Word>, close: Kind, tail: string)
    requires (open == LParen && close == RParen) || (open == LBracket && close == RBracket)
    requires i <= |src| && src[i..] == Spelling(open) + (inner + (Spelling(close) + tail))
    requires LexesTo(src, kw, i + 1, inner, ws, Spelling(close) + tail)
    ensures LexesTo(src, kw, i, Spelling(open) + (inner + Spelling(close)), [OpWord(open)] + (ws + [OpWord(close)]), tail)
  {
    hide LexWords, Prefixed, IsPlain, Spelling, LexesTo, Stops;
    ParenStops(kw, open, close, inner + (Spelling(close) + tail), tail);
    LexAfter(src, kw, i + 1, inner, ws, OpWord(close), tail);
    Assoc(inner, Spelling(close), tail);
    LexBefore(src, kw, i, OpWord(open), inner + Spelling(close), ws + [OpWord(close)], tail);
  }

  lemma ParenStops(kw: Keywords, open: Kind, close: Kind, inner: string, tail: string)
    requires (open == LParen && close == RParen) || (open == LBracket && close == RBracket)
    ensures Stops(inner, 0, open) && Stops(tail, 0, close) && |Spelling(open)| == 1
    ensures IsPlain(kw, OpWord(open)) && IsPlain(kw, OpWord(close))
  {}

  /** A blank, an operator and a blank before text that is already known to lex. */
  lemma LexInfix(src: string, kw: Keywords, i: nat, op: Kind, right: string, ws: seq<Word>, tail: string)
    requires op.IsOperator() && i <= |src| && src[i..] == " " + (Spelling(op) + (" " + (right + tail)))
    requires LexesTo(src, kw, i + |Spelling(op)| + 2, right, ws, tail)
    ensures LexesTo(src, kw, i, " " + (Spelling(op) + (" " + right)), [OpWord(op)] + ws, tail)
  {
    hide LexWords, Prefixed, IsPlain, Spelling, LexesTo;
    var o := Spelling(op);
    var after := " " + (right + tail);
    BlankAt(src, i, o + after);
    Rest(src, i + 1, o, after);
    LexBlank(src, kw, i + 1 + |o|, right, ws, tail);
    OpIsPlain(kw, op);
    OperatorBefore(op, after);
    Assoc(" ", right, tail);
    Assoc(o, " " + right, tail);
    LexBefore(src, kw, i + 1, OpWord(op), " " + right, ws, tail);
    LexBlank(src, kw, i, o + (" " + right), [OpWord(op)] + ws, tail);
  }

  lemma {:induction false} PrintLexes(src: string, kw: Keywords, i: nat, e: Expr, tail: string)
    requires i <= |src| && IsShared(kw, e) && MayFollow(tail) && src[i..] == Print(e) + tail
    ensures LexesTo(src, kw, i, Print(e), Tokens(e), tail)
    decreases e
  {
    match e
    case Literal(k, text) =>
      FollowStops(tail);
      LexWord(src, kw, i, Word(IntLit, text), tail);
    case Ident(name, _) =>
      FollowStops(tail);
      LexWord(src, kw, i, Word(Kind.Ident, name), tail);
    case Binary(_, _, _) => PrintLexesBinary(src, kw, i, e, tail);
    case Unary(_, _) => PrintLexesUnary(src, kw, i, e, tail);
    case Call(_, _) => PrintLexesCall(src, kw, i, e, tail);
    case Index(_, _) => PrintLexesIndex(src, kw, i, e, tail);
    case Field(_, _) => PrintLexesField(src, kw, i, e, tail);
  }

  lemma {:induction false} PrintLexesBinary(src: string, kw: Keywords, i: nat, e: Expr, tail: string)
    requires e.Binary? && i <= |src| && IsShared(kw, e) && src[i..] == Print(e) + tail
    ensures LexesTo(src, kw, i, Print(e), Tokens(e), tail)
    decreases e, 0
  {
    hide LexesTo, Spelling, Print, Tokens, IsShared, MayFollow, InfixText, InfixTail;
    BinaryParts(kw, e);
    var s, o, t := Print(e.left), Spelling(e.op), Print(e.right);
    var n := i + 1 + |s| + |o| + 2;
    var x, y := Tokens(e.left), Tokens(e.right);
    var close := Spelling(RParen) + tail;
    InfixPositions(src, i, s, o, t, tail);
    PrintLexes(src, kw, i + 1, e.left, InfixTail(o, t, tail));
    PrintLexes(src, kw, n, e.right, close);
    InfixShapes(s, o, t, tail);
    var rest := " " + (o + (" " + t));
    LexInfix(src, kw, i + 1 + |s|, e.op, t, y, close);
    LexThen(src, kw, i + 1, s, x, rest, [OpWord(e.op)] + y, close);
    LexEnclosed(src, kw, i, LParen, s + rest, x + ([OpWord(e.op)] + y), RParen, tail);
  }

  /** The text of an infix operation in its parentheses. */
  function InfixText(s: string, o: string, t: string): string {
    Spelling(LParen) + ((s + (" " + (o + (" " + t)))) + Spelling(RParen))
  }

  /** What follows the left operand of an infix operation. */
  function InfixTail(o: string, t: string, tail: string): string {
    " " + (o + (" " + (t + (Spelling(RParen) + tail))))
  }

  /** How its pieces regroup. */
  lemma InfixShapes(s: string, o: string, t: string, tail: string)
    ensures var rest := " " + (o + (" " + t));
            var close := Spelling(RParen) + tail;
            && InfixText(s, o, t) == Spelling(LParen) + ((s + rest) + Spelling(RParen))
            && InfixTail(o, t, tail) == " " + (o + (" " + (t + close))) == rest + close
            && (s + rest) + close == s + (rest + close)
  {
    hide Spelling;
    InfixShape(Spelling(LParen), s, " ", o, t, Spelling(RParen), tail);
  }

  lemma InfixPositions(src: string, i: nat, s: string, o: string, t: string, tail: string)
    requires i <= |src| && src[i..] == InfixText(s, o, t) + tail
    ensures var n := i + 1 + |s| + |o| + 2;
            && n <= |src|
            && src[i..] == Spelling(LParen) + (s + InfixTail(o, t, tail))
            && src[i + 1..] == s + InfixTail(o, t, tail)
            && src[i + 1 + |s|..] == InfixTail(o, t, tail)
            && src[n..] == t + (Spelling(RParen) + tail)
    ensures MayFollow(InfixTail(o, t, tail)) && MayFollow(Spelling(RParen) + tail)
  {
    ParenSpelling();
    hide Spelling;
    var close := Spelling(RParen) + tail;
    InfixFollows(o, t, close);
    InfixShape(Spelling(LParen), s, " ", o, t, Spelling(RParen), tail);
    hide MayFollow;
    Rest(src, i, Spelling(LParen), s + InfixTail(o, t, tail));
    Rest(src, i + 1, s, InfixTail(o, t, tail));
    BlankAt(src, i + 1 + |s|, o + (" " + (t + close)));
    Rest(src, i + 2 + |s|, o, " " + (t + close));
    BlankAt(src, i + 2 + |s| + |o|, t + close);
  }

  lemma BinaryParts(kw: Keywords, e: Expr)
    requires e.Binary? && IsShared(kw, e)
    ensures IsCBinaryOp(e.op) && e.op.IsOperator() && IsShared(kw, e.left) && IsShared(kw, e.right)
    ensures var s, t, o := Print(e.left), Print(e.right), Spelling(e.op);
            Print(e) == InfixText(s, o, t)
    ensures var x, y := Tokens(e.left), Tokens(e.right);
            Tokens(e) == [OpWord(LParen)] + ((x + ([OpWord(e.op)] + y)) + [OpWord(RParen)])
  {
    CBinaryIsOperator(e.op);
    ParenSpelling();
    hide Spelling, BinarySpelling, IsShared;
  }

  lemma InfixFollows(o: string, t: string, close: string)
    requires |close| > 0 && close[0] == ')'
    ensures MayFollow(" " + (o + (" " + (t + close)))) && MayFollow(close)
  {}

  lemma UnaryParts(kw: Keywords, e: Expr)
    requires e.Unary? && IsShared(kw, e)
    ensures IsCUnaryOp(e.op) && e.op.IsOperator() && IsShared(kw, e.operand)
    ensures Print(e) == Spelling(LParen) + ((Spelling(e.op) + Print(e.operand)) + Spelling(RParen))
    ensures Tokens(e) == [OpWord(LParen)] + (([OpWord(e.op)] + Tokens(e.operand)) + [OpWord(RParen)])
  {
    CUnaryIsOperator(e.op);
    ParenSpelling();
    hide Spelling, UnarySpelling, IsShared;
  }

  /** How the pieces of an infix text regroup with what follows them. */
  lemma InfixShape(open: string, s: string, b: string, o: string, t: string, c: string, tail: string)
    ensures var rest := b + (o + (b + t));
            var close := c + tail;
            && rest + close == b + (o + (b + (t + close)))
            && (s + rest) + close == s + (rest + close)
            && (open + ((s + rest) + c)) + tail == open + ((s + rest) + close)
  {
    var rest := b + (o + (b + t));
    var close := c + tail;
    Assoc(b, t, close);
    Assoc(o, b + t, close);
    Assoc(b, o + (b + t), close);
    Assoc(s, rest, close);
    Assoc(s + rest, c, tail);
    Assoc(open, (s + rest) + c, tail);
  }

  lemma ParenSpelling()
    ensures Spelling(LParen) == "(" && Spelling(RParen) == ")"
  {}

  lemma SquareSpelling()
    ensures Spelling(LBracket) == "[" && Spelling(RBracket) == "]"
  {}

  lemma PunctuationSpelling()
    ensures Spelling(Comma) == "," && Spelling(Dot) == "."
  {}

  lemma {:induction false} PrintLexesUnary(src: string, kw: Keywords, i: nat, e: Expr, tail: string)
    requires e.Unary? && i <= |src| && IsShared(kw, e) && src[i..] == Print(e) + tail
    ensures LexesTo(src, kw, i, Print(e), Tokens(e), tail)
    decreases e, 0
  {
    hide LexWords, Prefixed, IsPlain, Spelling, Print, Tokens, IsShared, MayFollow;
    UnaryParts(kw, e);
    ParenSpelling();
    var Unary(op, x) := e;
    PrintStart(kw, x);
    var s, o := Print(x), Spelling(op);
    var open, shut := Spelling(LParen), Spelling(RParen);
    var close := shut + tail;
    InfixFollows(o, s, close);
    Assoc(o + s, shut, tail);
    Assoc(open, (o + s) + shut, tail);
    Assoc(o, s, close);
    Rest(src, i, open, o + (s + close));
    OpIsPlain(kw, op);
    OperatorBefore(op, s + close);
    Rest(src, i + 1, o, s + close);
    PrintLexes(src, kw, i + 1 + |o|, x, close);
    hide LexesTo;
    LexBefore(src, kw, i + 1, OpWord(op), s, Tokens(x), close);
    LexEnclosed(src, kw, i, LParen, o + s, [OpWord(op)] + Tokens(x), RParen, tail);
  }

  lemma IndexParts(kw: Keywords, e: Expr)
    requires e.Index? && IsShared(kw, e)
    ensures IsShared(kw, e.base) && IsShared(kw, e.index)
    ensures Print(e) == Print(e.base) + (Spelling(LBracket) + (Print(e.index) + Spelling(RBracket)))
    ensures Tokens(e) == Tokens(e.base) + ([OpWord(LBracket)] + (Tokens(e.index) + [OpWord(RBracket)]))
  {
    SquareSpelling();
    hide Spelling;
  }

  lemma SuffixFollows(open: string, shut: string, t: string, tail: string)
    requires (open == "(" && shut == ")") || (open == "[" && shut == "]")
    ensures MayFollow(open + (t + (shut + tail))) && MayFollow(shut + tail)
  {}

  lemma {:induction false} PrintLexesIndex(src: string, kw: Keywords, i: nat, e: Expr, tail: string)
    requires e.Index? && i <= |src| && IsShared(kw, e) && src[i..] == Print(e) + tail
    ensures LexesTo(src, kw, i, Print(e), Tokens(e), tail)
    decreases e, 0
  {
    hide LexesTo, Spelling, Print, Tokens, IsShared, MayFollow;
    SquareSpelling();
    IndexParts(kw, e);
    var s, t := Print(e.base), Print(e.index);
    var open, shut := Spelling(LBracket), Spelling(RBracket);
    var close := shut + tail;
    SuffixFollows(open, shut, t, tail);
    SuffixShape(s, open, t, shut, tail);
    PrintLexes(src, kw, i, e.base, open + (t + close));
    var m := i + |s|;
    Rest(src, i, s, open + (t + close));
    Rest(src, m, open, t + close);
    PrintLexes(src, kw, m + 1, e.index, close);
    LexEnclosed(src, kw, m, LBracket, t, Tokens(e.index), RBracket, tail);
    LexThen(src, kw, i, s, Tokens(e.base), open + (t + shut), [OpWord(LBracket)] + (Tokens(e.index) + [OpWord(RBracket)]), tail);
  }

  lemma SuffixShape(s: string, open: string, t: string, shut: string, tail: string)
    ensures (open + (t + shut)) + tail == open + (t + (shut + tail))
    ensures (s + (open + (t + shut))) + tail == s + (open + (t + (shut + tail)))
  {
    Assoc(t, shut, tail);
    Assoc(open, t + shut, tail);
    Assoc(s, open + (t + shut), tail);
  }

  lemma {:induction false} PrintLexesField(src: string, kw: Keywords, i: nat, e: Expr, tail: string)
    requires e.Field? && i <= |src| && IsShared(kw, e) && MayFollow(tail) && src[i..] == Print(e) + tail
    ensures LexesTo(src, kw, i, Print(e), Tokens(e), tail)
    decreases e, 0
  {
    hide LexesTo, IsPlain, Spelling, Print, Tokens, IsShared, MayFollow, IsIdentText;
    FieldParts(kw, e);
    var s, f := Print(e.base), e.field;
    var w := Word(Kind.Ident, f);
    var dot := Spelling(Dot) + f;
    DotFollows(f, tail);
    Assoc(s, dot, tail);
    PrintLexes(src, kw, i, e.base, dot + tail);
    LexDotText(src, kw, i, s, Tokens(e.base), w, tail);
  }

  lemma FieldParts(kw: Keywords, e: Expr)
    requires e.Field? && IsShared(kw, e)
    ensures IsShared(kw, e.base) && IsIdentText(e.field) && IsPlain(kw, Word(Kind.Ident, e.field))
    ensures Print(e) == Print(e.base) + (Spelling(Dot) + e.field)
    ensures Tokens(e) == Tokens(e.base) + ([OpWord(Dot)] + [Word(Kind.Ident, e.field)])
  {
    PunctuationSpelling();
    hide Spelling;
  }

  lemma LexDotText(src: string, kw: Keywords, i: nat, s: string, xs: seq<Word>, w: Word, tail: string)
    requires i <= |src| && src[i..] == s + ((Spelling(Dot) + w.text) + tail) && MayFollow(tail)
    requires w.kind == Kind.Ident && IsPlain(kw, w)
    requires LexesTo(src, kw, i, s, xs, (Spelling(Dot) + w.text) + tail)
    ensures LexesTo(src, kw, i, s + (Spelling(Dot) + w.text), xs + ([OpWord(Dot)] + [w]), tail)
  {
    hide LexesTo, IsPlain, Spelling, MayFollow, Stops, IsIdentText;
    DotStops(kw, w, tail);
    var dot := Spelling(Dot) + w.text;
    Assoc(Spelling(Dot), w.text, tail);
    Rest(src, i, s, dot + tail);
    var m := i + |s|;
    Rest(src, m, Spelling(Dot), w.text + tail);
    LexWord(src, kw, m + 1, w, tail);
    LexBefore(src, kw, m, OpWord(Dot), w.text, [w], tail);
    LexThen(src, kw, i, s, xs, dot, [OpWord(Dot)] + [w], tail);
  }

  lemma DotStops(kw: Keywords, w: Word, tail: string)
    requires w.kind == Kind.Ident && IsPlain(kw, w) && MayFollow(tail)
    ensures Stops(tail, 0, w.kind) && Stops(w.text + tail, 0, Dot) && IsPlain(kw, OpWord(Dot)) && |Spelling(Dot)| == 1
  {
    DotFollows(w.text, tail);
    FollowStops(tail);
  }

  lemma DotFollows(f: string, tail: string)
    requires IsIdentText(f)
    ensures MayFollow((Spelling(Dot) + f) + tail) && Stops(f + tail, 0, Dot)
  {
    assert ((Spelling(Dot) + f) + tail)[0] == '.' && ((Spelling(Dot) + f) + tail)[1] == f[0];
  }

  lemma CallParts(kw: Keywords, e: Expr)
    requires e.Call? && IsShared(kw, e)
    ensures IsShared(kw, e.callee) && AreShared(kw, e.args)
    ensures Print(e) == Print(e.callee) + (Spelling(LParen) + (PrintArgs(e.args) + Spelling(RParen)))
    ensures Tokens(e) == Tokens(e.callee) + ([OpWord(LParen)] + (ArgTokens(e.args) + [OpWord(RParen)]))
  {
    ParenSpelling();
    hide Spelling;
  }

  lemma {:induction false} PrintLexesCall(src: string, kw: Keywords, i: nat, e: Expr, tail: string)
    requires e.Call? && i <= |src| && IsShared(kw, e) && src[i..] == Print(e) + tail
    ensures LexesTo(src, kw, i, Print(e), Tokens(e), tail)
    decreases e, 0
  {
    hide LexesTo, Spelling, Print, Tokens, PrintArgs, ArgTokens, IsShared, AreShared, MayFollow;
    ParenSpelling();
    CallParts(kw, e);
    var s, t := Print(e.callee), PrintArgs(e.args);
    var open, shut := Spelling(LParen), Spelling(RParen);
    var close := shut + tail;
    SuffixFollows(open, shut, t, tail);
    SuffixShape(s, open, t, shut, tail);
    PrintLexes(src, kw, i, e.callee, open + (t + close));
    var m := i + |s|;
    Rest(src, i, s, open + (t + close));
    Rest(src, m, open, t + close);
    ArgsLex(src, kw, m + 1, e.args, close);
    LexEnclosed(src, kw, m, LParen, t, ArgTokens(e.args), RParen, tail);
    LexThen(src, kw, i, s, Tokens(e.callee), open + (t + shut), [OpWord(LParen)] + (ArgTokens(e.args) + [OpWord(RParen)]), tail);
  }

  lemma {:induction false} ArgsLex(src: string, kw: Keywords, i: nat, args: seq<Arg>, tail: string)
    requires i <= |src| && AreShared(kw, args) && src[i..] == PrintArgs(args) + tail
    requires |tail| > 0 && tail[0] == ')'
    ensures LexesTo(src, kw, i, PrintArgs(args), ArgTokens(args), tail)
    decreases args, 1
  {
    if args == [] {
      NothingLexes(src, kw, i, tail);
    } else {
      hide LexesTo, Print, Tokens, IsShared, MayFollow, Spelling;
      ArgThenMoreLex(src, kw, i, args, tail);
    }
  }

  /** One argument and the rest of the list. */
  lemma {:induction false} ArgThenMoreLex(src: string, kw: Keywords, i: nat, args: seq<Arg>, tail: string)
    requires args != [] && i <= |src| && AreShared(kw, args)
    requires src[i..] == (Print(args[0].value) + PrintMoreArgs(args[1..])) + tail
    requires |tail| > 0 && tail[0] == ')'
    ensures LexesTo(src, kw, i, Print(args[0].value) + PrintMoreArgs(args[1..]), Tokens(args[0].value) + MoreArgTokens(args[1..]), tail)
    decreases args, 0
  {
    assert args decreases to args[0];
    hide LexesTo, Print, Tokens, IsShared, MayFollow, PrintMoreArgs, MoreArgTokens;
    var s, t := Print(args[0].value), PrintMoreArgs(args[1..]);
    Assoc(s, t, tail);
    MoreFollows(args[1..], tail);
    PrintLexes(src, kw, i, args[0].value, t + tail);
    Rest(src, i, s, t + tail);
    MoreArgsLex(src, kw, i + |s|, args[1..], tail);
    LexThen(src, kw, i, s, Tokens(args[0].value), t, MoreArgTokens(args[1..]), tail);
  }

  lemma MoreFollows(args: seq<Arg>, tail: string)
    requires |tail| > 0 && tail[0] == ')'
    ensures MayFollow(PrintMoreArgs(args) + tail)
  {
    hide Print;
  }

  lemma {:induction false} MoreArgsLex(src: string, kw: Keywords, i: nat, args: seq<Arg>, tail: string)
    requires i <= |src| && AreShared(kw, args) && src[i..] == PrintMoreArgs(args) + tail
    requires |tail| > 0 && tail[0] == ')'
    ensures LexesTo(src, kw, i, PrintMoreArgs(args), MoreArgTokens(args), tail)
    decreases args, 1
  {
    if args == [] {
      NothingLexes(src, kw, i, tail);
    } else {
      MorePrinted(args);
      hide LexesTo, Print, Tokens, IsShared, MayFollow, Spelling, PrintMoreArgs, MoreArgTokens;
      var b := Print(args[0].value) + PrintMoreArgs(args[1..]);
      CommaPositions(src, i, b, tail);
      ArgThenMoreLex(src, kw, i + 2, args, tail);
      LexCommaText(src, kw, i, b, Tokens(args[0].value) + MoreArgTokens(args[1..]), tail);
    }
  }

  lemma MorePrinted(args: seq<Arg>)
    requires args != []
    ensures PrintMoreArgs(args) == Spelling(Comma) + (" " + (Print(args[0].value) + PrintMoreArgs(args[1..])))
    ensures MoreArgTokens(args) == [OpWord(Comma)] + (Tokens(args[0].value) + MoreArgTokens(args[1..]))
  {
    PunctuationSpelling();
    hide Spelling, Print, Tokens;
  }

  lemma CommaPositions(src: string, i: nat, b: string, tail: string)
    requires i <= |src| && src[i..] == (Spelling(Comma) + (" " + b)) + tail
    ensures i + 2 <= |src| && src[i..] == Spelling(Comma) + (" " + (b + tail))
    ensures src[i + 1..] == " " + (b + tail) && src[i + 2..] == b + tail
    ensures (" " + b) + tail == " " + (b + tail)
  {
    PunctuationSpelling();
    hide Spelling;
    Assoc(" ", b, tail);
    Assoc(Spelling(Comma), " " + b, tail);
    Rest(src, i, Spelling(Comma), " " + (b + tail));
    BlankAt(src, i + 1, b + tail);
  }

  lemma LexCommaText(src: string, kw: Keywords, i: nat, b: string, ys: seq<Word>, tail: string)
    requires i + 2 <= |src| && src[i..] == (Spelling(Comma) + (" " + b)) + tail
    requires LexesTo(src, kw, i + 2, b, ys, tail)
    ensures LexesTo(src, kw, i, Spelling(Comma) + (" " + b), [OpWord(Comma)] + ys, tail)
  {
    hide LexesTo, Spelling, IsPlain, Stops;
    CommaPositions(src, i, b, tail);
    CommaStops(kw, " " + (b + tail));
    LexBlank(src, kw, i + 1, b, ys, tail);
    LexBefore(src, kw, i, OpWord(Comma), " " + b, ys, tail);
  }

  lemma CommaStops(kw: Keywords, after: string)
    ensures Stops(after, 0, Comma) && IsPlain(kw, OpWord(Comma)) && |Spelling(Comma)| == 1
  {}

  lemma NothingLexes(src: string, kw: Keywords, i: nat, tail: string)
    requires i <= |src| && src[i..] == "" + tail
    ensures LexesTo(src, kw, i, "", [], tail)
  {
    hide LexWords;
    assert LexWords(src, kw, i).Some? ==> [] + LexWords(src, kw, i).value == LexWords(src, kw, i).value;
  }

  /** The whole printed text, as the lexer sees it from its first character. */
  lemma PrintedWords(kw: Keywords, e: Expr)
    requires IsShared(kw, e)
    ensures LexWords(Print(e), kw, 0) == Some(Tokens(e) + [Word(Eof, "")])
  {
    var s := Print(e);
    assert s[0..] == s + "";
    PrintLexes(s, kw, 0, e, "");
    EndWords(s, kw);
    hide LexWords, IsShared, Print;
  }

  lemma EndWords(s: string, kw: Keywords)
    ensures LexWords(s, kw, |s|) == Some([Word(Eof, "")])
  {
    assert WordsOf([Lexeme(Word(Eof, ""), |s|)]) == [Word(Eof, "")];
  }
}
