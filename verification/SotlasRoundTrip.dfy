/** Printing, lexing and parsing undo each other; and an unparenthesized chain folds to the left. */
module SotlasRoundTrip {
  import opened Options
  import opened SotlasTokens
  import opened SotlasLexing
  import opened SotlasLexStability
  import opened SotlasParsing
  import opened SotlasStanding
  import opened SotlasPrinting
  import opened SotlasPrintLex

  // ---- the tokens of an expression parse to it ------------------------------

  /** A token after which an identifier is neither a path, a structure literal nor a label. */
  predicate Follows(k: Kind) {
    k != DColon && k != LBrace && k != Colon
  }

  /** A token that ends the postfix chain. */
  predicate EndsOperand(k: Kind) {
    Follows(k) && k != Dot && k != LBracket && k != LParen && k != KwAs && k != QMark && k != Not
  }

  predicate EndsExpr(k: Kind) {
    EndsOperand(k) && !IsBinaryOp(k)
  }

  lemma {:induction false} TokensStart(kw: Keywords, e: Expr)
    requires IsShared(kw, e)
    ensures |Tokens(e)| > 0
    ensures var k := Tokens(e)[0].kind; k == LParen || k == IntLit || k == Kind.Ident
  {
    match e
    case Call(callee, _) => TokensStart(kw, callee);
    case Index(base, _) => TokensStart(kw, base);
    case Field(base, _) => TokensStart(kw, base);
    case _ =>
  }

  /** The tokens of e at p bring the postfix loop to e, just after them. */
  lemma {:induction false} PostfixReaches(ws: seq<Word>, kw: Keywords, p: nat, e: Expr)
    requires Ended(ws) && IsShared(kw, e) && StandsAt(ws, p, Tokens(e)) && p + |Tokens(e)| < |ws|
    requires Follows(ws[p + |Tokens(e)|].kind)
    ensures ParsePostfix(ws, p) == PostfixLoop(ws, e, p + |Tokens(e)|)
    decreases e, 1
  {
    hide Clean;
    match e
    case Literal(k, text) => StandsOne(ws, p, Word(k, text));
    case Ident(name, _) => IdentReaches(ws, p, name);
    case Binary(_, _, _) => BinaryReaches(ws, kw, p, e);
    case Unary(_, _) => UnaryReaches(ws, kw, p, e);
    case Call(_, _) => CallReaches(ws, kw, p, e);
    case Index(_, _) => IndexReaches(ws, kw, p, e);
    case Field(_, _) => FieldReaches(ws, kw, p, e);
  }

  lemma IdentReaches(ws: seq<Word>, p: nat, name: string)
    requires Ended(ws) && StandsAt(ws, p, [Word(Kind.Ident, name)]) && p + 1 < |ws| && Follows(ws[p + 1].kind)
    ensures ParsePostfix(ws, p) == PostfixLoop(ws, Expr.Ident(name, []), p + 1)
  {
    StandsOne(ws, p, Word(Kind.Ident, name));
    assert PathLoop(ws, [name], p + 1) == ([name], p + 1);
    assert [name][..0] == [];
    hide PostfixLoop;
    assert ParseNamed(ws, p) == Parsed(Expr.Ident(name, []), p + 1);
  }

  /** A parenthesized expression is the expression. */
  lemma ParenReaches(ws: seq<Word>, p: nat, e: Expr, q: nat)
    requires Ended(ws) && p + 1 < q < |ws| - 1 && ws[p].kind == LParen && ws[p + 1].kind != RParen
    requires ParseExpr(ws, p + 1) == Parsed(e, q) && ws[q].kind == RParen
    ensures ParsePostfix(ws, p) == PostfixLoop(ws, e, q + 1)
  {
    hide Clean;
    ParenIsPrimary(ws, p, e, q);
    hide PostfixLoop, ParsePrimary, ParseExpr;
  }

  /** An operand: the tokens of e, then something that ends the postfix chain. */
  lemma {:induction false} OperandParses(ws: seq<Word>, kw: Keywords, p: nat, e: Expr)
    requires Ended(ws) && IsShared(kw, e) && StandsAt(ws, p, Tokens(e)) && p + |Tokens(e)| < |ws|
    requires EndsOperand(ws[p + |Tokens(e)|].kind)
    ensures |Tokens(e)| > 0 && ParseUnary(ws, p) == Parsed(e, p + |Tokens(e)|)
    decreases e, 2
  {
    hide Clean, ParseUnary, ParsePostfix, Tokens, StandsAt, IsShared;
    PostfixReaches(ws, kw, p, e);
    TokensStart(kw, e);
    StandsHead(ws, p, Tokens(e));
    PostfixEnds(ws, e, p + |Tokens(e)|);
    NotSigned(ws, p);
  }

  lemma PostfixEnds(ws: seq<Word>, e: Expr, q: nat)
    requires Ended(ws) && q < |ws| && EndsOperand(ws[q].kind)
    ensures PostfixLoop(ws, e, q) == Parsed(e, q)
  {}

  lemma {:induction false} ExprParses(ws: seq<Word>, kw: Keywords, p: nat, e: Expr)
    requires Ended(ws) && IsShared(kw, e) && StandsAt(ws, p, Tokens(e)) && p + |Tokens(e)| < |ws|
    requires EndsExpr(ws[p + |Tokens(e)|].kind)
    ensures |Tokens(e)| > 0 && ParseExpr(ws, p) == Parsed(e, p + |Tokens(e)|)
    decreases e, 3
  {
    hide Clean, ParseExpr, ParseUnary, Tokens, StandsAt, EndsOperand;
    OperandParses(ws, kw, p, e);
    OperandAlone(ws, p, e, p + |Tokens(e)|);
  }

  lemma OperandAlone(ws: seq<Word>, p: nat, e: Expr, q: nat)
    requires Ended(ws) && p < q < |ws| && ParseUnary(ws, p) == Parsed(e, q) && EndsExpr(ws[q].kind)
    ensures ParseExpr(ws, p) == Parsed(e, q)
  {
    hide ParseUnary, EndsOperand;
    assert BinaryLoop(ws, e, q) == Parsed(e, q);
    hide BinaryLoop;
  }

  lemma OperatorEnds(kw: Keywords, e: Expr)
    requires e.Binary? && IsShared(kw, e)
    ensures IsBinaryOp(e.op) && EndsOperand(e.op) && EndsOperand(RParen) && EndsExpr(RParen)
  {}

  lemma {:induction false} BinaryReaches(ws: seq<Word>, kw: Keywords, p: nat, e: Expr)
    requires e.Binary? && Ended(ws) && IsShared(kw, e) && StandsAt(ws, p, Tokens(e)) && p + |Tokens(e)| < |ws|
    ensures ParsePostfix(ws, p) == PostfixLoop(ws, e, p + |Tokens(e)|)
    decreases e, 0
  {
    hide *;
    BinaryParts(kw, e);
    OperatorEnds(kw, e);
    var l, r, op := e.left, e.right, e.op;
    BinaryTokens(ws, kw, p, e);
    var m := p + 1 + |Tokens(l)|;
    var q := m + 1 + |Tokens(r)|;
    OperandParses(ws, kw, p + 1, l);
    OperandParses(ws, kw, m + 1, r);
    ChainOfTwo(ws, p + 1, l, m, r, q);
    ParenReaches(ws, p, e, q);
  }

  /** One operator between two operands, then the end of the expression. */
  lemma ChainOfTwo(ws: seq<Word>, p: nat, l: Expr, m: nat, r: Expr, q: nat)
    requires Ended(ws) && p < m < |ws| && m + 1 < |ws| && q < |ws|
    requires ParseUnary(ws, p) == Parsed(l, m) && IsBinaryOp(ws[m].kind)
    requires ParseUnary(ws, m + 1) == Parsed(r, q) && EndsExpr(ws[q].kind)
    ensures ParseExpr(ws, p) == Parsed(Binary(ws[m].kind, l, r), q)
  {
    hide ParseUnary;
    assert BinaryLoop(ws, Binary(ws[m].kind, l, r), q) == Parsed(Binary(ws[m].kind, l, r), q);
    assert BinaryLoop(ws, l, m) == BinaryLoop(ws, Binary(ws[m].kind, l, r), q);
  }

  /** Where the tokens of a binary operation stand. */
  lemma BinaryTokens(ws: seq<Word>, kw: Keywords, p: nat, e: Expr)
    requires e.Binary? && IsShared(kw, e) && StandsAt(ws, p, Tokens(e))
    ensures var m := p + 1 + |Tokens(e.left)|;
            var q := m + 1 + |Tokens(e.right)|;
            && p + |Tokens(e)| == q + 1 <= |ws|
            && ws[p].kind == LParen && StandsAt(ws, p + 1, Tokens(e.left))
            && ws[m].kind == e.op && StandsAt(ws, m + 1, Tokens(e.right))
            && ws[q].kind == RParen && ws[p + 1].kind != RParen
  {
    hide Tokens, IsShared, Print, StandsAt, Spelling, IsCBinaryOp, InfixText;
    BinaryParts(kw, e);
    TokensStart(kw, e.left);
    InfixStands(ws, p, Tokens(e.left), OpWord(e.op), Tokens(e.right));
  }

  lemma InfixStands(ws: seq<Word>, p: nat, x: seq<Word>, o: Word, y: seq<Word>)
    requires |x| > 0 && StandsAt(ws, p, [OpWord(LParen)] + ((x + ([o] + y)) + [OpWord(RParen)]))
    ensures var m := p + 1 + |x|;
            var q := m + 1 + |y|;
            && q < |ws| && ws[p].kind == LParen && StandsAt(ws, p + 1, x) && ws[p + 1] == x[0]
            && ws[m] == o && StandsAt(ws, m + 1, y) && ws[q].kind == RParen
  {
    hide StandsAt, Spelling;
    StandsEnclosed(ws, p, OpWord(LParen), x + ([o] + y), OpWord(RParen));
    StandsAround(ws, p + 1, x, o, y);
    StandsHead(ws, p + 1, x);
  }

  lemma {:induction false} UnaryReaches(ws: seq<Word>, kw: Keywords, p: nat, e: Expr)
    requires e.Unary? && Ended(ws) && IsShared(kw, e) && StandsAt(ws, p, Tokens(e)) && p + |Tokens(e)| < |ws|
    ensures ParsePostfix(ws, p) == PostfixLoop(ws, e, p + |Tokens(e)|)
    decreases e, 0
  {
    hide Clean, ParsePostfix, PostfixLoop, ParseExpr, ParseUnary, Tokens, StandsAt, IsShared, Print, Spelling;
    UnaryParts(kw, e);
    UnaryTokens(ws, kw, p, e);
    var q := p + 2 + |Tokens(e.operand)|;
    OperandParses(ws, kw, p + 2, e.operand);
    SignedParses(ws, p + 1, e.operand, q);
    ParenReaches(ws, p, e, q);
  }

  lemma SignedParses(ws: seq<Word>, p: nat, x: Expr, q: nat)
    requires Ended(ws) && p + 1 < q < |ws| && IsUnaryOp(ws[p].kind) && ws[p + 1].kind != KwMut
    requires ParseUnary(ws, p + 1) == Parsed(x, q) && EndsExpr(ws[q].kind)
    ensures ParseExpr(ws, p) == Parsed(Unary(ws[p].kind, x), q)
  {
    SignedOperand(ws, p, x, q);
    hide ParseExpr, ParseUnary;
    OperandAlone(ws, p, Unary(ws[p].kind, x), q);
  }

  lemma SignedOperand(ws: seq<Word>, p: nat, x: Expr, q: nat)
    requires Ended(ws) && p + 1 < q < |ws| && IsUnaryOp(ws[p].kind) && ws[p + 1].kind != KwMut
    requires ParseUnary(ws, p + 1) == Parsed(x, q)
    ensures ParseUnary(ws, p) == Parsed(Unary(ws[p].kind, x), q)
  {
    hide ParsePostfix;
  }

  lemma UnaryTokens(ws: seq<Word>, kw: Keywords, p: nat, e: Expr)
    requires e.Unary? && IsShared(kw, e) && StandsAt(ws, p, Tokens(e))
    ensures var q := p + 2 + |Tokens(e.operand)|;
            && p + |Tokens(e)| == q + 1 <= |ws|
            && ws[p].kind == LParen && ws[p + 1].kind == e.op && IsUnaryOp(e.op)
            && StandsAt(ws, p + 2, Tokens(e.operand)) && ws[p + 2].kind != KwMut
            && ws[q].kind == RParen
  {
    hide Tokens, IsShared, Print, StandsAt, Spelling, IsCUnaryOp;
    UnaryParts(kw, e);
    CUnaryIsUnary(e.op);
    TokensStart(kw, e.operand);
    PrefixStands(ws, p, OpWord(e.op), Tokens(e.operand));
  }

  lemma PrefixStands(ws: seq<Word>, p: nat, o: Word, x: seq<Word>)
    requires |x| > 0 && StandsAt(ws, p, [OpWord(LParen)] + (([o] + x) + [OpWord(RParen)]))
    ensures var q := p + 2 + |x|;
            && q < |ws| && ws[p].kind == LParen && ws[p + 1] == o
            && StandsAt(ws, p + 2, x) && ws[p + 2] == x[0] && ws[q].kind == RParen
  {
    hide StandsAt, Spelling;
    StandsEnclosed(ws, p, OpWord(LParen), [o] + x, OpWord(RParen));
    StandsSplit(ws, p + 1, [o], x);
    StandsOne(ws, p + 1, o);
    StandsHead(ws, p + 2, x);
  }

  lemma CUnaryIsUnary(k: Kind)
    requires IsCUnaryOp(k)
    ensures IsUnaryOp(k)
  {}

  lemma BracketsEnd()
    ensures Follows(LBracket) && EndsExpr(RBracket)
  {}

  lemma {:induction false} IndexReaches(ws: seq<Word>, kw: Keywords, p: nat, e: Expr)
    requires e.Index? && Ended(ws) && IsShared(kw, e) && StandsAt(ws, p, Tokens(e)) && p + |Tokens(e)| < |ws|
    ensures ParsePostfix(ws, p) == PostfixLoop(ws, e, p + |Tokens(e)|)
    decreases e, 0
  {
    hide *;
    BracketsEnd();
    IndexTokens(ws, kw, p, e);
    PostfixReaches(ws, kw, p, e.base);
    BracketReaches(ws, kw, p + |Tokens(e.base)|, e.base, e.index);
  }

  lemma {:induction false} BracketReaches(ws: seq<Word>, kw: Keywords, m: nat, base: Expr, index: Expr)
    requires Ended(ws) && IsShared(kw, index) && StandsAt(ws, m + 1, Tokens(index)) && m + 2 + |Tokens(index)| < |ws|
    requires ws[m].kind == LBracket && ws[m + 1].kind != DotDot && ws[m + 1 + |Tokens(index)|].kind == RBracket
    ensures PostfixLoop(ws, base, m) == PostfixLoop(ws, Index(base, index), m + 2 + |Tokens(index)|)
    decreases index, 4
  {
    hide *;
    BracketsEnd();
    ExprParses(ws, kw, m + 1, index);
    IndexStep(ws, m, base, index, m + 1 + |Tokens(index)|);
  }

  lemma SuffixParts(kw: Keywords, e: Expr)
    requires IsShared(kw, e)
    ensures e.Index? ==> IsShared(kw, e.base) && IsShared(kw, e.index)
    ensures e.Index? ==> Tokens(e) == Tokens(e.base) + ([OpWord(LBracket)] + (Tokens(e.index) + [OpWord(RBracket)]))
    ensures e.Call? ==> IsShared(kw, e.callee) && AreShared(kw, e.args)
    ensures e.Call? ==> Tokens(e) == Tokens(e.callee) + ([OpWord(LParen)] + (ArgTokens(e.args) + [OpWord(RParen)]))
  {
    hide Spelling;
  }

  lemma IndexTokens(ws: seq<Word>, kw: Keywords, p: nat, e: Expr)
    requires e.Index? && IsShared(kw, e) && StandsAt(ws, p, Tokens(e))
    ensures var m := p + |Tokens(e.base)|;
            var q := m + 1 + |Tokens(e.index)|;
            && p + |Tokens(e)| == q + 1 <= |ws| && IsShared(kw, e.base) && IsShared(kw, e.index)
            && StandsAt(ws, p, Tokens(e.base)) && ws[m].kind == LBracket
            && StandsAt(ws, m + 1, Tokens(e.index)) && ws[q].kind == RBracket && ws[m + 1].kind != DotDot
  {
    hide Tokens, StandsAt, Spelling, IsShared;
    SuffixParts(kw, e);
    var x, y := Tokens(e.base), Tokens(e.index);
    TokensStart(kw, e.index);
    StandsSplit(ws, p, x, [OpWord(LBracket)] + (y + [OpWord(RBracket)]));
    StandsEnclosed(ws, p + |x|, OpWord(LBracket), y, OpWord(RBracket));
    StandsHead(ws, p + |x| + 1, y);
  }

  lemma {:induction false} FieldReaches(ws: seq<Word>, kw: Keywords, p: nat, e: Expr)
    requires e.Field? && Ended(ws) && IsShared(kw, e) && StandsAt(ws, p, Tokens(e)) && p + |Tokens(e)| < |ws|
    ensures ParsePostfix(ws, p) == PostfixLoop(ws, e, p + |Tokens(e)|)
    decreases e, 0
  {
    hide Clean, ParsePostfix, PostfixLoop, Tokens, StandsAt, Spelling, IsShared, IsIdentText, Print;
    FieldParts(kw, e);
    var x := Tokens(e.base);
    var w := Word(Kind.Ident, e.field);
    StandsAround(ws, p, x, OpWord(Dot), [w]);
    StandsOne(ws, p + |x| + 1, w);
    PostfixReaches(ws, kw, p, e.base);
    FieldStep(ws, p + |x|, e.base, e.field);
  }

  /** A method call is parsed in one go, to the same effect as a field followed by a call. */
  lemma FieldStep(ws: seq<Word>, m: nat, base: Expr, field: string)
    requires Ended(ws) && m + 2 < |ws| && ws[m].kind == Dot && ws[m + 1] == Word(Kind.Ident, field)
    ensures PostfixLoop(ws, base, m) == PostfixLoop(ws, Field(base, field), m + 2)
  {
    hide Clean;
    MemberOnly(ws, m + 1, base, field);
    hide ParseCallArgs, ParseMember;
    assert ParseDot(ws, base, m + 1) == ParseMember(ws, base, m + 1);
  }

  lemma MemberOnly(ws: seq<Word>, p: nat, base: Expr, field: string)
    requires Ended(ws) && p + 1 < |ws| && ws[p] == Word(Kind.Ident, field)
    ensures ws[p + 1].kind != LParen ==> ParseMember(ws, base, p) == Parsed(Field(base, field), p + 1)
    ensures ws[p + 1].kind == LParen ==>
              p + 2 < |ws| &&
              var call := ParseCallArgs(ws, p + 2);
              ParseMember(ws, base, p) ==
                if call.Parsed? then Parsed(Call(Field(base, field), call.value), call.next) else Bad(call.fault, call.at)
  {
    hide ParseCallArgs;
  }

  lemma {:induction false} CallReaches(ws: seq<Word>, kw: Keywords, p: nat, e: Expr)
    requires e.Call? && Ended(ws) && IsShared(kw, e) && StandsAt(ws, p, Tokens(e)) && p + |Tokens(e)| < |ws|
    ensures ParsePostfix(ws, p) == PostfixLoop(ws, e, p + |Tokens(e)|)
    decreases e, 0
  {
    hide Clean, ParsePostfix, PostfixLoop, ParseExpr, ParseArgList, Tokens, ArgTokens, StandsAt, IsShared, AreShared;
    CallTokens(ws, kw, p, e);
    var m := p + |Tokens(e.callee)|;
    PostfixReaches(ws, kw, p, e.callee);
    ArgsParse(ws, kw, m + 1, e.args);
    CallStep(ws, m, e.callee, e.args, m + 1 + |ArgTokens(e.args)|);
  }

  lemma CallTokens(ws: seq<Word>, kw: Keywords, p: nat, e: Expr)
    requires e.Call? && IsShared(kw, e) && StandsAt(ws, p, Tokens(e))
    ensures var m := p + |Tokens(e.callee)|;
            var q := m + 1 + |ArgTokens(e.args)|;
            && p + |Tokens(e)| == q + 1 <= |ws| && IsShared(kw, e.callee) && AreShared(kw, e.args)
            && StandsAt(ws, p, Tokens(e.callee)) && ws[m].kind == LParen
            && StandsAt(ws, m + 1, ArgTokens(e.args)) && ws[q].kind == RParen
  {
    hide Tokens, ArgTokens, StandsAt, Spelling, IsShared, AreShared;
    SuffixParts(kw, e);
    var x, y := Tokens(e.callee), ArgTokens(e.args);
    StandsSplit(ws, p, x, [OpWord(LParen)] + (y + [OpWord(RParen)]));
    StandsEnclosed(ws, p + |x|, OpWord(LParen), y, OpWord(RParen));
  }

  lemma {:induction false} ArgsParse(ws: seq<Word>, kw: Keywords, p: nat, args: seq<Arg>)
    requires Ended(ws) && AreShared(kw, args) && StandsAt(ws, p, ArgTokens(args)) && p + |ArgTokens(args)| < |ws|
    requires ws[p + |ArgTokens(args)|].kind == RParen
    ensures ParseArgList(ws, p) == Parsed(args, p + |ArgTokens(args)|)
    decreases args, 1
  {
    hide Clean, Ended, StandsAt, Tokens, MoreArgTokens, ArgTokens, IsShared, AreShared, ParseArg, ParseArgList, ArgLoop, EndsExpr;
    if args == [] {
      NoArgs(ws, p);
    } else {
      assert args decreases to args[0];
      ArgStands(ws, kw, p, args);
      var n := p + |Tokens(args[0].value)|;
      AfterArg(ws, n, args[1..]);
      ArgParses(ws, kw, p, args[0]);
      ArgLoopReaches(ws, kw, n, [args[0]], args[1..]);
      Regroup([], args);
      FirstArg(ws, p, args[0], n);
    }
  }

  lemma NoArgs(ws: seq<Word>, p: nat)
    requires Ended(ws) && p < |ws|
    ensures ArgTokens([]) == [] && (ws[p].kind == RParen ==> ParseArgList(ws, p) == Parsed([], p))
  {}

  lemma ArgStands(ws: seq<Word>, kw: Keywords, p: nat, args: seq<Arg>)
    requires args != [] && AreShared(kw, args) && StandsAt(ws, p, ArgTokens(args))
    ensures args[0].tag.None? && IsShared(kw, args[0].value) && AreShared(kw, args[1..])
    ensures var x, y := Tokens(args[0].value), MoreArgTokens(args[1..]);
            && |x| > 0 && p < |ws| && ws[p].kind != RParen
            && StandsAt(ws, p, x) && StandsAt(ws, p + |x|, y) && |ArgTokens(args)| == |x| + |y|
  {
    hide StandsAt, Tokens, MoreArgTokens, IsShared, Spelling;
    var x, y := Tokens(args[0].value), MoreArgTokens(args[1..]);
    TokensStart(kw, args[0].value);
    StandsSplit(ws, p, x, y);
    StandsHead(ws, p, x);
  }

  lemma Regroup(have: seq<Arg>, rest: seq<Arg>)
    requires rest != []
    ensures (have + [rest[0]]) + rest[1..] == have + rest
    ensures [rest[0]] + rest[1..] == rest
  {}

  lemma FirstArg(ws: seq<Word>, p: nat, a: Arg, n: nat)
    requires Ended(ws) && p < |ws| && ws[p].kind != RParen && n < |ws| && ParseArg(ws, p) == Parsed(a, n)
    ensures ParseArgList(ws, p) == ArgLoop(ws, [a], n)
  {
    hide Clean, ParseArg, ArgLoop;
  }

  /** What stands after an argument ends it. */
  lemma AfterArg(ws: seq<Word>, q: nat, rest: seq<Arg>)
    requires StandsAt(ws, q, MoreArgTokens(rest)) && q + |MoreArgTokens(rest)| < |ws|
    requires ws[q + |MoreArgTokens(rest)|].kind == RParen
    ensures EndsExpr(ws[q].kind)
  {
    hide Tokens;
    if rest != [] {
      StandsHead(ws, q, MoreArgTokens(rest));
    }
  }

  /** The argument loop appends the arguments whose tokens stand at q. */
  lemma {:induction false} ArgLoopReaches(ws: seq<Word>, kw: Keywords, q: nat, have: seq<Arg>, rest: seq<Arg>)
    requires Ended(ws) && AreShared(kw, rest) && StandsAt(ws, q, MoreArgTokens(rest)) && q + |MoreArgTokens(rest)| < |ws|
    requires ws[q + |MoreArgTokens(rest)|].kind == RParen
    ensures ArgLoop(ws, have, q) == Parsed(have + rest, q + |MoreArgTokens(rest)|)
    decreases rest, 1
  {
    hide Clean, Ended, StandsAt, Tokens, MoreArgTokens, IsShared, AreShared, ParseArg, ArgLoop, EndsExpr;
    if rest == [] {
      NoMoreArgs(ws, q, have);
    } else {
      assert rest decreases to rest[0];
      MoreArgStands(ws, kw, q, rest);
      var n := q + 1 + |Tokens(rest[0].value)|;
      AfterArg(ws, n, rest[1..]);
      ArgParses(ws, kw, q + 1, rest[0]);
      ArgLoopReaches(ws, kw, n, have + [rest[0]], rest[1..]);
      ArgLoopTakes(ws, have, q, rest[0], n);
      Regroup(have, rest);
    }
  }

  lemma NoMoreArgs(ws: seq<Word>, q: nat, have: seq<Arg>)
    requires Ended(ws) && q < |ws|
    ensures MoreArgTokens([]) == [] && (ws[q].kind == RParen ==> ArgLoop(ws, have, q) == Parsed(have + [], q))
  {
    assert have + [] == have;
  }

  lemma MoreArgParts(kw: Keywords, rest: seq<Arg>)
    requires rest != [] && AreShared(kw, rest)
    ensures rest[0].tag.None? && IsShared(kw, rest[0].value) && AreShared(kw, rest[1..])
    ensures MoreArgTokens(rest) == [OpWord(Comma)] + (Tokens(rest[0].value) + MoreArgTokens(rest[1..]))
    ensures Comma.IsOperator() && OpWord(Comma).kind == Comma
  {
    hide Tokens, IsShared, Spelling;
  }

  lemma MoreArgStands(ws: seq<Word>, kw: Keywords, q: nat, rest: seq<Arg>)
    requires rest != [] && AreShared(kw, rest) && StandsAt(ws, q, MoreArgTokens(rest))
    ensures rest[0].tag.None? && IsShared(kw, rest[0].value) && AreShared(kw, rest[1..])
    ensures var x, y := Tokens(rest[0].value), MoreArgTokens(rest[1..]);
            && |x| > 0 && q + 1 < |ws| && ws[q].kind == Comma && ws[q + 1].kind != RParen
            && StandsAt(ws, q + 1, x) && StandsAt(ws, q + 1 + |x|, y)
            && |MoreArgTokens(rest)| == 1 + |x| + |y|
  {
    hide *;
    var x, y := Tokens(rest[0].value), MoreArgTokens(rest[1..]);
    MoreArgParts(kw, rest);
    TokensStart(kw, rest[0].value);
    StandsSplit(ws, q, [OpWord(Comma)], x + y);
    StandsOne(ws, q, OpWord(Comma));
    StandsSplit(ws, q + 1, x, y);
    StandsHead(ws, q + 1, x);
  }

  lemma ArgLoopTakes(ws: seq<Word>, have: seq<Arg>, q: nat, a: Arg, next: nat)
    requires Ended(ws) && q + 1 < |ws| && next < |ws| && ws[q].kind == Comma && ws[q + 1].kind != RParen
    requires ParseArg(ws, q + 1) == Parsed(a, next)
    ensures ArgLoop(ws, have, q) == ArgLoop(ws, have + [a], next)
  {
    hide Clean, ParseArg;
  }

  lemma {:induction false} ArgParses(ws: seq<Word>, kw: Keywords, p: nat, a: Arg)
    requires Ended(ws) && a.tag.None? && IsShared(kw, a.value) && StandsAt(ws, p, Tokens(a.value))
    requires p + |Tokens(a.value)| < |ws| && EndsExpr(ws[p + |Tokens(a.value)|].kind)
    ensures ParseArg(ws, p) == Parsed(a, p + |Tokens(a.value)|)
    decreases a, 0
  {
    hide Clean;
    ExprParses(ws, kw, p, a.value);
    NoLabel(ws, kw, p, a.value);
    hide ParseExpr, Tokens;
  }

  /** No colon stands after the first token. */
  lemma NoLabel(ws: seq<Word>, kw: Keywords, p: nat, e: Expr)
    requires IsShared(kw, e) && StandsAt(ws, p, Tokens(e)) && p + |Tokens(e)| < |ws|
    requires EndsExpr(ws[p + |Tokens(e)|].kind)
    ensures p + 1 < |ws| && ws[p + 1].kind != Colon
  {
    TokensStart(kw, e);
    NoColons(kw, e);
    if |Tokens(e)| > 1 {
      assert ws[p + 1] == ws[p..p + |Tokens(e)|][1];
    }
  }

  predicate NoColon(ws: seq<Word>) {
    forall k :: 0 <= k < |ws| ==> ws[k].kind != Colon
  }

  lemma NoColonJoin(xs: seq<Word>, ys: seq<Word>)
    requires NoColon(xs) && NoColon(ys)
    ensures NoColon(xs + ys)
  {}

  lemma {:induction false} NoColons(kw: Keywords, e: Expr)
    requires IsShared(kw, e)
    ensures NoColon(Tokens(e))
    decreases e, 1
  {
    hide Tokens, NoColon, IsShared;
    if e.Binary? || e.Unary? {
      NoColonsOperator(kw, e);
    } else if e.Call? || e.Index? || e.Field? {
      NoColonsSuffix(kw, e);
    } else {
      LeafNoColon(kw, e);
    }
  }

  lemma {:induction false} NoColonsOperator(kw: Keywords, e: Expr)
    requires IsShared(kw, e) && (e.Binary? || e.Unary?)
    ensures NoColon(Tokens(e))
    decreases e, 0
  {
    hide Tokens, NoColon, Spelling, IsShared, Print;
    if e.Binary? {
      BinaryParts(kw, e);
      NoColons(kw, e.left);
      NoColons(kw, e.right);
      SurroundNoColon(Tokens(e.left), e.op, Tokens(e.right));
    } else {
      UnaryParts(kw, e);
      NoColons(kw, e.operand);
      OneNoColon(e.op);
      EncloseNoColon(LParen, [OpWord(e.op)], Tokens(e.operand), RParen);
    }
  }

  lemma {:induction false} NoColonsSuffix(kw: Keywords, e: Expr)
    requires IsShared(kw, e) && (e.Call? || e.Index? || e.Field?)
    ensures NoColon(Tokens(e))
    decreases e, 0
  {
    hide Tokens, ArgTokens, NoColon, Spelling, IsShared, AreShared, Print, IsIdentText;
    if e.Call? {
      SuffixParts(kw, e);
      NoColons(kw, e.callee);
      NoColonArgs(kw, e.args);
      SuffixNoColon(Tokens(e.callee), LParen, ArgTokens(e.args), RParen);
    } else if e.Index? {
      SuffixParts(kw, e);
      NoColons(kw, e.base);
      NoColons(kw, e.index);
      SuffixNoColon(Tokens(e.base), LBracket, Tokens(e.index), RBracket);
    } else {
      FieldParts(kw, e);
      NoColons(kw, e.base);
      DotNoColon(e.field);
      NoColonJoin(Tokens(e.base), [OpWord(Dot)] + [Word(Kind.Ident, e.field)]);
    }
  }

  lemma LeafNoColon(kw: Keywords, e: Expr)
    requires IsShared(kw, e) && !e.Binary? && !e.Unary? && !e.Call? && !e.Index? && !e.Field?
    ensures NoColon(Tokens(e))
  {}

  lemma OneNoColon(k: Kind)
    requires k.IsOperator() && k != Colon
    ensures NoColon([OpWord(k)])
  {
    hide Spelling;
  }

  lemma DotNoColon(f: string)
    ensures NoColon([OpWord(Dot)] + [Word(Kind.Ident, f)])
  {
    hide Spelling;
  }

  lemma EncloseNoColon(open: Kind, first: seq<Word>, x: seq<Word>, close: Kind)
    requires open.IsOperator() && close.IsOperator() && open != Colon && close != Colon
    requires NoColon(first) && NoColon(x)
    ensures NoColon([OpWord(open)] + ((first + x) + [OpWord(close)]))
  {
    hide Spelling;
  }

  lemma SuffixNoColon(base: seq<Word>, open: Kind, x: seq<Word>, close: Kind)
    requires open.IsOperator() && close.IsOperator() && open != Colon && close != Colon
    requires NoColon(base) && NoColon(x)
    ensures NoColon(base + ([OpWord(open)] + (x + [OpWord(close)])))
  {
    hide Spelling;
  }

  lemma SurroundNoColon(x: seq<Word>, op: Kind, y: seq<Word>)
    requires NoColon(x) && NoColon(y) && op.IsOperator() && op != Colon
    ensures NoColon([OpWord(LParen)] + ((x + ([OpWord(op)] + y)) + [OpWord(RParen)]))
  {
    hide Spelling;
  }

  lemma {:induction false} NoColonArgs(kw: Keywords, args: seq<Arg>)
    requires AreShared(kw, args)
    ensures NoColon(ArgTokens(args)) && NoColon(MoreArgTokens(args))
    decreases args
  {
    if args != [] {
      assert args decreases to args[0];
      hide Tokens, Spelling;
      var x, y := Tokens(args[0].value), MoreArgTokens(args[1..]);
      NoColons(kw, args[0].value);
      NoColonArgs(kw, args[1..]);
      NoColonJoin(x, y);
      NoColonJoin([OpWord(Comma)], x + y);
    }
  }
}
