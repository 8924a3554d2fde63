/** The two main results about the expression language: when printed text parses back to the tree
    it came from, and what an operator chain without parentheses parses to. */
module SotlasTheorems {
  import opened Options
  import opened SotlasTokens
  import opened SotlasLexing
  import opened SotlasLexStability
  import opened SotlasParsing
  import opened SotlasPrinting
  import opened SotlasPrintLex
  import opened SotlasRoundTrip

  // ---- from text to tree ----------------------------------------------------

  lemma {:induction false} ResolveKeepsEnd(ws: seq<Word>)
    requires Ended(ws)
    ensures Ended(ResolveWords(ws))
  {
    if |ws| > 2 && FusesAt(ws[0], ws[1], ws[2]) {
      ResolveKeepsEnd(ws[3..]);
    } else if |ws| > 1 {
      ResolveKeepsEnd(ws[1..]);
    } else {
      assert ResolveWords(ws[1..]) == [];
    }
  }

  /** Lex the text, resolve compound keywords, and parse all of it as one expression. */
  function ParseText(s: string, kw: Keywords): Option<Expr>
  {
    match LexWords(s, kw, 0)
    case None => None
    case Some(raw) =>
      if !Ended(raw) then None
      else
        ResolveKeepsEnd(raw);
        match ParseWhole(ResolveWords(raw))
        case Parsed(e, _) => Some(e)
        case Bad(_, _) => None
  }

  /** ParseText works on the very words that Lex yields. */
  lemma LexGivesWords(s: string, kw: Keywords)
    ensures Lex(s, kw).LexError? <==> LexWords(s, kw, 0).None?
    ensures Lex(s, kw).Lexemes? ==>
              && Ended(LexWords(s, kw, 0).value)
              && WordsOf(Lex(s, kw).items) == ResolveWords(LexWords(s, kw, 0).value)
  {
    if LexFrom(s, kw, 0).Lexemes? {
      ResolveCommutes(LexFrom(s, kw, 0).items);
    }
  }

  // ---- where the compound keyword gets in the way ---------------------------

  /** The last token of the printed expression is the identifier co. */
  predicate EndsInCo(e: Expr) {
    (e.Ident? && e.name == "co") || (e.Field? && e.field == "co")
  }

  /** The first token of the printed expression is the identifier owned. */
  predicate StartsWithOwned(e: Expr) {
    match e
    case Ident(name, _) => name == "owned"
    case Call(callee, _) => StartsWithOwned(callee)
    case Index(base, _) => StartsWithOwned(base)
    case Field(base, _) => StartsWithOwned(base)
    case _ => false
  }

  /** Somewhere an operand ending in co is followed by minus and one starting with owned. */
  predicate Clashes(e: Expr) {
    match e
    case Binary(op, l, r) => (op == Minus && EndsInCo(l) && StartsWithOwned(r)) || Clashes(l) || Clashes(r)
    case Unary(_, x) => Clashes(x)
    case Call(callee, args) => Clashes(callee) || ArgsClash(args)
    case Index(base, index) => Clashes(base) || Clashes(index)
    case Field(base, _) => Clashes(base)
    case _ => false
  }

  predicate ArgsClash(args: seq<Arg>) {
    args != [] && (assert args decreases to args[0]; Clashes(args[0].value) || ArgsClash(args[1..]))
  }

  predicate FusesIn(ws: seq<Word>, k: int) {
    0 <= k < |ws| - 2 && FusesAt(ws[k], ws[k + 1], ws[k + 2])
  }

  ghost predicate Fusion(ws: seq<Word>) {
    exists k :: FusesIn(ws, k)
  }

  predicate Seam(x: seq<Word>, o: Word, y: seq<Word>) {
    o.kind == Minus && x != [] && x[|x| - 1] == Word(Kind.Ident, "co") && y != [] && y[0] == Word(Kind.Ident, "owned")
  }

  /** Fusions of a list around a token that is no identifier: inside one part, or across it. */
  lemma FusionAround(x: seq<Word>, o: Word, y: seq<Word>)
    requires o.kind != Kind.Ident
    ensures Fusion(x + ([o] + y)) <==> Fusion(x) || Fusion(y) || Seam(x, o, y)
  {
    var all := x + ([o] + y);
    var n := |x|;
    forall k | FusesIn(x, k) ensures Fusion(all) { FusionLeft(x, o, y, k); assert FusesIn(all, k); }
    forall k | FusesIn(y, k) ensures Fusion(all) { FusionRight(x, o, y, k); assert FusesIn(all, n + 1 + k); }
    FusionAcross(x, o, y);
    if Seam(x, o, y) { assert FusesIn(all, n - 1); }
    if Fusion(all) {
      var k :| FusesIn(all, k);
      FusionWhere(x, o, y, k);
      FusionLeft(x, o, y, k);
      FusionRight(x, o, y, k - n - 1);
    }
  }

  lemma FusionLeft(x: seq<Word>, o: Word, y: seq<Word>, k: int)
    requires o.kind != Kind.Ident
    ensures k + 2 < |x| ==> (FusesIn(x + ([o] + y), k) <==> FusesIn(x, k))
  {
    hide FusesAt;
  }

  lemma FusionRight(x: seq<Word>, o: Word, y: seq<Word>, k: int)
    requires o.kind != Kind.Ident
    ensures 0 <= k ==> (FusesIn(x + ([o] + y), |x| + 1 + k) <==> FusesIn(y, k))
  {
    hide FusesAt;
    if 0 <= k < |y| - 2 {
      var all, n := x + ([o] + y), |x| + 1;
      assert all[n + k] == y[k] && all[n + k + 1] == y[k + 1] && all[n + k + 2] == y[k + 2];
    }
  }

  lemma FusionAcross(x: seq<Word>, o: Word, y: seq<Word>)
    ensures FusesIn(x + ([o] + y), |x| - 1) <==> Seam(x, o, y)
  {
    if x != [] && y != [] {
      var all, n := x + ([o] + y), |x|;
      assert all[n - 1] == x[n - 1] && all[n] == o && all[n + 1] == y[0];
    }
  }

  lemma FusionWhere(x: seq<Word>, o: Word, y: seq<Word>, k: int)
    requires o.kind != Kind.Ident && FusesIn(x + ([o] + y), k)
    ensures k + 2 < |x| || k == |x| - 1 || k > |x|
  {
    assert (x + ([o] + y))[|x|] == o;
  }

  lemma NothingFuses()
    ensures !Fusion([])
  {}

  /** A blocking token in front or behind adds no fusion. */
  lemma FusionEnclosed(open: Kind, x: seq<Word>, close: Kind)
    requires open.IsOperator() && close.IsOperator() && open != Minus && close != Minus
    ensures Fusion([OpWord(open)] + (x + [OpWord(close)])) <==> Fusion(x)
  {
    hide Fusion, Spelling;
    NothingFuses();
    FusionAround(x, OpWord(close), []);
    assert x + ([OpWord(close)] + []) == x + [OpWord(close)];
    FusionAround([], OpWord(open), x + [OpWord(close)]);
    assert [] + ([OpWord(open)] + (x + [OpWord(close)])) == [OpWord(open)] + (x + [OpWord(close)]);
  }

  lemma {:induction false} TokenEnds(kw: Keywords, e: Expr)
    requires IsShared(kw, e)
    ensures |Tokens(e)| > 0
    ensures EndsInCo(e) <==> Tokens(e)[|Tokens(e)| - 1] == Word(Kind.Ident, "co")
    ensures StartsWithOwned(e) <==> Tokens(e)[0] == Word(Kind.Ident, "owned")
  {
    hide Spelling;
    match e
    case Call(callee, _) => TokenEnds(kw, callee);
    case Index(base, _) => TokenEnds(kw, base);
    case Field(base, _) => TokenEnds(kw, base);
    case _ =>
  }

  lemma {:induction false} FusionIsClash(kw: Keywords, e: Expr)
    requires IsShared(kw, e)
    ensures Fusion(Tokens(e)) <==> Clashes(e)
    decreases e, 1
  {
    hide Fusion, Tokens, ArgTokens, IsShared, AreShared, Print, Spelling, IsCBinaryOp, IsCUnaryOp, IsIdentText, EndsInCo, StartsWithOwned, Clashes;
    if e.Binary? {
      BinaryParts(kw, e);
      FusionIsClash(kw, e.left);
      FusionIsClash(kw, e.right);
      BinaryFusion(kw, e);
    } else if e.Unary? {
      UnaryParts(kw, e);
      FusionIsClash(kw, e.operand);
      UnaryFusion(kw, e);
    } else if e.Call? {
      SuffixParts(kw, e);
      FusionIsClash(kw, e.callee);
      CallFusion(kw, e);
    } else if e.Index? {
      SuffixParts(kw, e);
      FusionIsClash(kw, e.base);
      FusionIsClash(kw, e.index);
      IndexFusion(kw, e);
    } else if e.Field? {
      FieldParts(kw, e);
      FusionIsClash(kw, e.base);
      FieldFusion(kw, e);
    } else {
      LeafNeverFuses(kw, e);
    }
  }

  lemma BinaryFusion(kw: Keywords, e: Expr)
    requires e.Binary? && IsShared(kw, e) && IsShared(kw, e.left) && IsShared(kw, e.right)
    requires (Fusion(Tokens(e.left)) <==> Clashes(e.left)) && (Fusion(Tokens(e.right)) <==> Clashes(e.right))
    ensures Fusion(Tokens(e)) <==> Clashes(e)
  {
    hide Fusion, Tokens, ArgTokens, IsShared, AreShared, Print, Spelling, IsCBinaryOp, IsCUnaryOp, IsIdentText, EndsInCo, StartsWithOwned;
    BinaryParts(kw, e);
    TokenEnds(kw, e.left);
    TokenEnds(kw, e.right);
    FusionAround(Tokens(e.left), OpWord(e.op), Tokens(e.right));
    FusionEnclosed(LParen, Tokens(e.left) + ([OpWord(e.op)] + Tokens(e.right)), RParen);
  }

  lemma UnaryFusion(kw: Keywords, e: Expr)
    requires e.Unary? && IsShared(kw, e) && (Fusion(Tokens(e.operand)) <==> Clashes(e.operand))
    ensures Fusion(Tokens(e)) <==> Clashes(e)
  {
    hide Fusion, Tokens, ArgTokens, IsShared, AreShared, Print, Spelling, IsCBinaryOp, IsCUnaryOp, IsIdentText, EndsInCo, StartsWithOwned;
    UnaryParts(kw, e);
    FusionPrefixed(OpWord(e.op), Tokens(e.operand));
    FusionEnclosed(LParen, [OpWord(e.op)] + Tokens(e.operand), RParen);
  }

  lemma {:induction false} CallFusion(kw: Keywords, e: Expr)
    requires e.Call? && IsShared(kw, e) && (Fusion(Tokens(e.callee)) <==> Clashes(e.callee))
    ensures Fusion(Tokens(e)) <==> Clashes(e)
    decreases e, 0
  {
    hide Fusion, Tokens, ArgTokens, IsShared, AreShared, Print, Spelling, IsCBinaryOp, IsCUnaryOp, IsIdentText, EndsInCo, StartsWithOwned;
    SuffixParts(kw, e);
    ArgFusions(kw, e.args);
    FusionSuffixed(Tokens(e.callee), LParen, ArgTokens(e.args), RParen);
  }

  lemma IndexFusion(kw: Keywords, e: Expr)
    requires e.Index? && IsShared(kw, e) && (Fusion(Tokens(e.base)) <==> Clashes(e.base)) && (Fusion(Tokens(e.index)) <==> Clashes(e.index))
    ensures Fusion(Tokens(e)) <==> Clashes(e)
  {
    hide Fusion, Tokens, ArgTokens, IsShared, AreShared, Print, Spelling, IsCBinaryOp, IsCUnaryOp, IsIdentText, EndsInCo, StartsWithOwned;
    SuffixParts(kw, e);
    FusionSuffixed(Tokens(e.base), LBracket, Tokens(e.index), RBracket);
  }

  lemma FieldFusion(kw: Keywords, e: Expr)
    requires e.Field? && IsShared(kw, e) && (Fusion(Tokens(e.base)) <==> Clashes(e.base))
    ensures Fusion(Tokens(e)) <==> Clashes(e)
  {
    hide Fusion, Tokens, ArgTokens, IsShared, AreShared, Print, Spelling, IsCBinaryOp, IsCUnaryOp, IsIdentText, EndsInCo, StartsWithOwned;
    FieldParts(kw, e);
    FusionAround(Tokens(e.base), OpWord(Dot), [Word(Kind.Ident, e.field)]);
    OneNeverFuses(Word(Kind.Ident, e.field));
  }

  lemma OneNeverFuses(w: Word)
    ensures !Fusion([w])
  {}

  lemma LeafNeverFuses(kw: Keywords, e: Expr)
    requires IsShared(kw, e) && !e.Binary? && !e.Unary? && !e.Call? && !e.Index? && !e.Field?
    ensures !Fusion(Tokens(e)) && !Clashes(e)
  {}

  lemma FusionPrefixed(o: Word, x: seq<Word>)
    requires o.kind != Kind.Ident
    ensures Fusion([o] + x) <==> Fusion(x)
  {
    hide Fusion;
    NothingFuses();
    FusionAround([], o, x);
    assert [] + ([o] + x) == [o] + x;
  }

  lemma FusionSuffixed(b: seq<Word>, open: Kind, x: seq<Word>, close: Kind)
    requires open.IsOperator() && close.IsOperator() && open != Minus && close != Minus
    ensures Fusion(b + ([OpWord(open)] + (x + [OpWord(close)]))) <==> Fusion(b) || Fusion(x)
  {
    hide Fusion, Spelling;
    NothingFuses();
    FusionAround(x, OpWord(close), []);
    assert x + ([OpWord(close)] + []) == x + [OpWord(close)];
    FusionAround(b, OpWord(open), x + [OpWord(close)]);
  }

  lemma {:induction false} ArgFusions(kw: Keywords, args: seq<Arg>)
    requires AreShared(kw, args)
    ensures Fusion(ArgTokens(args)) <==> ArgsClash(args)
    decreases args, 1
  {
    hide Fusion;
    if args == [] {
      NothingFuses();
    } else {
      ArgThenMoreFusions(kw, args);
    }
  }

  lemma {:induction false} ArgThenMoreFusions(kw: Keywords, args: seq<Arg>)
    requires args != [] && AreShared(kw, args)
    ensures Fusion(Tokens(args[0].value) + MoreArgTokens(args[1..])) <==> ArgsClash(args)
    decreases args, 0
  {
    hide Fusion, Tokens, Clashes, IsShared, Spelling;
    assert args decreases to args[0];
    var x := Tokens(args[0].value);
    FusionIsClash(kw, args[0].value);
    if |args| == 1 {
      assert x + MoreArgTokens(args[1..]) == x;
    } else {
      var rest := args[1..];
      ArgThenMoreFusions(kw, rest);
      var y := Tokens(rest[0].value) + MoreArgTokens(rest[1..]);
      FusionAround(x, OpWord(Comma), y);
    }
  }

  // ---- the printed text parses back, unless the compound keyword fuses ------

  lemma {:induction false} ResolveNothing(ws: seq<Word>)
    requires !Fusion(ws)
    ensures ResolveWords(ws) == ws
  {
    if ws != [] {
      assert !FusesIn(ws, 0);
      FusionTail(ws);
      ResolveNothing(ws[1..]);
    }
  }

  lemma FusionTail(ws: seq<Word>)
    requires ws != []
    ensures Fusion(ws[1..]) ==> Fusion(ws)
    ensures Fusion(ws) ==> (|ws| > 2 && FusesAt(ws[0], ws[1], ws[2])) || Fusion(ws[1..])
  {
    hide FusesAt;
    var t := ws[1..];
    forall k | FusesIn(t, k) ensures Fusion(ws) { assert FusesIn(ws, k + 1); }
    if Fusion(ws) {
      var k :| FusesIn(ws, k);
      if k > 0 { assert FusesIn(t, k - 1); }
    }
  }

  lemma {:induction false} ResolveFuses(ws: seq<Word>)
    requires Fusion(ws)
    ensures exists k :: 0 <= k < |ResolveWords(ws)| && ResolveWords(ws)[k].kind == KwCoOwned
  {
    hide Fusion, FusesAt;
    SomeFusion(ws);
    var r := ResolveWords(ws);
    if FusesAt(ws[0], ws[1], ws[2]) {
      assert r[0].kind == KwCoOwned;
    } else {
      FusionTail(ws);
      ResolveFuses(ws[1..]);
      var t := ResolveWords(ws[1..]);
      var k :| 0 <= k < |t| && t[k].kind == KwCoOwned;
      assert r[k + 1] == t[k];
    }
  }

  lemma SomeFusion(ws: seq<Word>)
    requires Fusion(ws)
    ensures |ws| > 2
  {}

  /** A token list holding the compound keyword is no expression. */
  lemma CoOwnedNeverParses(ws: seq<Word>, k: nat)
    requires Ended(ws) && k < |ws| && ws[k].kind == KwCoOwned
    requires forall j :: 0 <= j < |ws| - 1 ==> ws[j].kind != Eof
    ensures ParseWhole(ws).Bad?
  {
    hide ParseExpr;
    assert IsFused(ws, k);
  }

  predicate OnlyLastEof(ws: seq<Word>) {
    forall j :: 0 <= j < |ws| - 1 ==> ws[j].kind != Eof
  }

  lemma {:induction false} ResolveOnlyLastEof(ws: seq<Word>)
    requires ws != [] && OnlyLastEof(ws) && ws[|ws| - 1].kind == Eof
    ensures OnlyLastEof(ResolveWords(ws)) && Ended(ResolveWords(ws))
  {
    var r := ResolveWords(ws);
    if |ws| > 2 && FusesAt(ws[0], ws[1], ws[2]) {
      ResolveOnlyLastEof(ws[3..]);
      assert r[1..] == ResolveWords(ws[3..]);
      EofCons(r);
    } else if |ws| > 1 {
      ResolveOnlyLastEof(ws[1..]);
      assert r[1..] == ResolveWords(ws[1..]);
      EofCons(r);
    } else {
      assert ResolveWords(ws[1..]) == [];
    }
  }

  lemma EofCons(r: seq<Word>)
    requires |r| > 1 && r[0].kind != Eof && OnlyLastEof(r[1..])
    ensures OnlyLastEof(r)
  {
    forall j | 0 <= j < |r| - 1 ensures r[j].kind != Eof {
      if j > 0 { assert r[1..][j - 1] == r[j]; }
    }
  }

  predicate NoEof(ws: seq<Word>) {
    forall k :: 0 <= k < |ws| ==> ws[k].kind != Eof
  }

  lemma NoEofJoin(x: seq<Word>, y: seq<Word>)
    requires NoEof(x) && NoEof(y)
    ensures NoEof(x + y)
  {}

  lemma NoEofEnclosed(open: Kind, x: seq<Word>, close: Kind)
    requires open.IsOperator() && close.IsOperator() && NoEof(x)
    ensures NoEof([OpWord(open)] + (x + [OpWord(close)]))
  {
    hide Spelling;
  }

  lemma NoEofAround(x: seq<Word>, o: Kind, y: seq<Word>)
    requires o.IsOperator() && NoEof(x) && NoEof(y)
    ensures NoEof(x + ([OpWord(o)] + y)) && NoEof([OpWord(o)] + y)
  {
    hide Spelling;
  }

  lemma {:induction false} WithoutEof(kw: Keywords, e: Expr)
    requires IsShared(kw, e)
    ensures NoEof(Tokens(e))
  {
    hide NoEof, Tokens, ArgTokens, IsShared, AreShared, Print, Spelling, IsCBinaryOp, IsCUnaryOp, IsIdentText;
    if e.Binary? {
      BinaryParts(kw, e);
      WithoutEof(kw, e.left);
      WithoutEof(kw, e.right);
      NoEofAround(Tokens(e.left), e.op, Tokens(e.right));
      NoEofEnclosed(LParen, Tokens(e.left) + ([OpWord(e.op)] + Tokens(e.right)), RParen);
    } else if e.Unary? {
      UnaryParts(kw, e);
      WithoutEof(kw, e.operand);
      NoEofAround(Tokens(e.operand), e.op, Tokens(e.operand));
      NoEofEnclosed(LParen, [OpWord(e.op)] + Tokens(e.operand), RParen);
    } else if e.Call? {
      SuffixParts(kw, e);
      WithoutEof(kw, e.callee);
      ArgsWithoutEof(kw, e.args);
      NoEofEnclosed(LParen, ArgTokens(e.args), RParen);
      NoEofJoin(Tokens(e.callee), [OpWord(LParen)] + (ArgTokens(e.args) + [OpWord(RParen)]));
    } else if e.Index? {
      SuffixParts(kw, e);
      WithoutEof(kw, e.base);
      WithoutEof(kw, e.index);
      NoEofEnclosed(LBracket, Tokens(e.index), RBracket);
      NoEofJoin(Tokens(e.base), [OpWord(LBracket)] + (Tokens(e.index) + [OpWord(RBracket)]));
    } else if e.Field? {
      FieldParts(kw, e);
      WithoutEof(kw, e.base);
      NamesNotEof(e.field);
      NoEofAround(Tokens(e.base), Dot, [Word(Kind.Ident, e.field)]);
    } else {
      LeafWithoutEof(kw, e);
    }
  }

  lemma NamesNotEof(f: string)
    ensures NoEof([Word(Kind.Ident, f)])
  {}

  lemma LeafWithoutEof(kw: Keywords, e: Expr)
    requires IsShared(kw, e) && !e.Binary? && !e.Unary? && !e.Call? && !e.Index? && !e.Field?
    ensures NoEof(Tokens(e))
  {}

  lemma {:induction false} ArgsWithoutEof(kw: Keywords, args: seq<Arg>)
    requires AreShared(kw, args)
    ensures NoEof(ArgTokens(args)) && NoEof(MoreArgTokens(args))
  {
    hide Tokens, IsShared, Spelling;
    if args != [] {
      assert args decreases to args[0];
      var x, y := Tokens(args[0].value), MoreArgTokens(args[1..]);
      WithoutEof(kw, args[0].value);
      ArgsWithoutEof(kw, args[1..]);
      NoEofJoin(x, y);
    }
  }

  /** The round trip, for every shared expression: the printed text parses to the tree it came
      from if and only if no operand ending in co meets a minus and one starting with owned;
      in that case, where the lexer fuses the three tokens, the text does not parse at all. */
  lemma PrintedTextParses(kw: Keywords, e: Expr)
    requires IsShared(kw, e)
    ensures ParseText(Print(e), kw) == if Clashes(e) then None else Some(e)
  {
    hide IsShared, Print, Tokens, LexWords, Fusion, ResolveWords, Clashes, ParseWhole, OnlyLastEof;
    var ws := Tokens(e) + [Word(Eof, "")];
    PrintedWords(kw, e);
    FusionIsClash(kw, e);
    FusionBeforeEof(Tokens(e));
    WithoutEof(kw, e);
    EofAppended(Tokens(e));
    if Clashes(e) {
      ResolveFuses(ws);
      ResolveOnlyLastEof(ws);
      var r := ResolveWords(ws);
      var k :| 0 <= k < |r| && r[k].kind == KwCoOwned;
      NeverParses(r, k);
    } else {
      ResolveNothing(ws);
      WholeParses(kw, e);
    }
  }

  /** The shortest text that does not parse back. */
  lemma CoMinusOwned(kw: Keywords)
    requires "co" !in kw && "owned" !in kw
    ensures var e := Binary(Minus, Expr.Ident("co", []), Expr.Ident("owned", []));
            IsShared(kw, e) && Print(e) == "(co - owned)" && ParseText("(co - owned)", kw) == None
  {
    hide ParseText;
    var e := Binary(Minus, Expr.Ident("co", []), Expr.Ident("owned", []));
    PrintedTextParses(kw, e);
  }

  lemma NeverParses(ws: seq<Word>, k: nat)
    requires Ended(ws) && k < |ws| && ws[k].kind == KwCoOwned && OnlyLastEof(ws)
    ensures ParseWhole(ws).Bad?
  {
    CoOwnedNeverParses(ws, k);
  }

  lemma FusionBeforeEof(x: seq<Word>)
    ensures Fusion(x + [Word(Eof, "")]) <==> Fusion(x)
  {
    hide Fusion;
    NothingFuses();
    FusionAround(x, Word(Eof, ""), []);
    assert x + ([Word(Eof, "")] + []) == x + [Word(Eof, "")];
  }

  lemma EofAppended(x: seq<Word>)
    requires NoEof(x)
    ensures OnlyLastEof(x + [Word(Eof, "")]) && Ended(x + [Word(Eof, "")])
  {}

  lemma EofEnds()
    ensures EndsExpr(Eof)
  {}

  lemma WholeParses(kw: Keywords, e: Expr)
    requires IsShared(kw, e)
    ensures var ws := Tokens(e) + [Word(Eof, "")]; Ended(ws) && ParseWhole(ws) == Parsed(e, |ws| - 1)
  {
    hide IsShared, Tokens, ParseExpr, Print, Spelling, Clean, EndsExpr;
    var ws := Tokens(e) + [Word(Eof, "")];
    assert ws[0..|Tokens(e)|] == Tokens(e);
    EofEnds();
    ExprParses(ws, kw, 0, e);
  }
}
