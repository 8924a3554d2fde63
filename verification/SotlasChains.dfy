/** Operator chains written without parentheses: one precedence level, folded to the left. */
module SotlasChains {
  import opened Options
  import opened SotlasTokens
  import opened SotlasLexing
  import opened SotlasLexStability
  import opened SotlasParsing
  import opened SotlasStanding
  import opened SotlasPrinting
  import opened SotlasPrintLex
  import opened SotlasRoundTrip
  import opened SotlasTheorems

  /** An operator and its right operand. */
  datatype Link = Link(op: Kind, operand: Expr)

  predicate IsChain(kw: Keywords, links: seq<Link>) {
    forall k :: 0 <= k < |links| ==> IsBinaryOp(links[k].op) && IsShared(kw, links[k].operand)
  }

  /** The operations applied one after the other, whatever the operators. */
  function LeftFold(e: Expr, links: seq<Link>): Expr
    decreases links
  {
    if links == [] then e else LeftFold(Binary(links[0].op, e, links[0].operand), links[1..])
  }

  lemma BinaryIsOperator(k: Kind)
    requires IsBinaryOp(k)
    ensures k.IsOperator() && EndsOperand(k) && k != Colon
  {}

  function ChainTokens(kw: Keywords, links: seq<Link>): seq<Word>
    requires IsChain(kw, links)
  {
    if links == [] then []
    else
      BinaryIsOperator(links[0].op);
      [OpWord(links[0].op)] + (Tokens(links[0].operand) + ChainTokens(kw, links[1..]))
  }

  function ChainText(kw: Keywords, links: seq<Link>): string
    requires IsChain(kw, links)
  {
    if links == [] then ""
    else
      BinaryIsOperator(links[0].op);
      " " + (Spelling(links[0].op) + (" " + (Print(links[0].operand) + ChainText(kw, links[1..]))))
  }

  // ---- parsing --------------------------------------------------------------

  lemma ChainStands(ws: seq<Word>, kw: Keywords, q: nat, links: seq<Link>)
    requires links != [] && IsChain(kw, links) && StandsAt(ws, q, ChainTokens(kw, links))
    ensures IsBinaryOp(links[0].op) && IsShared(kw, links[0].operand) && IsChain(kw, links[1..])
    ensures var x, y := Tokens(links[0].operand), ChainTokens(kw, links[1..]);
            && |x| > 0 && q < |ws| && ws[q].kind == links[0].op
            && StandsAt(ws, q + 1, x) && StandsAt(ws, q + 1 + |x|, y)
            && |ChainTokens(kw, links)| == 1 + |x| + |y|
  {
    hide StandsAt, Tokens, ChainTokens, Print, ChainText, IsShared, IsChain, Spelling;
    ChainPieces(kw, links);
    var x, y := Tokens(links[0].operand), ChainTokens(kw, links[1..]);
    TokensStart(kw, links[0].operand);
    StandsSplit(ws, q, [OpWord(links[0].op)], x + y);
    StandsOne(ws, q, OpWord(links[0].op));
    StandsSplit(ws, q + 1, x, y);
  }

  /** What stands after an operand of the chain ends it. */
  lemma AfterOperand(ws: seq<Word>, kw: Keywords, q: nat, links: seq<Link>)
    requires IsChain(kw, links) && StandsAt(ws, q, ChainTokens(kw, links)) && q + |ChainTokens(kw, links)| < |ws|
    requires EndsExpr(ws[q + |ChainTokens(kw, links)|].kind)
    ensures EndsOperand(ws[q].kind)
  {
    hide StandsAt, Tokens, IsShared, Spelling, EndsOperand;
    if links != [] {
      ChainStands(ws, kw, q, links);
      BinaryIsOperator(links[0].op);
    }
  }

  /** The operator loop folds the chain that stands at q into the left operand. */
  lemma {:induction false} ChainFolds(ws: seq<Word>, kw: Keywords, left: Expr, q: nat, links: seq<Link>)
    requires Ended(ws) && IsChain(kw, links) && StandsAt(ws, q, ChainTokens(kw, links)) && q + |ChainTokens(kw, links)| < |ws|
    requires EndsExpr(ws[q + |ChainTokens(kw, links)|].kind)
    ensures BinaryLoop(ws, left, q) == Parsed(LeftFold(left, links), q + |ChainTokens(kw, links)|)
    decreases links
  {
    hide Clean, StandsAt, Tokens, ChainTokens, IsShared, IsChain, BinaryLoop, ParseUnary, EndsExpr;
    if links == [] {
      NoLinks(ws, kw, left, q);
    } else {
      ChainStands(ws, kw, q, links);
      var n := q + 1 + |Tokens(links[0].operand)|;
      AfterOperand(ws, kw, n, links[1..]);
      OperandParses(ws, kw, q + 1, links[0].operand);
      ChainFolds(ws, kw, Binary(links[0].op, left, links[0].operand), n, links[1..]);
      LoopTakes(ws, left, q, links[0].operand, n);
    }
  }

  lemma NoLinks(ws: seq<Word>, kw: Keywords, left: Expr, q: nat)
    requires Ended(ws) && q < |ws|
    ensures IsChain(kw, []) && ChainTokens(kw, []) == [] && (EndsExpr(ws[q].kind) ==> BinaryLoop(ws, left, q) == Parsed(left, q))
  {
    hide EndsOperand;
  }

  lemma LoopTakes(ws: seq<Word>, left: Expr, q: nat, right: Expr, n: nat)
    requires Ended(ws) && q + 1 < |ws| && n < |ws| && IsBinaryOp(ws[q].kind) && ParseUnary(ws, q + 1) == Parsed(right, n)
    ensures BinaryLoop(ws, left, q) == BinaryLoop(ws, Binary(ws[q].kind, left, right), n)
  {
    hide Clean, ParseUnary;
  }

  /** A chain of operands parses to the left fold of its operands, whatever the operators are. */
  lemma ChainParses(kw: Keywords, e: Expr, links: seq<Link>)
    requires IsShared(kw, e) && IsChain(kw, links)
    ensures var ws := Tokens(e) + (ChainTokens(kw, links) + [Word(Eof, "")]);
            Ended(ws) && ParseWhole(ws) == Parsed(LeftFold(e, links), |ws| - 1)
  {
    hide Clean, StandsAt, Tokens, ChainTokens, IsShared, IsChain, BinaryLoop, ParseUnary, ParseExpr, ParseWhole, LeftFold, EndsExpr, EndsOperand, Print, Spelling;
    var x, y := Tokens(e), ChainTokens(kw, links);
    var ws := x + (y + [Word(Eof, "")]);
    StandsWhole(ws);
    StandsSplit(ws, 0, x, y + [Word(Eof, "")]);
    StandsSplit(ws, |x|, y, [Word(Eof, "")]);
    StandsOne(ws, |x| + |y|, Word(Eof, ""));
    EofEndsExpr();
    AfterOperand(ws, kw, |x|, links);
    OperandParses(ws, kw, 0, e);
    ChainFolds(ws, kw, e, |x|, links);
    WholeChain(ws, e, |x|, LeftFold(e, links), |ws| - 1);
  }

  lemma StandsWhole(ws: seq<Word>)
    ensures StandsAt(ws, 0, ws)
  {}

  lemma EofEndsExpr()
    ensures EndsExpr(Eof)
  {}

  lemma WholeChain(ws: seq<Word>, e: Expr, m: nat, r: Expr, n: nat)
    requires Ended(ws) && m < |ws| && n < |ws| && ParseUnary(ws, 0) == Parsed(e, m)
    requires BinaryLoop(ws, e, m) == Parsed(r, n) && ws[n].kind == Eof
    ensures ParseWhole(ws) == Parsed(r, n)
  {
    hide Clean, ParseUnary, BinaryLoop;
    assert ParseBinary(ws, 0) == Parsed(r, n);
  }

  // ---- lexing ---------------------------------------------------------------

  lemma ChainMayFollow(kw: Keywords, links: seq<Link>)
    requires IsChain(kw, links)
    ensures MayFollow(ChainText(kw, links) + "")
  {
    hide Print, IsShared, Spelling;
  }

  /** One operand and the rest of the chain. */
  lemma {:induction false} OperandThenChainLex(src: string, kw: Keywords, i: nat, e: Expr, links: seq<Link>)
    requires i <= |src| && IsShared(kw, e) && IsChain(kw, links) && src[i..] == (Print(e) + ChainText(kw, links)) + ""
    ensures LexesTo(src, kw, i, Print(e) + ChainText(kw, links), Tokens(e) + ChainTokens(kw, links), "")
    decreases links, 1
  {
    hide LexesTo, Print, Tokens, IsShared, IsChain, MayFollow, ChainText, ChainTokens;
    var s, t := Print(e), ChainText(kw, links);
    Assoc(s, t, "");
    ChainMayFollow(kw, links);
    PrintLexes(src, kw, i, e, t + "");
    Rest(src, i, s, t + "");
    ChainLexes(src, kw, i + |s|, links);
    LexThen(src, kw, i, s, Tokens(e), t, ChainTokens(kw, links), "");
  }

  lemma {:induction false} ChainLexes(src: string, kw: Keywords, i: nat, links: seq<Link>)
    requires i <= |src| && IsChain(kw, links) && src[i..] == ChainText(kw, links) + ""
    ensures LexesTo(src, kw, i, ChainText(kw, links), ChainTokens(kw, links), "")
    decreases links, 0
  {
    hide LexesTo, Print, Tokens, IsShared, IsChain, MayFollow, ChainText, ChainTokens, Spelling;
    if links == [] {
      NoLinkText(kw);
      NothingLexes(src, kw, i, "");
    } else {
      ChainPieces(kw, links);
      var o, b := Spelling(links[0].op), Print(links[0].operand) + ChainText(kw, links[1..]);
      LinkPositions(src, i, o, b);
      OperandThenChainLex(src, kw, i + |o| + 2, links[0].operand, links[1..]);
      LexInfix(src, kw, i, links[0].op, b, Tokens(links[0].operand) + ChainTokens(kw, links[1..]), "");
    }
  }

  lemma NoLinkText(kw: Keywords)
    ensures IsChain(kw, []) && ChainText(kw, []) == "" && ChainTokens(kw, []) == []
  {}

  lemma ChainPieces(kw: Keywords, links: seq<Link>)
    requires links != [] && IsChain(kw, links)
    ensures links[0].op.IsOperator() && IsBinaryOp(links[0].op) && IsShared(kw, links[0].operand) && IsChain(kw, links[1..])
    ensures var b := Print(links[0].operand) + ChainText(kw, links[1..]);
            ChainText(kw, links) == " " + (Spelling(links[0].op) + (" " + b))
    ensures ChainTokens(kw, links) == [OpWord(links[0].op)] + (Tokens(links[0].operand) + ChainTokens(kw, links[1..]))
  {
    hide Spelling, Print, Tokens, IsShared;
    BinaryIsOperator(links[0].op);
  }

  lemma LinkPositions(src: string, i: nat, o: string, b: string)
    requires i <= |src| && src[i..] == (" " + (o + (" " + b))) + ""
    ensures i + |o| + 2 <= |src| && src[i + |o| + 2..] == b + ""
    ensures src[i..] == " " + (o + (" " + (b + "")))
  {
    Assoc(" ", b, "");
    Assoc(o, " " + b, "");
    Assoc(" ", o + (" " + b), "");
    BlankAt(src, i, o + (" " + (b + "")));
    Rest(src, i + 1, o, " " + (b + ""));
    BlankAt(src, i + 1 + |o|, b + "");
  }

  // ---- the main result ------------------------------------------------------

  /** Somewhere in the chain the three tokens co, minus, owned come together. */
  predicate ChainClashes(kw: Keywords, e: Expr, links: seq<Link>)
    requires IsChain(kw, links)
    decreases links
  {
    || Clashes(e)
    || (links != [] && links[0].op == Minus && EndsInCo(e) && StartsWithOwned(links[0].operand))
    || (links != [] && ChainClashes(kw, links[0].operand, links[1..]))
  }

  lemma {:induction false} ChainFusion(kw: Keywords, e: Expr, links: seq<Link>)
    requires IsShared(kw, e) && IsChain(kw, links)
    ensures Fusion(Tokens(e) + ChainTokens(kw, links)) <==> ChainClashes(kw, e, links)
    ensures Tokens(e) != [] && (Tokens(e) + ChainTokens(kw, links))[0] == Tokens(e)[0]
    decreases links
  {
    hide Fusion, Tokens, ChainTokens, Clashes, IsShared, IsChain, EndsInCo, StartsWithOwned, Print, ChainText, Spelling;
    TokenEnds(kw, e);
    FusionIsClash(kw, e);
    var x := Tokens(e);
    if links == [] {
      NoLinkText(kw);
      assert x + [] == x;
    } else {
      ChainPieces(kw, links);
      TokenEnds(kw, links[0].operand);
      ChainFusion(kw, links[0].operand, links[1..]);
      BinaryIsOperator(links[0].op);
      FusionAround(x, OpWord(links[0].op), Tokens(links[0].operand) + ChainTokens(kw, links[1..]));
    }
  }

  lemma {:induction false} ChainWithoutEof(kw: Keywords, e: Expr, links: seq<Link>)
    requires IsShared(kw, e) && IsChain(kw, links)
    ensures NoEof(Tokens(e) + ChainTokens(kw, links))
    decreases links
  {
    hide NoEof, Tokens, ChainTokens, IsShared, IsChain, Print, ChainText, Spelling;
    WithoutEof(kw, e);
    if links == [] {
      NoLinkText(kw);
      assert Tokens(e) + [] == Tokens(e);
    } else {
      ChainPieces(kw, links);
      ChainWithoutEof(kw, links[0].operand, links[1..]);
      NoEofAround(Tokens(e), links[0].op, Tokens(links[0].operand) + ChainTokens(kw, links[1..]));
    }
  }

  lemma ChainWords(kw: Keywords, e: Expr, links: seq<Link>)
    requires IsShared(kw, e) && IsChain(kw, links)
    ensures LexWords(Print(e) + ChainText(kw, links), kw, 0) == Some((Tokens(e) + ChainTokens(kw, links)) + [Word(Eof, "")])
  {
    hide Print, ChainText, Tokens, ChainTokens, IsShared, IsChain, LexWords;
    var s := Print(e) + ChainText(kw, links);
    assert s[0..] == s + "";
    OperandThenChainLex(s, kw, 0, e, links);
    EndWords(s, kw);
  }

  /** The text of a chain without parentheses parses to the left fold of its operands, for every
      sequence of binary operators, if and only if the compound keyword fuses nowhere in it. */
  lemma ChainTextParses(kw: Keywords, e: Expr, links: seq<Link>)
    requires IsShared(kw, e) && IsChain(kw, links)
    ensures ParseText(Print(e) + ChainText(kw, links), kw) ==
              if ChainClashes(kw, e, links) then None else Some(LeftFold(e, links))
  {
    hide IsShared, IsChain, Print, ChainText, Tokens, ChainTokens, LexWords, Fusion, ResolveWords, Clashes, ChainClashes, ParseWhole,
         OnlyLastEof, LeftFold;
    var x := Tokens(e) + ChainTokens(kw, links);
    var ws := x + [Word(Eof, "")];
    ChainWords(kw, e, links);
    ChainFusion(kw, e, links);
    FusionBeforeEof(x);
    ChainWithoutEof(kw, e, links);
    EofAppended(x);
    if ChainClashes(kw, e, links) {
      ResolveFuses(ws);
      ResolveOnlyLastEof(ws);
      var r := ResolveWords(ws);
      var k :| 0 <= k < |r| && r[k].kind == KwCoOwned;
      NeverParses(r, k);
    } else {
      ResolveNothing(ws);
      ChainParses(kw, e, links);
      assert Tokens(e) + (ChainTokens(kw, links) + [Word(Eof, "")]) == ws;
    }
  }
}
