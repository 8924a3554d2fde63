/** Where the pieces of a token list stand in a longer one, and single steps of the parser. */
module SotlasStanding {
  import opened SotlasTokens
  import opened SotlasParsing

  ghost predicate StandsAt(ws: seq<Word>, p: nat, xs: seq<Word>) {
    p + |xs| <= |ws| && ws[p..p + |xs|] == xs
  }

  lemma StandsSplit(ws: seq<Word>, p: nat, xs: seq<Word>, ys: seq<Word>)
    requires StandsAt(ws, p, xs + ys)
    ensures StandsAt(ws, p, xs) && StandsAt(ws, p + |xs|, ys)
  {
    assert ws[p..p + |xs|] == ws[p..p + |xs + ys|][..|xs|];
    assert ws[p + |xs|..p + |xs| + |ys|] == ws[p..p + |xs + ys|][|xs|..];
  }

  lemma StandsOne(ws: seq<Word>, p: nat, w: Word)
    requires StandsAt(ws, p, [w])
    ensures p < |ws| && ws[p] == w
  {
    assert ws[p] == ws[p..p + 1][0];
  }

  /** Where the pieces of an enclosed list stand. */
  lemma StandsEnclosed(ws: seq<Word>, p: nat, open: Word, y: seq<Word>, close: Word)
    requires StandsAt(ws, p, [open] + (y + [close]))
    ensures var q := p + 1 + |y|;
            q < |ws| && ws[p] == open && StandsAt(ws, p + 1, y) && ws[q] == close
  {
    hide StandsAt;
    StandsSplit(ws, p, [open], y + [close]);
    StandsOne(ws, p, open);
    StandsSplit(ws, p + 1, y, [close]);
    StandsOne(ws, p + 1 + |y|, close);
  }

  /** Where two lists and the token between them stand. */
  lemma StandsAround(ws: seq<Word>, p: nat, x: seq<Word>, w: Word, y: seq<Word>)
    requires StandsAt(ws, p, x + ([w] + y))
    ensures var m := p + |x|;
            m < |ws| && StandsAt(ws, p, x) && ws[m] == w && StandsAt(ws, m + 1, y)
  {
    hide StandsAt;
    StandsSplit(ws, p, x, [w] + y);
    StandsSplit(ws, p + |x|, [w], y);
    StandsOne(ws, p + |x|, w);
  }

  lemma StandsHead(ws: seq<Word>, p: nat, xs: seq<Word>)
    requires StandsAt(ws, p, xs) && |xs| > 0
    ensures p < |ws| && ws[p] == xs[0]
  {
    assert ws[p] == ws[p..p + |xs|][0];
  }

  lemma StandsCons(ws: seq<Word>, p: nat, w: Word, rest: seq<Word>)
    requires StandsAt(ws, p, [w] + rest)
    ensures p < |ws| && ws[p] == w && StandsAt(ws, p + 1, rest)
  {
    hide StandsAt;
    StandsSplit(ws, p, [w], rest);
    StandsOne(ws, p, w);
  }

  lemma ParenIsPrimary(ws: seq<Word>, p: nat, e: Expr, q: nat)
    requires Ended(ws) && p + 1 < q < |ws| - 1 && ws[p].kind == LParen && ws[p + 1].kind != RParen
    requires ParseExpr(ws, p + 1) == Parsed(e, q) && ws[q].kind == RParen
    ensures ParsePrimary(ws, p) == Parsed(e, q + 1)
  {
    hide ParseExpr, ParseNamed, ParseArray, ParseIfExpr, TupleLoop;
    assert ParseParenthesized(ws, p + 1) == Parsed(e, q + 1);
  }

  lemma NotSigned(ws: seq<Word>, p: nat)
    requires Ended(ws) && p < |ws| && !IsUnaryOp(ws[p].kind)
    ensures ParseUnary(ws, p) == ParsePostfix(ws, p)
  {
    hide ParsePostfix;
  }

  lemma IndexStep(ws: seq<Word>, m: nat, base: Expr, index: Expr, q: nat)
    requires Ended(ws) && m + 1 < |ws| && q + 1 < |ws| && ws[m].kind == LBracket && ws[m + 1].kind != DotDot
    requires ParseExpr(ws, m + 1) == Parsed(index, q) && ws[q].kind == RBracket
    ensures PostfixLoop(ws, base, m) == PostfixLoop(ws, Index(base, index), q + 1)
  {
    hide Clean, ParseExpr, ParseBracket;
    IndexInBrackets(ws, m + 1, base, index, q);
  }

  lemma IndexInBrackets(ws: seq<Word>, p: nat, base: Expr, index: Expr, q: nat)
    requires Ended(ws) && p < |ws| && q + 1 < |ws| && ws[p].kind != DotDot
    requires ParseExpr(ws, p) == Parsed(index, q) && ws[q].kind == RBracket
    ensures ParseBracket(ws, base, p) == Parsed(Index(base, index), q + 1)
  {
    hide Clean, ParseExpr, ParseSliceEnd;
  }

  lemma CallStep(ws: seq<Word>, m: nat, callee: Expr, args: seq<Arg>, q: nat)
    requires Ended(ws) && m + 1 < |ws| && q + 1 < |ws| && ws[m].kind == LParen
    requires ParseArgList(ws, m + 1) == Parsed(args, q) && ws[q].kind == RParen
    ensures PostfixLoop(ws, callee, m) == PostfixLoop(ws, Call(callee, args), q + 1)
  {
    hide Clean, ParseArgList;
    assert ParseCallArgs(ws, m + 1) == Parsed(args, q + 1);
  }
}
