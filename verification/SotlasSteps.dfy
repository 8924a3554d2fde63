/** Single steps of the expression parser, from one position to the next. */
module SotlasSteps {
  import opened Options
  import opened SotlasTokens
  import opened SotlasParsing
  import opened SotlasStanding

  // ---- where an expression ends ------------------------------------------------------------

  /** No suffix goes on there. */
  predicate EndsPostfix(k: Kind) {
    !k.Dot? && !k.LBracket? && !k.LParen? && !k.KwAs? && !k.QMark? && !k.Not?
  }

  /** Neither a path nor a structure literal goes on there. */
  predicate StopsName(ws: seq<Word>, q: nat)
    requires Ended(ws) && q < |ws|
  {
    ws[q].kind != DColon && !OpensStructLit(ws, q)
  }

  predicate StopsOperand(ws: seq<Word>, q: nat)
    requires Ended(ws) && q < |ws|
  {
    StopsName(ws, q) && EndsPostfix(ws[q].kind)
  }

  predicate Stops(ws: seq<Word>, q: nat)
    requires Ended(ws) && q < |ws|
  {
    StopsOperand(ws, q) && !IsBinaryOp(ws[q].kind)
  }

  /** Tokens that can stand behind an expression, apart from an opening brace. */
  predicate IsCloser(k: Kind) {
    || k == RParen || k == RBracket || k == RBrace || k == Comma || k == Semicolon || k == DotDot || k == Eof
    || k == Kind.Ident
  }

  lemma CloserStops(ws: seq<Word>, q: nat)
    requires Ended(ws) && q < |ws| && IsCloser(ws[q].kind)
    ensures Stops(ws, q)
  {
    hide PeekWord;
  }

  lemma OperatorStops(ws: seq<Word>, q: nat)
    requires Ended(ws) && q < |ws| && IsBinaryOp(ws[q].kind)
    ensures StopsOperand(ws, q)
  {
    hide PeekWord;
  }

  lemma SuffixStopsName(ws: seq<Word>, q: nat)
    requires Ended(ws) && q < |ws| && !EndsPostfix(ws[q].kind)
    ensures StopsName(ws, q)
  {
    hide PeekWord;
  }

  // ---- levels ---------------------------------------------------------------------------------

  lemma PostfixStops(ws: seq<Word>, e: Expr, q: nat)
    requires Ended(ws) && q < |ws| && EndsPostfix(ws[q].kind)
    ensures PostfixLoop(ws, e, q) == Parsed(e, q)
  {}

  lemma PostfixFrom(ws: seq<Word>, p: nat, e: Expr, q: nat)
    requires Ended(ws) && p < q < |ws| && ParsePrimary(ws, p) == Parsed(e, q)
    ensures ParsePostfix(ws, p) == PostfixLoop(ws, e, q)
  {
    hide ParsePrimary, PostfixLoop, Clean;
  }

  lemma LoopStops(ws: seq<Word>, e: Expr, q: nat)
    requires Ended(ws) && q < |ws| && !IsBinaryOp(ws[q].kind)
    ensures BinaryLoop(ws, e, q) == Parsed(e, q)
  {}

  lemma LoopFrom(ws: seq<Word>, p: nat, e: Expr, q: nat)
    requires Ended(ws) && p < q < |ws| && ParseUnary(ws, p) == Parsed(e, q)
    ensures ParseBinary(ws, p) == BinaryLoop(ws, e, q)
  {
    hide ParseUnary, BinaryLoop, Clean;
  }

  lemma LoopStep(ws: seq<Word>, left: Expr, m: nat, right: Expr, q: nat)
    requires Ended(ws) && m + 1 < q < |ws| && IsBinaryOp(ws[m].kind) && ParseUnary(ws, m + 1) == Parsed(right, q)
    ensures BinaryLoop(ws, left, m) == BinaryLoop(ws, Binary(ws[m].kind, left, right), q)
  {
    hide ParseUnary, Clean;
  }

  /** A prefix operator; mut is skipped behind an ampersand. */
  lemma SignStep(ws: seq<Word>, p: nat, mut: bool, x: Expr, q: nat)
    requires Ended(ws) && p + 2 < |ws| && IsUnaryOp(ws[p].kind) && mut == (ws[p].kind == LAnd && ws[p + 1].kind == KwMut)
    requires ParseUnary(ws, if mut then p + 2 else p + 1) == Parsed(x, q)
    ensures ParseUnary(ws, p) == Parsed(Unary(ws[p].kind, x), q)
  {
    hide ParsePostfix, Clean;
  }

  // ---- suffixes ---------------------------------------------------------------------------------

  lemma MarkStep(ws: seq<Word>, b: Expr, m: nat)
    requires Ended(ws) && m + 1 < |ws|
    ensures ws[m].kind.QMark? ==> PostfixLoop(ws, b, m) == PostfixLoop(ws, OptionalChain(b), m + 1)
    ensures ws[m].kind.Not? ==> PostfixLoop(ws, b, m) == PostfixLoop(ws, ForceUnwrap(b), m + 1)
  {
    hide Clean;
  }

  lemma DotStep(ws: seq<Word>, b: Expr, m: nat, e: Expr)
    requires Ended(ws) && m + 2 < |ws| && ws[m].kind.Dot?
    requires || (e == Field(b, ws[m + 1].text) && ws[m + 1].kind.Ident? && !ws[m + 2].kind.LParen?)
             || (e == BitStrand(b) && ws[m + 1].kind.KwStrand?)
             || (e.TupleIndex? && e.base == b && ws[m + 1].kind.IntLit? && DecimalValue(ws[m + 1].text) == Some(e.position))
    ensures PostfixLoop(ws, b, m) == PostfixLoop(ws, e, m + 2)
  {
    hide Clean, DecimalValue, ParseBitSlice, ParseBitNotch;
    assert ParseDot(ws, b, m + 1) == Parsed(e, m + 2);
  }

  lemma MethodStep(ws: seq<Word>, b: Expr, m: nat, args: seq<Arg>, q: nat)
    requires Ended(ws) && m + 3 <= q && q + 1 < |ws| && ws[m].kind.Dot? && ws[m + 1].kind.Ident? && ws[m + 2].kind.LParen?
    requires ParseArgList(ws, m + 3) == Parsed(args, q) && ws[q].kind.RParen?
    ensures PostfixLoop(ws, b, m) == PostfixLoop(ws, Call(Field(b, ws[m + 1].text), args), q + 1)
  {
    hide Clean, ParseArgList, DecimalValue, ParseBitSlice, ParseBitNotch;
    assert ParseCallArgs(ws, m + 3) == Parsed(args, q + 1);
    assert ParseMember(ws, b, m + 1) == Parsed(Call(Field(b, ws[m + 1].text), args), q + 1);
    assert ParseDot(ws, b, m + 1) == Parsed(Call(Field(b, ws[m + 1].text), args), q + 1);
  }

  lemma BitNotchStep(ws: seq<Word>, b: Expr, m: nat, bit: Expr, n: nat)
    requires Ended(ws) && m + 3 < n < |ws| - 1 && ws[m].kind.Dot? && ws[m + 1].kind.KwNotch? && ws[m + 2].kind.LBracket?
    requires ParseExpr(ws, m + 3) == Parsed(bit, n) && ws[n].kind.RBracket?
    ensures PostfixLoop(ws, b, m) == PostfixLoop(ws, BitNotch(b, bit), n + 1)
  {
    hide Clean, ParseExpr;
    assert ParseBitNotch(ws, b, m + 2) == Parsed(BitNotch(b, bit), n + 1);
    assert ParseDot(ws, b, m + 1) == Parsed(BitNotch(b, bit), n + 1);
  }

  lemma BitSliceStep(ws: seq<Word>, b: Expr, m: nat, lo: Expr, a: nat, hi: Expr, c: nat)
    requires Ended(ws) && m + 3 < a && a + 1 < c < |ws| - 1
    requires ws[m].kind.Dot? && ws[m + 1].kind.KwSlit? && ws[m + 2].kind.LBracket? && ws[a].kind.DotDot? && ws[c].kind.RBracket?
    requires ParseExpr(ws, m + 3) == Parsed(lo, a) && ParseExpr(ws, a + 1) == Parsed(hi, c)
    ensures PostfixLoop(ws, b, m) == PostfixLoop(ws, BitSlice(b, lo, hi), c + 1)
  {
    hide Clean, ParseExpr;
    assert ParseBitSlice(ws, b, m + 2) == Parsed(BitSlice(b, lo, hi), c + 1);
    assert ParseDot(ws, b, m + 1) == Parsed(BitSlice(b, lo, hi), c + 1);
  }

  lemma SliceStep(ws: seq<Word>, b: Expr, m: nat, lo: Option<Expr>, a: nat, hi: Option<Expr>, c: nat)
    requires Ended(ws) && m + 1 <= a && a + 1 <= c && c + 1 < |ws|
    requires ws[m].kind == LBracket && ws[a].kind == DotDot && ws[c].kind == RBracket
    requires lo.None? ==> a == m + 1
    requires lo.Some? ==> m + 1 < a && ws[m + 1].kind != DotDot
    requires lo.Some? ==> ParseExpr(ws, m + 1) == Parsed(lo.value, a)
    requires hi.None? ==> c == a + 1
    requires hi.Some? ==> a + 1 < c && ws[a + 1].kind != RBracket
    requires hi.Some? ==> ParseExpr(ws, a + 1) == Parsed(hi.value, c)
    ensures PostfixLoop(ws, b, m) == PostfixLoop(ws, Slice(b, lo, hi), c + 1)
  {
    hide Clean, ParseExpr;
    assert ParseSliceEnd(ws, a + 1) == Parsed(hi, c + 1);
    assert ParseBracket(ws, b, m + 1) == Parsed(Slice(b, lo, hi), c + 1);
  }

  // ---- primaries ----------------------------------------------------------------------------------

  lemma AtomIsPrimary(ws: seq<Word>, p: nat)
    requires Ended(ws) && p + 1 < |ws|
    ensures IsLiteral(ws[p].kind) ==> ParsePrimary(ws, p) == Parsed(Literal(ws[p].kind, ws[p].text), p + 1)
    ensures ws[p].kind.KwSelf? || ws[p].kind.KwSuper? ==> ParsePrimary(ws, p) == Parsed(Expr.Ident(ws[p].text, []), p + 1)
  {
    hide ParseNamed, ParseParenthesized, ParseArray, ParseIfExpr;
  }

  lemma NamedIsPrimary(ws: seq<Word>, p: nat)
    requires Ended(ws) && p < |ws| && ws[p].kind.Ident?
    ensures ParsePrimary(ws, p) == ParseNamed(ws, p)
  {
    hide ParseNamed;
  }

  lemma ParenthesizedIsPrimary(ws: seq<Word>, p: nat)
    requires Ended(ws) && p + 1 < |ws| && ws[p].kind.LParen?
    ensures ParsePrimary(ws, p) == ParseParenthesized(ws, p + 1)
  {
    hide ParseParenthesized;
  }

  lemma ArrayIsPrimary(ws: seq<Word>, p: nat)
    requires Ended(ws) && p + 1 < |ws| && ws[p].kind.LBracket?
    ensures ParsePrimary(ws, p) == ParseArray(ws, p + 1)
  {
    hide ParseArray;
  }

  lemma ConditionIsPrimary(ws: seq<Word>, p: nat)
    requires Ended(ws) && p + 1 < |ws| && ws[p].kind.KwIf?
    ensures ParsePrimary(ws, p) == ParseIfExpr(ws, p + 1)
  {
    hide ParseIfExpr;
  }

  lemma NamedBy(ws: seq<Word>, p: nat, names: seq<string>, q: nat)
    requires Ended(ws) && p + 1 <= q < |ws| && ws[p].kind.Ident? && names != [] && PathLoop(ws, [ws[p].text], p + 1) == (names, q)
    ensures !OpensStructLit(ws, q) ==> ParseNamed(ws, p) == Parsed(Expr.Ident(names[|names| - 1], names[..|names| - 1]), q)
    ensures OpensStructLit(ws, q) ==> q + 1 < |ws| && ParseNamed(ws, p) == ParseStructLit(ws, names[|names| - 1], names[..|names| - 1], q + 1)
  {
    hide PathLoop, ParseStructLit, Clean, PeekWord;
  }

  lemma OpensByMarks(ws: seq<Word>, m: nat)
    requires Ended(ws) && m + 1 < |ws| && ws[m].kind.LBrace?
    requires ws[m + 1].kind.RBrace? || (m + 2 < |ws| && ws[m + 1].kind.Ident? && ws[m + 2].kind.Colon?)
    ensures OpensStructLit(ws, m)
  {}

  lemma StructStep(ws: seq<Word>, name: string, path: seq<string>, p: nat, fields: seq<FieldInit>, n: nat)
    requires Ended(ws) && p <= n < |ws| - 1 && FieldLoop(ws, [], p) == Parsed(fields, n) && ws[n].kind.RBrace?
    ensures ParseStructLit(ws, name, path, p) == Parsed(StructLit(name, path, fields), n + 1)
  {
    hide FieldLoop, Clean;
  }

  /** One field, with its comma if it has one. */
  lemma FieldStep(ws: seq<Word>, p: nat, have: seq<FieldInit>, v: Expr, n: nat)
    requires Ended(ws) && p + 2 < n < |ws| && ws[p].kind.Ident? && ws[p + 1].kind.Colon? && ParseExpr(ws, p + 2) == Parsed(v, n)
    requires ws[n].kind.Comma? ==> n + 1 < |ws|
    ensures FieldLoop(ws, have, p) == FieldLoop(ws, have + [FieldInit(ws[p].text, v)], if ws[n].kind.Comma? then n + 1 else n)
  {
    hide ParseExpr, Clean;
    assert ParseFieldInit(ws, p) == Parsed(FieldInit(ws[p].text, v), if ws[n].kind.Comma? then n + 1 else n);
  }

  lemma UnitStep(ws: seq<Word>, p: nat)
    requires Ended(ws) && p + 1 < |ws| && ws[p].kind.RParen?
    ensures ParseParenthesized(ws, p) == Parsed(TupleLit([]), p + 1)
  {}

  lemma TupleStep(ws: seq<Word>, p: nat, es: seq<Expr>, m: nat, n: nat)
    requires Ended(ws) && p < m < n < |ws| - 1 && es != [] && !ws[p].kind.RParen? && ParseExpr(ws, p) == Parsed(es[0], m)
    requires ws[m].kind.Comma? && TupleLoop(ws, [es[0]], m + 1) == Parsed(es, n) && ws[n].kind.RParen?
    ensures ParseParenthesized(ws, p) == Parsed(TupleLit(es), n + 1)
  {
    hide ParseExpr, TupleLoop, Clean;
  }

  lemma EmptyArrayStep(ws: seq<Word>, p: nat)
    requires Ended(ws) && p + 1 < |ws| && ws[p].kind.RBracket?
    ensures ParseArray(ws, p) == Parsed(ArrayLit([]), p + 1)
  {}

  lemma ArrayStep(ws: seq<Word>, p: nat, es: seq<Expr>, m: nat, n: nat)
    requires Ended(ws) && p < m <= n < |ws| - 1 && es != [] && !ws[p].kind.RBracket? && ParseExpr(ws, p) == Parsed(es[0], m)
    requires !ws[m].kind.Semicolon? && ElementLoop(ws, [es[0]], m) == Parsed(es, n) && ws[n].kind.RBracket?
    ensures ParseArray(ws, p) == Parsed(ArrayLit(es), n + 1)
  {
    hide ParseExpr, ElementLoop, Clean, ParseRepeat;
  }

  lemma RepeatStep(ws: seq<Word>, p: nat, x: Expr, count: Expr, m: nat, n: nat)
    requires Ended(ws) && p < m && m + 1 < n < |ws| - 1 && !ws[p].kind.RBracket?
    requires ParseExpr(ws, p) == Parsed(x, m) && ws[m].kind.Semicolon? && ParseExpr(ws, m + 1) == Parsed(count, n) && ws[n].kind.RBracket?
    ensures ParseArray(ws, p) ==
            if !(count.Literal? && count.kind == IntLit) then Parsed(ArrayLit([x]), n + 1)
            else if DecimalValue(count.text).None? then Bad(BadInteger, n)
            else Parsed(ArrayLit(seq(DecimalValue(count.text).value, _ => x)), n + 1)
  {
    hide ParseExpr, Clean, DecimalValue, ParseElements;
  }

  /** A conditional, in braces or not behind the else. */
  lemma ChoiceStep(ws: seq<Word>, p: nat, e: Expr, a: nat, b: nat, q: nat)
    requires e.IfExpr? && Ended(ws) && p < a && a + 1 < b && b + 2 < q < |ws|
    requires ParseExpr(ws, p) == Parsed(e.condition, a) && ParseExpr(ws, a + 1) == Parsed(e.thenExpr, b)
    requires ws[a].kind.LBrace? && ws[b].kind.RBrace? && ws[b + 1].kind.KwElse? && ParseElse(ws, b + 2) == Parsed(e.elseExpr, q)
    ensures ParseIfExpr(ws, p) == Parsed(e, q)
  {
    hide ParseExpr, ParseElse, Clean, Ended;
  }

  lemma ElseStep(ws: seq<Word>, p: nat, e: Expr, q: nat)
    requires Ended(ws) && p + 1 < q < |ws|
    requires (ws[p].kind.KwIf? && ParsePrimary(ws, p) == Parsed(e, q))
             || (ws[p].kind.LBrace? && ParseExpr(ws, p + 1) == Parsed(e, q - 1) && ws[q - 1].kind.RBrace?)
    ensures ParseElse(ws, p) == Parsed(e, q)
  {
    hide ParseExpr, ParsePrimary, Clean;
  }
}
