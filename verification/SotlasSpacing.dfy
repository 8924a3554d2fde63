/** Lexing is stable: the tokens of a source, written out with any blanks and comments between them,
    lex to the same tokens. */
module SotlasSpacing {
  import opened Options
  import opened SotlasTokens
  import opened SotlasLexing
  import opened SotlasLexStability
  import Quoted = SotlasQuoted
  import opened SotlasTrivia

  // ---- how a token is written ---------------------------------------------------------

  function Source(w: Word): string {
    if w.kind == StrLit then Quoted.Quoted(w.text)
    else if w.kind == CharLit && |w.text| == 1 then Quoted.QuotedPiece(Quoted.Escape(w.text[0]))
    else w.text
  }

  ghost predicate IsWord(kw: Keywords, w: Word) {
    w.kind == StrLit || (w.kind == CharLit && |w.text| == 1) || (w.kind != StrLit && w.kind != CharLit && IsPlain(kw, w))
  }

  /** The words of a source: nothing but the last is the end. */
  ghost predicate IsRaw(kw: Keywords, ws: seq<Word>) {
    && |ws| > 0 && ws[|ws| - 1] == Word(Eof, "")
    && forall k :: 0 <= k < |ws| - 1 ==> IsWord(kw, ws[k])
  }

  predicate EndsToken(tail: string) {
    tail == "" || IsSpace(tail[0])
  }

  lemma BlankStops(tail: string, k: Kind)
    requires EndsToken(tail)
    ensures Stops(tail, 0, k)
  {}

  /** A token in front of a blank is read back, and the lexer stands behind it. */
  lemma WordThen(src: string, kw: Keywords, i: nat, w: Word, tail: string)
    requires i <= |src| && src[i..] == Source(w) + tail && IsWord(kw, w) && EndsToken(tail)
    ensures i + |Source(w)| <= |src| && src[i + |Source(w)|..] == tail
    ensures LexWords(src, kw, i) == Cons(w, LexWords(src, kw, i + |Source(w)|))
  {
    hide IsPlain, LexWords, Cons, Stops, Quoted.Quoted, Quoted.QuotedPiece;
    if w.kind == StrLit || w.kind == CharLit {
      QuotedThen(src, kw, i, w, tail);
    } else {
      BlankStops(tail, w.kind);
      PlainThen(src, kw, i, w, tail);
    }
  }

  lemma QuotedThen(src: string, kw: Keywords, i: nat, w: Word, tail: string)
    requires i <= |src| && src[i..] == Source(w) + tail && (w.kind == StrLit || (w.kind == CharLit && |w.text| == 1))
    ensures i + |Source(w)| <= |src| && src[i + |Source(w)|..] == tail
    ensures LexWords(src, kw, i) == Cons(w, LexWords(src, kw, i + |Source(w)|))
  {
    hide LexWords, Cons, ScanToken, Quoted.Escape, Quoted.EscapeAll, Quoted.Text, Quoted.PieceText;
    var t := Source(w);
    QuoteFirst(w);
    assert Quoted.Quoted(w.text) <= src[i..] || w.kind == CharLit;
    assert src[i + |t|..] == src[i..][|t|..];
    assert src[i] == src[i..][0] == t[0];
    if w.kind == StrLit {
      Quoted.QuotedReads(src, kw, i, w.text);
    } else {
      Quoted.EveryCharacterReads(src, kw, i, w.text[0]);
      assert [w.text[0]] == w.text;
    }
    LexStep(src, kw, i);
  }

  lemma QuoteFirst(w: Word)
    requires w.kind == StrLit || (w.kind == CharLit && |w.text| == 1)
    ensures |Source(w)| > 0 && (Source(w)[0] == '"' || Source(w)[0] == '\'')
  {}

  // ---- tokens with gaps -----------------------------------------------------------------

  /** A gap before every token, the end included. */
  function Spread(ws: seq<Word>, gaps: seq<seq<Trivium>>): string
    requires |gaps| == |ws|
  {
    if ws == [] then "" else Text(gaps[0]) + (Source(ws[0]) + Spread(ws[1..], gaps[1..]))
  }

  /** Blanks and comments; the gap between two tokens starts with a blank. */
  predicate AreGaps(ws: seq<Word>, gaps: seq<seq<Trivium>>, inside: bool)
    requires |gaps| == |ws|
  {
    ws != [] ==>
      && AreTrivia(gaps[0], Source(ws[0]) + Spread(ws[1..], gaps[1..]))
      && (inside ==> (gaps[0] != [] && gaps[0][0].Blank?) || (gaps[0] == [] && ws[0] == Word(Eof, "")))
      && AreGaps(ws[1..], gaps[1..], true)
  }

  lemma LexTrivia(src: string, kw: Keywords, i: nat, ts: seq<Trivium>, rest: string)
    requires i <= |src| && src[i..] == Text(ts) + rest && AreTrivia(ts, rest)
    ensures i + |Text(ts)| <= |src| && src[i + |Text(ts)|..] == rest
    ensures LexWords(src, kw, i) == LexWords(src, kw, i + |Text(ts)|)
  {
    hide SkipTrivia, AreTrivia, Text, WordsOf, ScanToken;
    SkipsAll(src, i, ts, rest);
  }

  lemma GapEnds(ws: seq<Word>, gaps: seq<seq<Trivium>>)
    requires |gaps| == |ws| > 0 && ws[|ws| - 1] == Word(Eof, "") && AreGaps(ws, gaps, true)
    ensures EndsToken(Spread(ws, gaps))
  {
    if gaps[0] != [] {
      assert Spread(ws, gaps)[0] == Text(gaps[0])[0] == gaps[0][0].c;
    }
  }

  lemma EofSource()
    ensures Source(Word(Eof, "")) == ""
  {}

  lemma {:induction false} SpreadLexesBack(src: string, kw: Keywords, i: nat, ws: seq<Word>, gaps: seq<seq<Trivium>>, inside: bool)
    requires i <= |src| && IsRaw(kw, ws) && "co" !in kw && "owned" !in kw
    requires |gaps| == |ResolveWords(ws)| && AreGaps(ResolveWords(ws), gaps, inside) && src[i..] == Spread(ResolveWords(ws), gaps)
    ensures LexWords(src, kw, i) == Some(ws)
    decreases |ws|
  {
    hide LexWords, IsWord, FusesAt, ResolveWords, Source, AreTrivia, Text, Spread, AreGaps, IsRaw, EndsToken;
    LastIsEnd(kw, ws);
    var rs := ResolveWords(ws);
    ResolveWordsFirst(ws);
    LastStays(kw, ws);
    GapAt(src, kw, i, rs, gaps, inside);
    var n := i + |Text(gaps[0])|;
    if |ws| == 1 {
      OnlyEnd(src, kw, n, ws, rs, gaps);
    } else {
      var fused := |ws| > 2 && FusesAt(ws[0], ws[1], ws[2]);
      var k := if fused then 3 else 1;
      LastOf(kw, ws);
      var tail := Spread(rs[1..], gaps[1..]);
      GapEnds(rs[1..], gaps[1..]);
      if fused {
        FusedThen(src, kw, n, ws[0], ws[1], ws[2], tail);
        assert ws == [ws[0]] + ([ws[1]] + ([ws[2]] + ws[3..]));
      } else {
        WordThen(src, kw, n, ws[0], tail);
        assert ws == [ws[0]] + ws[1..];
      }
      SpreadLexesBack(src, kw, n + |Source(rs[0])|, ws[k..], gaps[1..], true);
    }
  }

  /** The gap in front of the first token is skipped. */
  lemma GapAt(src: string, kw: Keywords, i: nat, rs: seq<Word>, gaps: seq<seq<Trivium>>, inside: bool)
    requires |gaps| == |rs| > 0 && AreGaps(rs, gaps, inside) && i <= |src| && src[i..] == Spread(rs, gaps)
    ensures var n := i + |Text(gaps[0])|;
            && n <= |src| && src[n..] == Source(rs[0]) + Spread(rs[1..], gaps[1..])
            && LexWords(src, kw, i) == LexWords(src, kw, n) && AreGaps(rs[1..], gaps[1..], true)
  {
    hide LexWords, Source, AreTrivia, Text;
    LexTrivia(src, kw, i, gaps[0], Source(rs[0]) + Spread(rs[1..], gaps[1..]));
  }

  lemma OnlyEnd(src: string, kw: Keywords, n: nat, ws: seq<Word>, rs: seq<Word>, gaps: seq<seq<Trivium>>)
    requires ws == [Word(Eof, "")] && rs == ResolveWords(ws) && |gaps| == |rs| > 0
    requires n <= |src| && src[n..] == Source(rs[0]) + Spread(rs[1..], gaps[1..])
    ensures LexWords(src, kw, n) == Some(ws)
  {
    assert ResolveWords(ws[1..]) == [];
    assert rs == ws && rs[1..] == [];
    assert n == |src|;
    assert LexFrom(src, kw, n) == Lexemes([Lexeme(ws[0], n)]);
    assert WordsOf([Lexeme(ws[0], n)]) == ws;
  }

  lemma LastOf(kw: Keywords, ws: seq<Word>)
    requires IsRaw(kw, ws) && |ws| > 1
    ensures IsWord(kw, ws[0]) && IsRaw(kw, ws[1..])
    ensures |ws| > 2 && FusesAt(ws[0], ws[1], ws[2]) ==> |ws| > 3 && IsWord(kw, ws[1]) && IsWord(kw, ws[2]) && IsRaw(kw, ws[3..])
  {
    hide IsWord;
  }

  lemma {:induction false} LastStays(kw: Keywords, ws: seq<Word>)
    requires IsRaw(kw, ws)
    ensures var rs := ResolveWords(ws); |rs| > 0 && rs[|rs| - 1] == Word(Eof, "")
    decreases |ws|
  {
    hide FusesAt, IsRaw, ResolveWords;
    LastIsEnd(kw, ws);
    ResolveWordsFirst(ws);
    if |ws| == 1 {
      assert ws[1..] == [];
      NothingResolved();
    } else {
      LastOf(kw, ws);
      var rest := ws[if |ws| > 2 && FusesAt(ws[0], ws[1], ws[2]) then 3 else 1..];
      LastStays(kw, rest);
      var rs := ResolveWords(ws);
      assert rs[1..] == ResolveWords(rest) && rs[|rs| - 1] == rs[1..][|rs| - 2];
    }
  }

  lemma LastIsEnd(kw: Keywords, ws: seq<Word>)
    requires IsRaw(kw, ws)
    ensures ws != [] && ws[|ws| - 1] == Word(Eof, "")
  {}

  lemma NothingResolved()
    ensures ResolveWords([]) == []
  {}

  lemma CoAndOwnedArePlain(kw: Keywords)
    requires "co" !in kw && "owned" !in kw
    ensures IsPlain(kw, Word(Ident, "co")) && IsPlain(kw, Word(Ident, "owned"))
  {
    RunOfAll("co", 0, IdentChars);
    RunOfAll("owned", 0, IdentChars);
  }

  lemma PlainMinus(kw: Keywords, w: Word)
    requires IsWord(kw, w) && w.kind == Minus
    ensures w.text == "-" && IsPlain(kw, w)
  {}

  /** The compound keyword is read as the three tokens it was made of. */
  lemma FusedThen(src: string, kw: Keywords, i: nat, a: Word, b: Word, c: Word, tail: string)
    requires i <= |src| && src[i..] == Source(Word(KwCoOwned, "co-owned")) + tail && EndsToken(tail)
    requires "co" !in kw && "owned" !in kw && FusesAt(a, b, c) && IsWord(kw, b)
    ensures var n := i + |Source(Word(KwCoOwned, "co-owned"))|;
            && n <= |src| && src[n..] == tail
            && LexWords(src, kw, i) == Cons(a, Cons(b, Cons(c, LexWords(src, kw, n))))
  {
    hide LexWords, Cons, IsPlain, IsWord, Stops, EndsToken;
    CoAndOwnedArePlain(kw);
    PlainMinus(kw, b);
    var two, three := c.text + tail, b.text + (c.text + tail);
    FusedText(tail);
    InnerStops(three, two);
    PlainThen(src, kw, i, a, three);
    PlainThen(src, kw, i + 2, b, two);
    BlankStops(tail, c.kind);
    PlainThen(src, kw, i + 3, c, tail);
  }

  lemma FusedText(tail: string)
    ensures Source(Word(KwCoOwned, "co-owned")) + tail == "co" + ("-" + ("owned" + tail))
    ensures ("-" + ("owned" + tail))[0] == '-' && ("owned" + tail)[0] == 'o' && |Source(Word(KwCoOwned, "co-owned"))| == 8
  {}

  lemma InnerStops(three: string, two: string)
    requires three != "" && three[0] == '-' && two != "" && two[0] == 'o'
    ensures Stops(three, 0, Ident) && Stops(two, 0, Minus)
  {}

  // ---- every source -----------------------------------------------------------------------

  lemma ScannedIsWord(src: string, kw: Keywords, i: nat)
    requires i < |src| && ValidKeywords(kw) && ScanToken(src, kw, i).Scanned?
    ensures IsWord(kw, ScanToken(src, kw, i).word)
  {
    ScannedIsPlain(src, kw, i);
    hide IsPlain, ScanNumber, ScanIdent, ScanOperator, ScanString;
    if ScanToken(src, kw, i).word.kind == CharLit {
      CharHasOne(src, kw, i);
    }
  }

  lemma CharHasOne(src: string, kw: Keywords, i: nat)
    requires i < |src| && ScanToken(src, kw, i).Scanned? && ScanToken(src, kw, i).word.kind == CharLit && ValidKeywords(kw)
    ensures |ScanToken(src, kw, i).word.text| == 1
  {
    if IsDigit(src[i]) {
    } else if src[i] == '"' {
      StringKind(src, i + 1, "");
    } else if !IsIdentStart(src[i]) && src[i] != '\'' {
      OperatorFits(src, i);
    }
  }

  lemma {:induction false} LexedIsRaw(src: string, kw: Keywords, i: nat)
    requires i <= |src| && ValidKeywords(kw) && LexWords(src, kw, i).Some?
    ensures IsRaw(kw, LexWords(src, kw, i).value)
    decreases |src| - i
  {
    LexSkips(src, kw, i);
    hide ScanToken, IsWord, LexWords, IsRaw;
    var j := SkipTrivia(src, i).next;
    if j == |src| {
      EofIsRaw(kw);
    } else {
      var s := ScanToken(src, kw, j);
      ScannedIsWord(src, kw, j);
      LexedIsRaw(src, kw, s.next);
      RawCons(kw, s.word, LexWords(src, kw, s.next).value);
    }
  }

  lemma EofIsRaw(kw: Keywords)
    ensures IsRaw(kw, [Word(Eof, "")])
  {}

  lemma RawCons(kw: Keywords, w: Word, rest: seq<Word>)
    requires IsWord(kw, w) && IsRaw(kw, rest)
    ensures IsRaw(kw, [w] + rest)
  {
    hide IsWord;
  }

  /** For every source that tokenizes: its tokens, written with any blanks and comments between them,
      lex to the same kinds and texts. */
  lemma LexingIsStable(src: string, kw: Keywords, gaps: seq<seq<Trivium>>)
    requires ValidKeywords(kw) && "co" !in kw && "owned" !in kw && Lex(src, kw).Lexemes?
    requires var ws := WordsOf(Lex(src, kw).items); |gaps| == |ws| && AreGaps(ws, gaps, false)
    ensures var ws := WordsOf(Lex(src, kw).items);
            var again := Lex(Spread(ws, gaps), kw);
            again.Lexemes? && WordsOf(again.items) == ws
  {
    hide AreGaps, Spread, IsRaw, LexFrom, Resolve, ResolveWords;
    var raw := LexWords(src, kw, 0).value;
    ResolveCommutes(LexFrom(src, kw, 0).items);
    LexedIsRaw(src, kw, 0);
    var text := Spread(ResolveWords(raw), gaps);
    assert text[0..] == text;
    SpreadLexesBack(text, kw, 0, raw, gaps, false);
    ResolveCommutes(LexFrom(text, kw, 0).items);
  }
}
