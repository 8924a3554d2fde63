/** Token texts that stand for themselves: scanned words are such texts, and such texts scan back. */
module SotlasLexStability {
  import opened Options
  import opened SotlasTokens
  import opened SotlasLexing

  // ---- texts that stand for themselves ------------------------------------

  predicate IsIdentText(t: string) {
    |t| > 0 && IsIdentStart(t[0]) && Run(t, 0, IdentChars) == |t|
  }

  predicate IsPrefixedText(t: string, low: char, high: char, cls: Class) {
    && |t| > 2 && t[0] == '0' && (t[1] == low || t[1] == high)
    && (forall k :: 2 <= k < |t| ==> cls.Has(t[k]) && t[k] != '_')
  }

  predicate IsDigits(t: string) {
    |t| > 0 && forall k :: 0 <= k < |t| ==> IsDigit(t[k])
  }

  predicate IsIntText(t: string) {
    || IsDigits(t)
    || IsPrefixedText(t, 'x', 'X', HexAndUnderscore)
    || IsPrefixedText(t, 'b', 'B', BinAndUnderscore)
  }

  /** Digits, a point, digits; d is the offset of the point. */
  predicate IsFloatSplit(t: string, d: nat) {
    d + 1 < |t| && IsDigits(t[..d]) && t[d] == '.' && IsDigits(t[d + 1..])
  }

  /** The text of the word, read back by the lexer on its own, is the word again. */
  ghost predicate IsPlain(kw: Keywords, w: Word) {
    if w.kind.IsOperator() then w.text == Spelling(w.kind)
    else if w.kind == IntLit then IsIntText(w.text)
    else if w.kind == FloatLit then exists d: nat :: IsFloatSplit(w.text, d)
    else (w.kind == Ident || w.kind.IsKeyword()) && IsIdentText(w.text) && w.kind == KeywordOr(kw, w.text)
  }

  /** What follows at offset n cannot extend a token of this kind. */
  predicate Stops(src: string, n: nat, k: Kind)
    requires n <= |src|
  {
    n < |src| ==>
      if k.LBrace? || k.RBrace? || k.LParen? || k.RParen? || k.LBracket? || k.RBracket? || k.Comma? then true
      else if k.IsOperator() then
        var c := src[n];
        c != '=' && c != '>' && c != '<' && c != '&' && c != '|' && c != '.' && c != ':' && c != '?' && c != '/' && c != '*'
      else
        && !IsIdentChar(src[n])
        && (src[n] == '.' ==> !IsDigit(Peek(src, n + 1)))
  }

  // ---- scanned words are plain --------------------------------------------

  lemma StripDigits(s: string, cls: Class)
    requires forall k :: 0 <= k < |s| ==> cls.Has(s[k])
    ensures forall k :: 0 <= k < |Strip(s)| ==> cls.Has(Strip(s)[k]) && Strip(s)[k] != '_'
    ensures |s| > 0 && s[0] != '_' ==> |Strip(s)| > 0
  {}

  lemma RunIsNonEmpty(src: string, i: nat, cls: Class)
    requires i < |src| && cls.Has(src[i])
    ensures Run(src, i, cls) > 0
  {}

  lemma ScannedNumberIsPlain(src: string, i: nat)
    requires i < |src| && IsDigit(src[i])
    ensures var r := ScanNumber(src, i); r.Scanned? ==>
              || (r.word.kind == IntLit && IsIntText(r.word.text))
              || (r.word.kind == FloatLit && exists d: nat :: IsFloatSplit(r.word.text, d))
  {
    var d := Peek(src, i + 1);
    if src[i] == '0' && (d == 'x' || d == 'X') {
      ScannedPrefixIsPlain(src, i, HexAndUnderscore, BadHex);
    } else if src[i] == '0' && (d == 'b' || d == 'B') {
      ScannedPrefixIsPlain(src, i, BinAndUnderscore, BadBinary);
    } else {
      ScannedDecimalIsPlain(src, i);
    }
  }

  lemma ScannedPrefixIsPlain(src: string, i: nat, cls: Class, reason: Reason)
    requires i + 2 <= |src| && !cls.Has('\0')
    ensures var r := ScanPrefixed(src, i, cls, reason); r.Scanned? ==>
              && r.word.kind == IntLit && |r.word.text| > 2
              && r.word.text[0] == src[i] && r.word.text[1] == src[i + 1]
              && forall k :: 2 <= k < |r.word.text| ==> cls.Has(r.word.text[k]) && r.word.text[k] != '_'
  {
    if ScanPrefixed(src, i, cls, reason).Scanned? {
      RunIsNonEmpty(src, i + 2, cls);
      StripDigits(src[i + 2..i + 2 + Run(src, i + 2, cls)], cls);
    }
  }

  lemma ScannedDecimalIsPlain(src: string, i: nat)
    requires i < |src| && IsDigit(src[i])
    ensures var r := ScanDecimal(src, i);
              || (r.word.kind == IntLit && IsDigits(r.word.text))
              || (r.word.kind == FloatLit && exists d: nat :: IsFloatSplit(r.word.text, d))
  {
    RunIsNonEmpty(src, i, DigitsAndUnderscore);
    var n := i + Run(src, i, DigitsAndUnderscore);
    var whole := Strip(src[i..n]);
    StripDigits(src[i..n], DigitsAndUnderscore);
    assert IsDigits(whole);
    if Peek(src, n) == '.' && IsDigit(Peek(src, n + 1)) {
      RunIsNonEmpty(src, n + 1, Digits);
      var m := n + 1 + Run(src, n + 1, Digits);
      var t := whole + src[n..m];
      assert t[..|whole|] == whole && t[|whole| + 1..] == src[n + 1..m];
      assert IsFloatSplit(t, |whole|);
    }
  }

  lemma ScannedIsPlain(src: string, kw: Keywords, i: nat)
    requires i < |src| && ValidKeywords(kw)
    ensures var r := ScanToken(src, kw, i); r.Scanned? ==>
              r.word.kind == StrLit || r.word.kind == CharLit || (r.word.kind != Eof && IsPlain(kw, r.word))
  {
    if IsDigit(src[i]) {
      ScannedNumberIsPlain(src, i);
    } else if IsIdentStart(src[i]) {
      RunIsNonEmpty(src, i, IdentChars);
      var t := src[i..i + Run(src, i, IdentChars)];
      RunOfAll(t, 0, IdentChars);
    } else if src[i] == '"' {
      StringKind(src, i + 1, "");
    } else if src[i] != '\'' {
      if ScanOperator(src, i).Scanned? {
        OperatorFits(src, i);
      }
    }
  }

  lemma StringKind(src: string, i: nat, buf: string)
    requires i <= |src|
    ensures ScanString(src, i, buf).Scanned? ==> ScanString(src, i, buf).word.kind == StrLit
    decreases |src| - i
  {}

  lemma RunOfAll(t: string, i: nat, cls: Class)
    requires i <= |t| && forall k :: i <= k < |t| ==> cls.Has(t[k])
    ensures Run(t, i, cls) == |t| - i
    decreases |t| - i
  {}

  // ---- plain words scan back ----------------------------------------------

  lemma RunExactly(src: string, i: nat, n: nat, cls: Class)
    requires i <= n <= |src|
    requires forall k :: i <= k < n ==> cls.Has(src[k])
    requires n < |src| ==> !cls.Has(src[n])
    ensures Run(src, i, cls) == n - i
    decreases n - i
  {}

  lemma StripNothing(s: string)
    requires forall k :: 0 <= k < |s| ==> s[k] != '_'
    ensures Strip(s) == s
  {}

  lemma PrefixedScansBack(src: string, i: nat, t: string, low: char, high: char, cls: Class, reason: Reason)
    requires IsPrefixedText(t, low, high, cls) && !cls.Has('\0')
    requires Spelled(src, i, t) && (i + |t| < |src| ==> !cls.Has(src[i + |t|]))
    ensures ScanPrefixed(src, i, cls, reason) == Scanned(Word(IntLit, t), i + |t|)
  {
    SpelledAt(src, i, t);
    var n := i + |t|;
    RunExactly(src, i + 2, n, cls);
    assert src[i + 2..n] == t[2..];
    StripNothing(t[2..]);
    assert src[i..i + 2] == t[..2];
    assert t == t[..2] + t[2..];
  }

  lemma IntScansBack(src: string, kw: Keywords, i: nat, t: string)
    requires IsIntText(t) && Spelled(src, i, t) && Stops(src, i + |t|, IntLit)
    ensures ScanToken(src, kw, i) == Scanned(Word(IntLit, t), i + |t|)
  {
    SpelledAt(src, i, t);
    assert src[i] == t[0];
    if IsPrefixedText(t, 'x', 'X', HexAndUnderscore) {
      assert src[i + 1] == t[1];
      PrefixedScansBack(src, i, t, 'x', 'X', HexAndUnderscore, BadHex);
    } else if IsPrefixedText(t, 'b', 'B', BinAndUnderscore) {
      assert src[i + 1] == t[1];
      PrefixedScansBack(src, i, t, 'b', 'B', BinAndUnderscore, BadBinary);
    } else {
      RunExactly(src, i, i + |t|, DigitsAndUnderscore);
      StripNothing(t);
      assert |t| > 1 ==> IsDigit(t[1]);
      assert |t| == 1 && i + 1 < |src| ==> !IsIdentChar(src[i + 1]);
    }
  }

  lemma FloatScansBack(src: string, kw: Keywords, i: nat, t: string, d: nat)
    requires IsFloatSplit(t, d) && Spelled(src, i, t) && Stops(src, i + |t|, FloatLit)
    ensures ScanToken(src, kw, i) == Scanned(Word(FloatLit, t), i + |t|)
  {
    FloatDigits(src, i, t, d);
    DecimalScansBack(src, i, t, d);
    assert Peek(src, i + 1) == '.' || IsDigit(Peek(src, i + 1));
  }

  lemma DecimalScansBack(src: string, i: nat, t: string, d: nat)
    requires IsFloatSplit(t, d) && Spelled(src, i, t) && Stops(src, i + |t|, FloatLit)
    ensures IsDigit(src[i]) && ScanDecimal(src, i) == Scanned(Word(FloatLit, t), i + |t|)
  {
    hide Run, Strip, IsDigits;
    var n := i + |t|;
    FloatDigits(src, i, t, d);
    FloatParts(src, i, t, d);
    RunExactly(src, i, i + d, DigitsAndUnderscore);
    RunExactly(src, i + d + 1, n, Digits);
    StripNothing(t[..d]);
  }

  lemma FloatParts(src: string, i: nat, t: string, d: nat)
    requires Spelled(src, i, t) && d <= |t|
    ensures src[i..i + d] == t[..d] && src[i + d..i + |t|] == t[d..] && t == t[..d] + t[d..]
  {}

  lemma FloatDigits(src: string, i: nat, t: string, d: nat)
    requires IsFloatSplit(t, d) && Spelled(src, i, t)
    ensures d > 0 && d + 1 < |t|
    ensures forall k :: i <= k < i + d ==> IsDigit(src[k])
    ensures src[i + d] == '.'
    ensures forall k :: i + d + 1 <= k < i + |t| ==> IsDigit(src[k])
    ensures forall k :: 0 <= k < d ==> IsDigit(t[k])
  {
    SpelledAt(src, i, t);
    forall k | 0 <= k < d ensures IsDigit(t[k]) {
      assert IsDigit(t[..d][k]);
    }
    forall k | i <= k < i + d ensures IsDigit(src[k]) {
      assert src[i + (k - i)] == t[k - i];
    }
    forall k | i + d + 1 <= k < i + |t| ensures IsDigit(src[k]) {
      assert IsDigit(t[d + 1..][k - i - d - 1]) && src[i + (k - i)] == t[k - i];
    }
  }

  lemma IdentScansBack(src: string, kw: Keywords, i: nat, t: string)
    requires IsIdentText(t) && Spelled(src, i, t) && (i + |t| < |src| ==> !IsIdentChar(src[i + |t|]))
    ensures ScanToken(src, kw, i) == Scanned(Word(KeywordOr(kw, t), t), i + |t|)
  {
    SpelledAt(src, i, t);
    assert src[i] == t[0];
    forall k | i <= k < i + |t| ensures IdentChars.Has(src[k]) {
      assert src[k] == t[k - i];
    }
    RunExactly(src, i, i + |t|, IdentChars);
  }

  /** An operator text starts with a character no other token starts with. */
  lemma OperatorStart(k: Kind)
    requires k.IsOperator()
    ensures var c := Spelling(k)[0];
            !IsDigit(c) && !IsIdentStart(c) && c != '"' && c != '\'' && !IsSpace(c) && (c == '/' ==> k == Slash || k == SlashEq)
  {}

  lemma TwoCharContinues(c: char, d: char)
    ensures TwoCharOperator(c, d).Some? ==>
              d == '=' || d == '>' || d == '<' || d == '&' || d == '|' || d == '.' || d == ':' || d == '?'
    ensures (c == '{' || c == '}' || c == '(' || c == ')' || c == '[' || c == ']' || c == ',') ==> TwoCharOperator(c, d).None?
  {}

  lemma OperatorScansBack(src: string, kw: Keywords, i: nat, k: Kind)
    requires k.IsOperator() && Spelled(src, i, Spelling(k)) && Stops(src, i + |Spelling(k)|, k)
    ensures ScanToken(src, kw, i) == Scanned(Word(k, Spelling(k)), i + |Spelling(k)|)
  {
    OperatorStart(k);
    var t := Spelling(k);
    SpelledAt(src, i, t);
    assert src[i] == t[0];
    OperatorChosen(src, i, k);
    hide Spelling, ScanOperator;
  }

  lemma OperatorChosen(src: string, i: nat, k: Kind)
    requires k.IsOperator() && Spelled(src, i, Spelling(k)) && Stops(src, i + |Spelling(k)|, k)
    ensures ScanOperator(src, i) == Scanned(Word(k, Spelling(k)), i + |Spelling(k)|)
  {
    hide Spelling, OneCharOperator, TwoCharOperator, Stops;
    TablesAreComplete(k);
    var t := Spelling(k);
    SpelledAt(src, i, t);
    LongerStops(src, i, k);
    assert src[i] == t[0];
    if |t| == 3 {
      assert src[i + 1] == t[1] && src[i + 2] == t[2];
      TablesAreComplete(if k == ShlEq then Shl else Shr);
      ShiftSpelling();
    } else if |t| == 2 {
      assert src[i + 1] == t[1];
    }
  }

  lemma ShiftSpelling()
    ensures Spelling(Shl) == "<<" && Spelling(Shr) == ">>" && Spelling(ShlEq) == "<<=" && Spelling(ShrEq) == ">>="
  {}

  /** What stops an operator does not continue it. */
  lemma LongerStops(src: string, i: nat, k: Kind)
    requires k.IsOperator() && Spelled(src, i, Spelling(k)) && Stops(src, i + |Spelling(k)|, k)
    ensures |Spelling(k)| == 1 ==> TwoCharOperator(src[i], Peek(src, i + 1)).None?
    ensures |Spelling(k)| == 2 ==> k != ShlEq && k != ShrEq && (k == Shl || k == Shr ==> Peek(src, i + 2) != '=')
  {
    hide TwoCharOperator;
    SpelledAt(src, i, Spelling(k));
    assert src[i] == Spelling(k)[0];
    TwoCharInside(src[i], Peek(src, i + 1));
    TwoCharContinues(src[i], Peek(src, i + 1));
  }

  lemma ScansBack(src: string, kw: Keywords, i: nat, w: Word)
    requires IsPlain(kw, w) && Spelled(src, i, w.text) && Stops(src, i + |w.text|, w.kind)
    ensures |w.text| > 0
    ensures ScanToken(src, kw, i) == Scanned(w, i + |w.text|)
    ensures SkipTrivia(src, i) == Skipped(i)
  {
    SpelledAt(src, i, w.text);
    if w.kind.IsOperator() {
      OperatorScansBack(src, kw, i, w.kind);
      hide Spelling, ScanToken, Stops;
      OperatorStart(w.kind);
      NotTrivia(src, i, w);
    } else if w.kind == IntLit {
      IntScansBack(src, kw, i, w.text);
      assert src[i] == w.text[0];
    } else if w.kind == FloatLit {
      var d: nat :| IsFloatSplit(w.text, d);
      FloatScansBack(src, kw, i, w.text, d);
      assert src[i] == w.text[0] == w.text[..d][0];
    } else {
      IdentScansBack(src, kw, i, w.text);
      assert src[i] == w.text[0];
    }
  }

  lemma NotTrivia(src: string, i: nat, w: Word)
    requires w.kind.IsOperator() && w.text == Spelling(w.kind) && Spelled(src, i, w.text) && Stops(src, i + |w.text|, w.kind)
    ensures SkipTrivia(src, i) == Skipped(i)
  {
    SpelledAt(src, i, w.text);
    OperatorStart(w.kind);
    assert src[i] == w.text[0];
    if w.kind == SlashEq {
      assert src[i + 1] == w.text[1];
    }
  }

  // ---- word lists ---------------------------------------------------------

  /** The words lexed from offset i, without their positions. */
  function LexWords(src: string, kw: Keywords, i: nat): (r: Option<seq<Word>>)
    requires i <= |src|
  {
    match LexFrom(src, kw, i)
    case LexError(_, _) => None
    case Lexemes(items) => Some(WordsOf(items))
  }

  function Cons(w: Word, rest: Option<seq<Word>>): Option<seq<Word>> {
    match rest
    case None => None
    case Some(ws) => Some([w] + ws)
  }

  lemma LexStep(src: string, kw: Keywords, i: nat)
    requires i < |src| && SkipTrivia(src, i) == Skipped(i) && ScanToken(src, kw, i).Scanned?
    ensures var s := ScanToken(src, kw, i); LexWords(src, kw, i) == Cons(s.word, LexWords(src, kw, s.next))
  {
    hide ScanToken, WordsOf;
    var s := ScanToken(src, kw, i);
    if LexFrom(src, kw, s.next).Lexemes? {
      WordsCons(Lexeme(s.word, i), LexFrom(src, kw, s.next).items);
    }
  }

  lemma WordsCons(x: Lexeme, rest: seq<Lexeme>)
    ensures WordsOf([x]) == [x.word]
    ensures WordsOf([x] + rest) == [x.word] + WordsOf(rest)
  {}

  lemma LexSpace(src: string, kw: Keywords, i: nat)
    requires i < |src| && src[i] == ' '
    ensures LexWords(src, kw, i) == LexWords(src, kw, i + 1)
  {}

  /** A plain word at offset i is the next word lexed. */
  lemma LexPlain(src: string, kw: Keywords, i: nat, w: Word)
    requires IsPlain(kw, w) && Spelled(src, i, w.text) && Stops(src, i + |w.text|, w.kind)
    ensures LexWords(src, kw, i) == Cons(w, LexWords(src, kw, i + |w.text|))
  {
    hide ScanToken, SkipTrivia, IsPlain, Stops, LexWords, Spelling;
    ScansBack(src, kw, i, w);
    LexStep(src, kw, i);
  }

  function ResolveWords(ws: seq<Word>): (r: seq<Word>)
    ensures |ws| > 0 ==> |r| > 0
  {
    if ws == [] then []
    else if |ws| > 2 && FusesAt(ws[0], ws[1], ws[2]) then [Word(KwCoOwned, "co-owned")] + ResolveWords(ws[3..])
    else [ws[0]] + ResolveWords(ws[1..])
  }

  /** One step of either function. */
  lemma ResolveFirst(xs: seq<Lexeme>)
    requires xs != []
    ensures var n := if |xs| > 2 && FusesAt(xs[0].word, xs[1].word, xs[2].word) then 3 else 1;
            Resolve(xs) == [if n == 3 then Lexeme(Word(KwCoOwned, "co-owned"), xs[0].at) else xs[0]] + Resolve(xs[n..])
  {
    hide FusesAt;
  }

  lemma ResolveWordsFirst(ws: seq<Word>)
    requires ws != []
    ensures var n := if |ws| > 2 && FusesAt(ws[0], ws[1], ws[2]) then 3 else 1;
            ResolveWords(ws) == [if n == 3 then Word(KwCoOwned, "co-owned") else ws[0]] + ResolveWords(ws[n..])
  {
    hide FusesAt;
  }

  lemma WordsFrom(xs: seq<Lexeme>, n: nat)
    requires n <= |xs|
    ensures WordsOf(xs)[n..] == WordsOf(xs[n..])
  {}

  lemma {:induction false} ResolveCommutes(xs: seq<Lexeme>)
    ensures WordsOf(Resolve(xs)) == ResolveWords(WordsOf(xs))
    decreases |xs|
  {
    hide FusesAt, Resolve, ResolveWords;
    if xs == [] {
      ResolveNone();
    } else {
      var n := if |xs| > 2 && FusesAt(xs[0].word, xs[1].word, xs[2].word) then 3 else 1;
      ResolveFirst(xs);
      ResolveWordsFirst(WordsOf(xs));
      WordsFrom(xs, n);
      ResolveCommutes(xs[n..]);
      WordsCons(Resolve(xs)[0], Resolve(xs[n..]));
    }
  }

  lemma ResolveNone()
    ensures WordsOf(Resolve([])) == ResolveWords(WordsOf([]))
  {}

  /** A plain word, then tail: the word is lexed and the lexer stands at the tail. */
  lemma PlainThen(src: string, kw: Keywords, i: nat, w: Word, tail: string)
    requires i <= |src| && src[i..] == w.text + tail && IsPlain(kw, w) && Stops(tail, 0, w.kind)
    ensures i + |w.text| <= |src| && src[i + |w.text|..] == tail
    ensures LexWords(src, kw, i) == Cons(w, LexWords(src, kw, i + |w.text|))
  {
    hide IsPlain, LexWords, Cons;
    var n := i + |w.text|;
    assert src[i..][..|w.text|] == w.text && src[i..][|w.text|..] == tail;
    assert src[i..n] == src[i..][..|w.text|];
    assert src[n..] == src[i..][|w.text|..];
    assert forall k :: 0 <= k < |tail| ==> src[n..][k] == src[n + k];
    assert Peek(src, n + 1) == Peek(tail, 1);
    LexPlain(src, kw, i, w);
  }

  lemma LexSkips(src: string, kw: Keywords, i: nat)
    requires i <= |src| && LexWords(src, kw, i).Some?
    ensures SkipTrivia(src, i).Skipped?
    ensures var j := SkipTrivia(src, i).next;
            if j == |src| then LexWords(src, kw, i) == Some([Word(Eof, "")])
            else
              && ScanToken(src, kw, j).Scanned?
              && LexWords(src, kw, i) == Cons(ScanToken(src, kw, j).word, LexWords(src, kw, ScanToken(src, kw, j).next))
  {
    hide ScanToken, WordsOf, SkipTrivia;
    var j := SkipTrivia(src, i).next;
    if SkipTrivia(src, i).Skipped? {
      if j == |src| {
        WordsCons(Lexeme(Word(Eof, ""), j), []);
      } else if ScanToken(src, kw, j).Scanned? {
        var s := ScanToken(src, kw, j);
        if LexFrom(src, kw, s.next).Lexemes? {
          WordsCons(Lexeme(s.word, j), LexFrom(src, kw, s.next).items);
        }
      }
    }
  }
}
