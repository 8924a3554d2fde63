/** The whole lexer: a source tokenizes exactly as it is made up of tokens and trivia. */
module SotlasTiling {
  import opened Options
  import opened SotlasTokens
  import opened SotlasLexing
  import opened SotlasTrivia
  import opened SotlasLexicon

  /** Blanks and comments from i to j, and then no more of them. */
  ghost predicate IsGap(src: string, i: nat, j: nat)
    requires i <= |src|
  {
    i <= j <= |src| && IsTriviaText(src, i, j) && !StartsTrivia(src[j..])
  }

  /** The longest token from j to n. */
  ghost predicate IsTokenAt(src: string, kw: Keywords, j: nat, n: nat, w: Word) {
    j < n <= |src| && IsToken(kw, src[j..n], w) && IsLongest(src, j, n)
  }

  /** From i on the source is gap, token, gap, token, up to its end. */
  ghost predicate Tiles(src: string, kw: Keywords, i: nat, xs: seq<Lexeme>)
    requires i <= |src|
    decreases |xs|
  {
    && xs != [] && IsGap(src, i, xs[0].at)
    && if xs[0].at == |src| then xs == [Lexeme(Word(Eof, ""), |src|)]
       else exists n :: IsTokenAt(src, kw, xs[0].at, n, xs[0].word) && Tiles(src, kw, n, xs[1..])
  }

  /** It is so up to a place where a comment is opened for good, or where no token stands. */
  ghost predicate Breaks(src: string, kw: Keywords, i: nat, reason: Reason, at: nat)
    requires i <= |src|
    decreases |src| - i
  {
    || (reason == OpenComment && i <= at <= |src| && IsTriviaText(src, i, at) && IsUnclosed(src[at..]))
    || (at < |src| && IsGap(src, i, at) && ScanToken(src, kw, at) == Rejected(reason))
    || (exists j, n, w :: IsGap(src, i, j) && IsTokenAt(src, kw, j, n, w) && Breaks(src, kw, n, reason, at))
  }

  lemma GapIs(src: string, i: nat, j: nat)
    requires i <= |src|
    ensures SkipTrivia(src, i) == Skipped(j) <==> IsGap(src, i, j)
  {
    hide *;
    SkipIsTrivia(src, i, j);
    GapMeans(src, i, j);
  }

  lemma GapMeans(src: string, i: nat, j: nat)
    requires i <= |src|
    ensures IsGap(src, i, j) <==> i <= j <= |src| && IsTriviaText(src, i, j) && !StartsTrivia(src[j..])
  {
    hide IsTriviaText, StartsTrivia;
  }

  lemma TokenIs(src: string, kw: Keywords, j: nat, n: nat, w: Word)
    requires j < |src|
    ensures ScanToken(src, kw, j) == Scanned(w, n) <==> IsTokenAt(src, kw, j, n, w)
  {
    hide IsToken, IsLongest, ScanToken;
    if j < n <= |src| {
      ScanIsLongestToken(src, kw, j, n, w);
    }
  }

  /** The tokens of a source are the ones it is made up of, and no others. */
  lemma {:induction false} LexedIsTiled(src: string, kw: Keywords, i: nat, xs: seq<Lexeme>)
    requires i <= |src|
    ensures LexFrom(src, kw, i) == Lexemes(xs) <==> Tiles(src, kw, i, xs)
    decreases |src| - i
  {
    hide SkipTrivia, ScanToken, IsGap, IsTokenAt;
    if SkipTrivia(src, i).Skipped? {
      var j := SkipTrivia(src, i).next;
      GapIs(src, i, j);
    }
    if xs != [] {
      GapIs(src, i, xs[0].at);
      if SkipTrivia(src, i) == Skipped(xs[0].at) && xs[0].at < |src| {
        TiledStep(src, kw, i, xs);
      }
    }
  }

  lemma {:induction false} TiledStep(src: string, kw: Keywords, i: nat, xs: seq<Lexeme>)
    requires i <= |src| && xs != [] && SkipTrivia(src, i) == Skipped(xs[0].at) && IsGap(src, i, xs[0].at) && xs[0].at < |src|
    ensures LexFrom(src, kw, i) == Lexemes(xs) <==> Tiles(src, kw, i, xs)
    decreases |src| - i, 0
  {
    hide SkipTrivia, ScanToken, IsGap, IsTokenAt;
    var j := xs[0].at;
    assert i <= j by { GapWithin(src, i, j); }
    forall n, w ensures ScanToken(src, kw, j) == Scanned(w, n) <==> IsTokenAt(src, kw, j, n, w) {
      TokenIs(src, kw, j, n, w);
    }
    var s := ScanToken(src, kw, j);
    if s.Scanned? {
      LexedIsTiled(src, kw, s.next, xs[1..]);
      assert xs == [xs[0]] + xs[1..];
    }
  }

  lemma GapWithin(src: string, i: nat, j: nat)
    requires i <= |src| && IsGap(src, i, j)
    ensures i <= j
  {}

  lemma TokenWithin(src: string, kw: Keywords, i: nat, j: nat, n: nat, w: Word)
    requires i <= |src| && IsGap(src, i, j) && IsTokenAt(src, kw, j, n, w)
    ensures i <= j < n <= |src|
  {}

  /** A source that does not tokenize breaks where the error is reported, and for that reason. */
  lemma {:induction false} ErrorIsBreak(src: string, kw: Keywords, i: nat, reason: Reason, at: nat)
    requires i <= |src|
    ensures LexFrom(src, kw, i) == LexError(reason, at) <==> Breaks(src, kw, i, reason, at)
    decreases |src| - i
  {
    hide SkipTrivia, ScanToken, IsGap, IsTokenAt, IsUnclosed, IsTriviaText;
    OpenIsUnclosed(src, i, at);
    forall j ensures SkipTrivia(src, i) == Skipped(j) <==> IsGap(src, i, j) {
      GapIs(src, i, j);
    }
    forall j: nat, n: nat, w | IsGap(src, i, j) && IsTokenAt(src, kw, j, n, w) ensures i <= j < n <= |src| {
      TokenWithin(src, kw, i, j, n, w);
    }
    if SkipTrivia(src, i).Skipped? && SkipTrivia(src, i).next < |src| {
      var j := SkipTrivia(src, i).next;
      forall n, w ensures ScanToken(src, kw, j) == Scanned(w, n) <==> IsTokenAt(src, kw, j, n, w) {
        TokenIs(src, kw, j, n, w);
      }
      var s := ScanToken(src, kw, j);
      if s.Scanned? {
        ErrorIsBreak(src, kw, s.next, reason, at);
      }
    }
  }
}
