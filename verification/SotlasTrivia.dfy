/** What the lexer skips: blanks and comments, as texts, and that they change no token. */
module SotlasTrivia {
  import opened Options
  import opened SotlasTokens
  import opened SotlasLexing

  datatype Trivium = Blank(c: char) | LineComment(text: string) | BlockComment(text: string)

  function TriviumText(t: Trivium): string {
    match t
    case Blank(c) => [c]
    case LineComment(text) => "//" + text
    case BlockComment(text) => "/*" + (text + "*/")
  }

  /** The text does not hold what would end the comment. */
  predicate IsTrivium(t: Trivium) {
    match t
    case Blank(c) => c == ' ' || c == '\t' || c == '\r' || c == '\n'
    case LineComment(text) => forall k :: 0 <= k < |text| ==> text[k] != '\n'
    case BlockComment(text) => HasNoEnd(text)
  }

  predicate HasNoEnd(text: string) {
    forall k :: 0 <= k < |text| - 1 ==> !(text[k] == '*' && text[k + 1] == '/')
  }

  function Text(ts: seq<Trivium>): string {
    if ts == [] then "" else TriviumText(ts[0]) + Text(ts[1..])
  }

  /** Blanks and comments in front of rest; a line comment goes up to a newline or the end. */
  predicate AreTrivia(ts: seq<Trivium>, rest: string) {
    ts != [] ==>
      && IsTrivium(ts[0]) && AreTrivia(ts[1..], rest)
      && (ts[0].LineComment? ==> var next := Text(ts[1..]) + rest; next == "" || next[0] == '\n')
  }

  predicate StartsTrivia(rest: string) {
    rest != "" &&
    (|| rest[0] == ' ' || rest[0] == '\t' || rest[0] == '\r' || rest[0] == '\n'
     || (|rest| > 1 && rest[0] == '/' && (rest[1] == '/' || rest[1] == '*')))
  }

  /** A comment that is opened and never closed. */
  predicate IsUnclosed(rest: string) {
    |rest| >= 2 && rest[0] == '/' && rest[1] == '*' && HasNoEnd(rest[2..])
  }

  // ---- where single comments end ----------------------------------------------------

  lemma {:induction false} LineEndIs(src: string, i: nat, text: string, rest: string)
    requires i <= |src| && src[i..] == text + rest && (forall k :: 0 <= k < |text| ==> text[k] != '\n')
    requires rest == "" || rest[0] == '\n'
    ensures LineEnd(src, i) == i + |text|
    decreases |text|
  {
    if text != "" {
      assert src[i] == src[i..][0] == text[0];
      assert src[i + 1..] == src[i..][1..] == text[1..] + rest;
      LineEndIs(src, i + 1, text[1..], rest);
    } else if i < |src| {
      assert src[i] == src[i..][0] == rest[0];
    }
  }

  lemma HasNoEndTail(text: string)
    requires HasNoEnd(text) && text != ""
    ensures HasNoEnd(text[1..])
  {
    var t := text[1..];
    forall k | 0 <= k < |t| - 1 ensures !(t[k] == '*' && t[k + 1] == '/') {
      assert t[k] == text[k + 1] && t[k + 1] == text[k + 2];
    }
  }

  lemma HasNoEndCons(c: char, text: string)
    requires HasNoEnd(text) && !(c == '*' && text != "" && text[0] == '/')
    ensures HasNoEnd([c] + text)
  {
    var t := [c] + text;
    forall k | 0 <= k < |t| - 1 ensures !(t[k] == '*' && t[k + 1] == '/') {
      if k > 0 {
        assert t[k] == text[k - 1] && t[k + 1] == text[k];
      }
    }
  }

  lemma {:induction false} CommentEndIs(src: string, i: nat, text: string, rest: string)
    requires i <= |src| && src[i..] == text + ("*/" + rest) && HasNoEnd(text)
    ensures CommentEnd(src, i) == Some(i + |text| + 2)
    decreases |text|
  {
    var all := text + ("*/" + rest);
    assert |src| - i == |all|;
    assert src[i] == src[i..][0] == all[0] && src[i + 1] == src[i..][1] == all[1];
    if text != "" {
      assert |text| > 1 ==> all[1] == text[1];
      assert src[i + 1..] == src[i..][1..] == text[1..] + ("*/" + rest);
      HasNoEndTail(text);
      CommentEndIs(src, i + 1, text[1..], rest);
    }
  }

  lemma {:induction false} CommentEndOr(src: string, i: nat)
    requires i <= |src|
    ensures CommentEnd(src, i).None? ==> HasNoEnd(src[i..])
    ensures CommentEnd(src, i).Some? ==>
              var j := CommentEnd(src, i).value;
              i + 2 <= j <= |src| && src[i..j] == src[i..j - 2] + "*/" && HasNoEnd(src[i..j - 2])
    decreases |src| - i
  {
    if i < |src| && !(src[i] == '*' && Peek(src, i + 1) == '/') {
      CommentEndOr(src, i + 1);
      if CommentEnd(src, i).None? {
        assert src[i..] == [src[i]] + src[i + 1..];
        HasNoEndCons(src[i], src[i + 1..]);
      } else {
        var j := CommentEnd(src, i).value;
        assert src[i..j - 2] == [src[i]] + src[i + 1..j - 2] && src[j - 2..j] == "*/" by {
          assert src[i + 1..j][j - i - 3..] == "*/";
        }
        assert j - 2 > i + 1 ==> src[i + 1..j - 2][0] == src[i + 1];
        HasNoEndCons(src[i], src[i + 1..j - 2]);
      }
    }
  }

  // ---- trivia are skipped -----------------------------------------------------------------

  /** What the first two characters of a text in the source make of SkipTrivia. */
  lemma CommentStep(src: string, i: nat)
    requires i + 2 <= |src| && src[i] == '/'
    ensures src[i + 1] == '/' ==> SkipTrivia(src, i) == SkipTrivia(src, LineEnd(src, i + 2))
    ensures src[i + 1] == '*' ==>
              SkipTrivia(src, i) == if CommentEnd(src, i + 2).None? then Unclosed(i) else SkipTrivia(src, CommentEnd(src, i + 2).value)
  {}

  lemma BlankStep(src: string, i: nat)
    requires i < |src| && IsSpace(src[i])
    ensures SkipTrivia(src, i) == SkipTrivia(src, i + 1)
  {}

  /** One piece of trivia is skipped as a whole. */
  lemma SkipsOne(src: string, i: nat, t: Trivium, rest: string)
    requires i <= |src| && src[i..] == TriviumText(t) + rest && IsTrivium(t)
    requires t.LineComment? ==> rest == "" || rest[0] == '\n'
    ensures i + |TriviumText(t)| <= |src| && src[i + |TriviumText(t)|..] == rest
    ensures SkipTrivia(src, i) == SkipTrivia(src, i + |TriviumText(t)|)
  {
    hide SkipTrivia, LineEnd, CommentEnd, HasNoEnd;
    var text := TriviumText(t);
    assert src[i + |text|..] == src[i..][|text|..] == rest;
    assert src[i] == src[i..][0] == text[0];
    if t.Blank? {
      BlankStep(src, i);
    } else {
      assert src[i + 1] == src[i..][1] == text[1];
      CommentStep(src, i);
      CommentBody(src, i, t, rest);
    }
  }

  lemma CommentBody(src: string, i: nat, t: Trivium, rest: string)
    requires i <= |src| && src[i..] == TriviumText(t) + rest && IsTrivium(t) && !t.Blank?
    requires t.LineComment? ==> rest == "" || rest[0] == '\n'
    ensures i + 2 <= |src|
    ensures t.LineComment? ==> LineEnd(src, i + 2) == i + |TriviumText(t)|
    ensures t.BlockComment? ==> CommentEnd(src, i + 2) == Some(i + |TriviumText(t)|)
  {
    hide LineEnd, CommentEnd, HasNoEnd;
    if t.LineComment? {
      Behind(src, i, "//", t.text + rest);
      assert TriviumText(t) + rest == "//" + (t.text + rest);
      LineEndIs(src, i + 2, t.text, rest);
    } else {
      var more := t.text + ("*/" + rest);
      assert TriviumText(t) + rest == "/*" + more;
      Behind(src, i, "/*", more);
      CommentEndIs(src, i + 2, t.text, rest);
    }
  }

  lemma Behind(src: string, i: nat, a: string, b: string)
    requires i <= |src| && src[i..] == a + b
    ensures i + |a| <= |src| && src[i + |a|..] == b
  {
    assert src[i + |a|..] == src[i..][|a|..];
  }

  lemma {:induction false} SkipsAll(src: string, i: nat, ts: seq<Trivium>, rest: string)
    requires i <= |src| && src[i..] == Text(ts) + rest && AreTrivia(ts, rest)
    ensures i + |Text(ts)| <= |src| && src[i + |Text(ts)|..] == rest
    ensures SkipTrivia(src, i) == SkipTrivia(src, i + |Text(ts)|)
    decreases |ts|
  {
    hide SkipTrivia, IsTrivium, TriviumText;
    if ts != [] {
      var more := Text(ts[1..]) + rest;
      assert src[i..] == TriviumText(ts[0]) + more;
      SkipsOne(src, i, ts[0], more);
      SkipsAll(src, i + |TriviumText(ts[0])|, ts[1..], rest);
    }
  }

  lemma StartsAt(src: string, j: nat)
    requires j <= |src|
    ensures StartsTrivia(src[j..]) <==> j < |src| && (IsSpace(src[j]) || (src[j] == '/' && (Peek(src, j + 1) == '/' || Peek(src, j + 1) == '*')))
    ensures |src[j..]| > 1 ==> src[j..][0] == src[j] && src[j..][1] == src[j + 1]
  {
    if j < |src| {
      assert src[j..][0] == src[j];
      if j + 1 < |src| {
        assert src[j..][1] == src[j + 1];
      }
    }
  }

  lemma StopsHere(src: string, j: nat)
    requires j <= |src|
    ensures !StartsTrivia(src[j..]) ==> SkipTrivia(src, j) == Skipped(j)
    ensures IsUnclosed(src[j..]) ==> SkipTrivia(src, j) == Unclosed(j)
  {
    StartsAt(src, j);
    if IsUnclosed(src[j..]) {
      assert src[j..][2..] == src[j + 2..];
      if CommentEnd(src, j + 2).Some? {
        EndsInside(src, j + 2);
        assert false;
      }
    }
  }

  lemma EndsInside(src: string, i: nat)
    requires i <= |src| && CommentEnd(src, i).Some?
    ensures !HasNoEnd(src[i..])
  {
    CommentEndOr(src, i);
    var rest, k := src[i..], CommentEnd(src, i).value - 2 - i;
    assert src[i..k + i + 2][k..] == "*/";
    assert rest[k] == src[i..k + i + 2][k] && rest[k + 1] == src[i..k + i + 2][k + 1];
  }

  // ---- what is skipped is trivia -------------------------------------------------------------

  function Stopped(s: Skipped): nat {
    if s.Skipped? then s.next else s.at
  }

  /** The piece of trivia at i. */
  lemma FirstPiece(src: string, i: nat) returns (t: Trivium, n: nat)
    requires i < |src| && StartsTrivia(src[i..]) && !IsUnclosed(src[i..])
    ensures i < n <= |src| && IsTrivium(t) && src[i..n] == TriviumText(t) && SkipTrivia(src, i) == SkipTrivia(src, n)
    ensures t.LineComment? ==> n == |src| || src[n] == '\n'
  {
    hide SkipTrivia, HasNoEnd, IsUnclosed, StartsTrivia, LineEnd, CommentEnd, IsTrivium;
    StartsAt(src, i);
    if IsSpace(src[i]) {
      BlankStep(src, i);
      t, n := Blank(src[i]), i + 1;
      BlankIsTrivium(src[i]);
    } else {
      CommentStep(src, i);
      if src[i + 1] == '/' {
        n := LineEnd(src, i + 2);
        t := LineComment(src[i + 2..n]);
        LineIsTrivium(src, i + 2, n);
      } else {
        ClosedComment(src, i);
        n := CommentEnd(src, i + 2).value;
        t := BlockComment(src[i + 2..n - 2]);
        BlockIsTrivium(src[i + 2..n - 2]);
      }
      assert src[i..n] == [src[i], src[i + 1]] + src[i + 2..n];
    }
  }

  lemma BlankIsTrivium(c: char)
    requires IsSpace(c)
    ensures IsTrivium(Blank(c))
  {}

  lemma LineIsTrivium(src: string, i: nat, n: nat)
    requires i <= |src| && n == LineEnd(src, i)
    ensures IsTrivium(LineComment(src[i..n]))
  {}

  lemma BlockIsTrivium(text: string)
    requires HasNoEnd(text)
    ensures IsTrivium(BlockComment(text))
  {
    hide HasNoEnd;
  }

  lemma ClosedComment(src: string, i: nat)
    requires i + 2 <= |src| && src[i] == '/' && src[i + 1] == '*' && !IsUnclosed(src[i..])
    ensures CommentEnd(src, i + 2).Some?
    ensures var n := CommentEnd(src, i + 2).value;
            i + 4 <= n <= |src| && src[i + 2..n] == src[i + 2..n - 2] + "*/" && HasNoEnd(src[i + 2..n - 2])
  {
    hide HasNoEnd, CommentEnd;
    assert src[i..][2..] == src[i + 2..] && src[i..][0] == src[i] && src[i..][1] == src[i + 1];
    CommentEndOr(src, i + 2);
  }

  lemma {:induction false} SkippedIsTrivia(src: string, i: nat) returns (ts: seq<Trivium>)
    requires i <= |src|
    ensures var j := Stopped(SkipTrivia(src, i));
            && i <= j <= |src| && src[i..j] == Text(ts) && AreTrivia(ts, src[j..])
            && (if SkipTrivia(src, i).Skipped? then !StartsTrivia(src[j..]) else IsUnclosed(src[j..]))
    decreases |src| - i
  {
    hide SkipTrivia, TriviumText, IsTrivium, StartsTrivia, IsUnclosed;
    StopsHere(src, i);
    if !StartsTrivia(src[i..]) || IsUnclosed(src[i..]) {
      UnclosedStarts(src[i..]);
      ts := [];
    } else {
      NotEmpty(src[i..]);
      var t, n := FirstPiece(src, i);
      var more := SkippedIsTrivia(src, n);
      var j := Stopped(SkipTrivia(src, i));
      ts := [t] + more;
      assert ts[1..] == more && src[i..j] == src[i..n] + src[n..j];
      assert src[n..] == src[n..j] + src[j..];
      assert n < |src| ==> src[n..][0] == src[n];
    }
  }

  lemma UnclosedStarts(rest: string)
    ensures IsUnclosed(rest) ==> StartsTrivia(rest)
  {}

  lemma NotEmpty(rest: string)
    requires StartsTrivia(rest)
    ensures rest != ""
  {}

  // ---- exactly ----------------------------------------------------------------------------------

  ghost predicate IsTriviaText(src: string, i: nat, j: nat)
    requires i <= j <= |src|
  {
    exists ts :: AreTrivia(ts, src[j..]) && Text(ts) == src[i..j]
  }

  /** The lexer skips from i to j exactly if blanks and comments stand there and none starts at j. */
  lemma SkipIsTrivia(src: string, i: nat, j: nat)
    requires i <= |src|
    ensures SkipTrivia(src, i) == Skipped(j) <==> i <= j <= |src| && IsTriviaText(src, i, j) && !StartsTrivia(src[j..])
  {
    hide SkipTrivia, AreTrivia, Text, StartsTrivia;
    if SkipTrivia(src, i) == Skipped(j) {
      var ts := SkippedIsTrivia(src, i);
    }
    if i <= j <= |src| && IsTriviaText(src, i, j) && !StartsTrivia(src[j..]) {
      var ts :| AreTrivia(ts, src[j..]) && Text(ts) == src[i..j];
      assert src[i..] == Text(ts) + src[j..];
      SkipsAll(src, i, ts, src[j..]);
      StopsHere(src, j);
    }
  }

  /** It reports an open comment at j exactly if blanks and comments stand before j, and at j a comment
      opens that is never closed. */
  lemma OpenIsUnclosed(src: string, i: nat, j: nat)
    requires i <= |src|
    ensures SkipTrivia(src, i) == Unclosed(j) <==> i <= j <= |src| && IsTriviaText(src, i, j) && IsUnclosed(src[j..])
  {
    hide SkipTrivia, AreTrivia, Text, StartsTrivia, IsUnclosed;
    if SkipTrivia(src, i) == Unclosed(j) {
      var ts := SkippedIsTrivia(src, i);
    }
    if i <= j <= |src| && IsTriviaText(src, i, j) && IsUnclosed(src[j..]) {
      var ts :| AreTrivia(ts, src[j..]) && Text(ts) == src[i..j];
      assert src[i..] == Text(ts) + src[j..];
      SkipsAll(src, i, ts, src[j..]);
      StopsHere(src, j);
    }
  }

  /** A line comment with its newline, or a block comment, behind a blank: a gap in front of anything. */
  lemma CommentsAreTrivia(text: string, rest: string)
    ensures (forall k :: 0 <= k < |text| ==> text[k] != '\n') ==> AreTrivia([Blank(' '), LineComment(text), Blank('\n')], rest)
    ensures HasNoEnd(text) ==> AreTrivia([Blank(' '), BlockComment(text)], rest)
  {
    hide HasNoEnd;
    var line := [Blank(' '), LineComment(text), Blank('\n')];
    assert line[1..] == [LineComment(text), Blank('\n')] && line[1..][1..] == [Blank('\n')];
    assert [Blank('\n')][1..] == [];
    assert Text([Blank('\n')]) == "\n" + Text([]);
    assert AreTrivia([Blank('\n')], rest);
    var block := [Blank(' '), BlockComment(text)];
    assert block[1..] == [BlockComment(text)] && block[1..][1..] == [];
    assert HasNoEnd(text) ==> AreTrivia([BlockComment(text)], rest);
  }
}
