/** The lexer as the source writes it: a cursor with line and column, advanced in place. */
module SotlasLexer {
  import opened Options
  import opened SotlasTokens
  import opened SotlasLexing

  /** A token as the lexer hands it out. */
  datatype Token = Token(kind: Kind, value: string, line: nat, col: nat)

  datatype TokenResult = Got(token: Token) | Failed(reason: Reason, line: nat, col: nat)

  datatype TokensResult = AllTokens(tokens: seq<Token>) | LexFailure(reason: Reason, line: nat, col: nat)

  /** Line and column of offset i, one character at a time. */
  function LineOf(src: string, i: nat): nat
    requires i <= |src|
  {
    if i == 0 then 1 else if src[i - 1] == '\n' then LineOf(src, i - 1) + 1 else LineOf(src, i - 1)
  }

  function ColOf(src: string, i: nat): nat
    requires i <= |src|
  {
    if i == 0 then 1 else if src[i - 1] == '\n' then 1 else ColOf(src, i - 1) + 1
  }

  /** They are what one counts in the text before the offset: one more than the number of
      newlines in it, and one more than the length of what follows the last newline. */
  lemma {:induction false} PositionCounts(src: string, i: nat)
    requires i <= |src|
    ensures LineOf(src, i) == 1 + multiset(src[..i])['\n']
    ensures 1 <= ColOf(src, i) <= i + 1
    ensures ColOf(src, i) <= i ==> src[i - ColOf(src, i)] == '\n'
    ensures forall k :: i - ColOf(src, i) < k < i ==> src[k] != '\n'
  {
    if i > 0 {
      PositionCounts(src, i - 1);
      assert src[..i] == src[..i - 1] + [src[i - 1]];
    }
  }

  ghost predicate IsPosition(src: string, i: nat, line: nat, col: nat)
    requires i <= |src|
  {
    line == LineOf(src, i) && col == ColOf(src, i)
  }

  ghost predicate IsTokenAt(src: string, t: Token, x: Lexeme) {
    && x.at <= |src|
    && t.kind == x.word.kind && t.value == x.word.text
    && IsPosition(src, x.at, t.line, t.col)
  }

  ghost predicate AreTokensAt(src: string, ts: seq<Token>, xs: seq<Lexeme>) {
    |ts| == |xs| && forall k :: 0 <= k < |ts| ==> IsTokenAt(src, ts[k], xs[k])
  }

  class Lexer {
    const src: string
    const kw: Keywords
    var pos: nat
    var line: nat
    var col: nat

    ghost predicate Valid()
      reads this
    {
      pos <= |src| && IsPosition(src, pos, line, col) && ValidKeywords(kw)
    }

    constructor (src: string, kw: Keywords)
      requires ValidKeywords(kw)
      ensures Valid() && pos == 0 && this.src == src && this.kw == kw
    {
      this.src := src;
      this.kw := kw;
      pos, line, col := 0, 1, 1;
    }

    function PeekAt(offset: nat): char
      reads this
    {
      Peek(src, pos + offset)
    }

    method Advance() returns (ch: char)
      requires Valid() && pos < |src|
      modifies this
      ensures Valid() && pos == old(pos) + 1 && ch == src[old(pos)]
    {
      ch := src[pos];
      pos := pos + 1;
      if ch == '\n' {
        line := line + 1;
        col := 1;
      } else {
        col := col + 1;
      }
    }

    /** Advances over a run of class characters and returns the run. */
    method TakeRun(cls: Class) returns (buf: string)
      requires Valid() && !cls.Has('\0')
      modifies this
      ensures Valid() && pos == old(pos) + Run(src, old(pos), cls)
      ensures buf == src[old(pos)..pos]
    {
      buf := "";
      while cls.Has(PeekAt(0))
        invariant Valid() && old(pos) <= pos && buf == src[old(pos)..pos]
        invariant pos + Run(src, pos, cls) == old(pos) + Run(src, old(pos), cls)
        decreases |src| - pos
      {
        var c := Advance();
        buf := buf + [c];
      }
    }

    /** As TakeRun, keeping every character but the underscores. */
    method TakeRunStripped(cls: Class) returns (buf: string)
      requires Valid() && !cls.Has('\0')
      modifies this
      ensures Valid() && pos == old(pos) + Run(src, old(pos), cls)
      ensures buf == Strip(src[old(pos)..pos])
    {
      buf := "";
      while cls.Has(PeekAt(0))
        invariant Valid() && old(pos) <= pos && buf == Strip(src[old(pos)..pos])
        invariant pos + Run(src, pos, cls) == old(pos) + Run(src, old(pos), cls)
        decreases |src| - pos
      {
        ghost var before := src[old(pos)..pos];
        var c := Advance();
        StripAppend(before, c);
        assert src[old(pos)..pos] == before + [c];
        if c != '_' {
          buf := buf + [c];
        }
      }
    }

    method SkipBlockComment() returns (ok: bool)
      requires Valid() && pos + 1 < |src| && src[pos] == '/' && src[pos + 1] == '*'
      modifies this
      ensures Valid()
      ensures ok <==> CommentEnd(src, old(pos) + 2).Some?
      ensures ok ==> pos == CommentEnd(src, old(pos) + 2).value
    {
      var c := Advance();
      c := Advance();
      while pos < |src|
        invariant Valid() && pos <= |src|
        invariant CommentEnd(src, pos) == CommentEnd(src, old(pos) + 2)
        decreases |src| - pos
      {
        if PeekAt(0) == '*' && PeekAt(1) == '/' {
          c := Advance();
          c := Advance();
          return true;
        }
        c := Advance();
      }
      return false;
    }

    /** The position reported for an unterminated comment is where the comment opens. */
    method SkipWhitespaceAndComments() returns (ok: bool, badLine: nat, badCol: nat)
      requires Valid()
      modifies this
      ensures Valid()
      ensures ok <==> SkipTrivia(src, old(pos)).Skipped?
      ensures ok ==> pos == SkipTrivia(src, old(pos)).next
      ensures !ok ==> IsPosition(src, SkipTrivia(src, old(pos)).at, badLine, badCol)
    {
      badLine, badCol := 0, 0;
      while pos < |src|
        invariant Valid() && old(pos) <= pos
        invariant SkipTrivia(src, pos) == SkipTrivia(src, old(pos))
        decreases |src| - pos
      {
        var ch := PeekAt(0);
        if IsSpace(ch) {
          var c := Advance();
        } else if ch == '/' && PeekAt(1) == '/' {
          ghost var start := pos;
          assert LineEnd(src, start) == LineEnd(src, start + 2);
          while pos < |src| && PeekAt(0) != '\n'
            invariant Valid() && start <= pos && LineEnd(src, pos) == LineEnd(src, start)
            decreases |src| - pos
          {
            var c := Advance();
          }
        } else if ch == '/' && PeekAt(1) == '*' {
          badLine, badCol := line, col;
          var closed := SkipBlockComment();
          if !closed {
            return false, badLine, badCol;
          }
        } else {
          break;
        }
      }
      ok := true;
    }

    method LexPrefixed(cls: Class, reason: Reason, line0: nat, col0: nat) returns (r: TokenResult)
      requires Valid() && pos + 2 <= |src| && !cls.Has('\0')
      modifies this
      ensures Valid()
      ensures Answers(r, ScanPrefixed(src, old(pos), cls, reason), line0, col0)
    {
      var zero := Advance();
      var mark := Advance();
      if PeekAt(0) == '_' || !cls.Has(PeekAt(0)) {
        return Failed(reason, line0, col0);
      }
      var digits := TakeRunStripped(cls);
      assert src[old(pos)..old(pos) + 2] == [zero, mark];
      return Got(Token(IntLit, [zero, mark] + digits, line0, col0));
    }

    method LexNumber(line0: nat, col0: nat) returns (r: TokenResult)
      requires Valid() && pos < |src| && IsDigit(src[pos])
      modifies this
      ensures Valid()
      ensures Answers(r, ScanNumber(src, old(pos)), line0, col0)
    {
      var ch := PeekAt(0);
      if ch == '0' && (PeekAt(1) == 'x' || PeekAt(1) == 'X') {
        r := LexPrefixed(HexAndUnderscore, BadHex, line0, col0);
        return;
      }
      if ch == '0' && (PeekAt(1) == 'b' || PeekAt(1) == 'B') {
        r := LexPrefixed(BinAndUnderscore, BadBinary, line0, col0);
        return;
      }
      r := LexDecimal(line0, col0);
    }

    method LexDecimal(line0: nat, col0: nat) returns (r: TokenResult)
      requires Valid() && pos < |src| && IsDigit(src[pos])
      modifies this
      ensures Valid()
      ensures Answers(r, ScanDecimal(src, old(pos)), line0, col0)
    {
      var buf := TakeRunStripped(DigitsAndUnderscore);
      if PeekAt(0) == '.' && IsDigit(PeekAt(1)) {
        ghost var n := pos;
        var dot := Advance();
        var fraction := TakeRun(Digits);
        assert src[n..pos] == [dot] + fraction;
        return Got(Token(FloatLit, buf + ([dot] + fraction), line0, col0));
      }
      return Got(Token(IntLit, buf, line0, col0));
    }

    method LexIdentOrKeyword(line0: nat, col0: nat) returns (r: TokenResult)
      requires Valid() && pos < |src| && IsIdentStart(src[pos])
      modifies this
      ensures Valid()
      ensures Answers(r, ScanIdent(src, kw, old(pos)), line0, col0)
    {
      var text := TakeRun(IdentChars);
      var kind := KeywordOr(kw, text);
      return Got(Token(kind, text, line0, col0));
    }

    method LexString(line0: nat, col0: nat) returns (r: TokenResult)
      requires Valid() && pos < |src| && src[pos] == '"'
      modifies this
      ensures Valid()
      ensures Answers(r, ScanString(src, old(pos) + 1, ""), line0, col0)
    {
      var c := Advance();
      var buf := "";
      while pos < |src| && PeekAt(0) != '"'
        invariant Valid()
        invariant ScanString(src, pos, buf) == ScanString(src, old(pos) + 1, "")
        decreases |src| - pos
      {
        if PeekAt(0) == '\\' {
          c := Advance();
          if pos >= |src| {
            return Failed(OpenString, line0, col0);
          }
          c := Advance();
          buf := buf + [DecodeEscape(c)];
        } else {
          c := Advance();
          buf := buf + [c];
        }
      }
      if pos >= |src| {
        return Failed(OpenString, line0, col0);
      }
      c := Advance();
      return Got(Token(StrLit, buf, line0, col0));
    }

    method LexChar(line0: nat, col0: nat) returns (r: TokenResult)
      requires Valid() && pos < |src| && src[pos] == '\''
      modifies this
      ensures Valid()
      ensures Answers(r, ScanChar(src, old(pos)), line0, col0)
    {
      var c := Advance();
      if pos >= |src| || PeekAt(0) == '\'' {
        return Failed(BadChar, line0, col0);
      }
      var ch: char;
      if PeekAt(0) == '\\' {
        c := Advance();
        if pos >= |src| {
          return Failed(BadChar, line0, col0);
        }
        c := Advance();
        ch := DecodeEscape(c);
      } else {
        ch := Advance();
      }
      if pos >= |src| || PeekAt(0) != '\'' {
        return Failed(BadChar, line0, col0);
      }
      c := Advance();
      return Got(Token(CharLit, [ch], line0, col0));
    }

    /** The method's answer is the specified scan: same word, cursor after it, or same failure. */
    ghost predicate Answers(r: TokenResult, s: Scanned, line0: nat, col0: nat)
      reads this
    {
      match s
      case Scanned(w, next) => r == Got(Token(w.kind, w.text, line0, col0)) && pos == next
      case Rejected(reason) => r == Failed(reason, line0, col0)
    }

    /** The nested tests on the second and third character. */
    method LexOperator(line0: nat, col0: nat) returns (r: TokenResult)
      requires Valid() && pos < |src|
      modifies this
      ensures Valid()
      ensures Answers(r, ScanOperator(src, old(pos)), line0, col0)
    {
      ghost var i := pos;
      var ch := Advance();
      assert src[i..i + 1] == [ch];
      var ch2 := PeekAt(0);
      var two := TwoCharOperator(ch, ch2);
      if two.None? {
        var one := OneCharOperator(ch);
        if one.None? {
          return Failed(BadCharacter, line0, col0);
        }
        return Got(Token(one.value, [ch], line0, col0));
      }
      TwoCharInside(ch, ch2);
      ch2 := Advance();
      assert src[i..i + 2] == [ch, ch2];
      var ch3 := PeekAt(0);
      if ch3 == '=' && (two.value == Shl || two.value == Shr) {
        ch3 := Advance();
        assert src[i..i + 3] == [ch, ch2, ch3];
        return Got(Token(if two.value == Shl then ShlEq else ShrEq, [ch, ch2, ch3], line0, col0));
      }
      return Got(Token(two.value, [ch, ch2], line0, col0));
    }

    method NextToken() returns (r: TokenResult, ghost at: nat)
      requires Valid()
      modifies this
      ensures Valid() && at <= |src|
      ensures SkipTrivia(src, old(pos)).Unclosed? ==>
                r.Failed? && r.reason == OpenComment && IsPosition(src, SkipTrivia(src, old(pos)).at, r.line, r.col)
      ensures SkipTrivia(src, old(pos)).Skipped? ==>
                at == SkipTrivia(src, old(pos)).next
      ensures SkipTrivia(src, old(pos)).Skipped? && at == |src| ==>
                r.Got? && pos == at && IsTokenAt(src, r.token, Lexeme(Word(Eof, ""), at))
      ensures SkipTrivia(src, old(pos)).Skipped? && at < |src| ==>
                match ScanToken(src, kw, at)
                case Rejected(reason) => r.Failed? && r.reason == reason && IsPosition(src, at, r.line, r.col)
                case Scanned(w, next) => r.Got? && pos == next && IsTokenAt(src, r.token, Lexeme(w, at))
    {
      var ok, badLine, badCol := SkipWhitespaceAndComments();
      at := pos;
      if !ok {
        return Failed(OpenComment, badLine, badCol), at;
      }
      if pos >= |src| {
        return Got(Token(Eof, "", line, col)), at;
      }
      var line0, col0 := line, col;
      var ch := PeekAt(0);
      if IsDigit(ch) {
        r := LexNumber(line0, col0);
      } else if IsIdentStart(ch) {
        r := LexIdentOrKeyword(line0, col0);
      } else if ch == '"' {
        r := LexString(line0, col0);
      } else if ch == '\'' {
        r := LexChar(line0, col0);
      } else {
        r := LexOperator(line0, col0);
      }
    }

    /** Tokenizing yields the specified tokens, each with its counted line and column;
        a lexical error is reported at the counted position of the offending text. */
    method Tokenize() returns (r: TokensResult)
      requires Valid() && pos == 0
      modifies this
      ensures Valid()
      ensures match Lex(src, kw)
              case Lexemes(items) => r.AllTokens? && AreTokensAt(src, r.tokens, items)
              case LexError(reason, at) => at <= |src| && r.LexFailure? && r.reason == reason && IsPosition(src, at, r.line, r.col)
    {
      var tokens: seq<Token> := [];
      ghost var items: seq<Lexeme> := [];
      ghost var whole := LexFrom(src, kw, 0);
      while true
        invariant Valid() && AreTokensAt(src, tokens, items)
        invariant Prepended(items, LexFrom(src, kw, pos)) == whole
        decreases |src| - pos
      {
        var t, at := NextToken();
        if t.Failed? {
          return LexFailure(t.reason, t.line, t.col);
        }
        ghost var x := if at == |src| then Lexeme(Word(Eof, ""), at) else Lexeme(ScanToken(src, kw, at).word, at);
        TokensAppend(src, tokens, items, t.token, x);
        if at < |src| {
          ScanNeverEof(src, kw, at);
          PrependStep(items, x, LexFrom(src, kw, pos));
        }
        tokens := tokens + [t.token];
        items := items + [x];
        if t.token.kind == Eof {
          break;
        }
      }
      var resolved := ResolveCompound(tokens, items);
      return AllTokens(resolved);
    }

    method ResolveCompound(tokens: seq<Token>, ghost items: seq<Lexeme>) returns (result: seq<Token>)
      requires AreTokensAt(src, tokens, items)
      ensures AreTokensAt(src, result, Resolve(items))
    {
      hide FusesAt, TokensFuseAt, IsTokenAt;
      result := [];
      var i := 0;
      ghost var done: seq<Lexeme> := [];
      assert items[0..] == items;
      while i < |tokens|
        invariant 0 <= i <= |tokens|
        invariant AreTokensAt(src, result, done)
        invariant done + Resolve(items[i..]) == Resolve(items)
      {
        var tok := tokens[i];
        TokensFuse(src, tokens, items, i);
        ResolveStep(items, i, done);
        if TokensFuseAt(tokens, i) {
          var fused := Token(KwCoOwned, "co-owned", tok.line, tok.col);
          ghost var x := Lexeme(Word(KwCoOwned, "co-owned"), items[i].at);
          FusedTokenAt(src, tok, items[i]);
          TokensAppend(src, result, done, fused, x);
          result := result + [fused];
          done := done + [x];
          i := i + 3;
        } else {
          TokensAppend(src, result, done, tok, items[i]);
          result := result + [tok];
          done := done + [items[i]];
          i := i + 1;
        }
      }
    }
  }

  function Prepended(done: seq<Lexeme>, rest: Lexed): Lexed {
    match rest
    case LexError(reason, at) => rest
    case Lexemes(items) => Lexemes(done + items)
  }

  lemma PrependStep(done: seq<Lexeme>, x: Lexeme, rest: Lexed)
    ensures Prepended(done, Prepended([x], rest)) == Prepended(done + [x], rest)
  {
    if rest.Lexemes? {
      assert done + ([x] + rest.items) == (done + [x]) + rest.items;
    }
  }

  lemma TokensAppend(src: string, ts: seq<Token>, xs: seq<Lexeme>, t: Token, x: Lexeme)
    requires AreTokensAt(src, ts, xs) && IsTokenAt(src, t, x)
    ensures AreTokensAt(src, ts + [t], xs + [x])
  {}

  lemma FusedTokenAt(src: string, t: Token, x: Lexeme)
    requires IsTokenAt(src, t, x)
    ensures IsTokenAt(src, Token(KwCoOwned, "co-owned", t.line, t.col), Lexeme(Word(KwCoOwned, "co-owned"), x.at))
  {}

  predicate TokensFuseAt(ts: seq<Token>, i: nat) {
    && i + 2 < |ts|
    && ts[i].kind == Ident && ts[i].value == "co" && ts[i + 1].kind == Minus
    && ts[i + 2].kind == Ident && ts[i + 2].value == "owned"
  }

  lemma TokensFuse(src: string, ts: seq<Token>, xs: seq<Lexeme>, i: nat)
    requires i < |ts| && AreTokensAt(src, ts, xs)
    ensures TokensFuseAt(ts, i) <==> i + 2 < |xs| && FusesAt(xs[i].word, xs[i + 1].word, xs[i + 2].word)
  {
    assert IsTokenAt(src, ts[i], xs[i]);
    if i + 2 < |ts| {
      assert IsTokenAt(src, ts[i + 1], xs[i + 1]) && IsTokenAt(src, ts[i + 2], xs[i + 2]);
    }
  }

  lemma ResolveStep(xs: seq<Lexeme>, i: nat, done: seq<Lexeme>)
    requires i < |xs|
    ensures if i + 2 < |xs| && FusesAt(xs[i].word, xs[i + 1].word, xs[i + 2].word) then
              done + Resolve(xs[i..]) == done + [Lexeme(Word(KwCoOwned, "co-owned"), xs[i].at)] + Resolve(xs[i + 3..])
            else
              done + Resolve(xs[i..]) == done + [xs[i]] + Resolve(xs[i + 1..])
  {
    hide FusesAt;
    var ys := xs[i..];
    assert ys[1..] == xs[i + 1..];
    if |ys| > 2 {
      assert ys[3..] == xs[i + 3..] && ys[0] == xs[i] && ys[1] == xs[i + 1] && ys[2] == xs[i + 2];
    }
  }

  lemma ScanNeverEof(src: string, kw: Keywords, i: nat)
    requires i < |src| && ValidKeywords(kw)
    ensures ScanToken(src, kw, i).Scanned? ==> ScanToken(src, kw, i).word.kind != Eof
  {
    StringKind(src, i + 1, "");
    if ScanOperator(src, i).Scanned? {
      OperatorFits(src, i);
    }
  }

  lemma StringKind(src: string, i: nat, buf: string)
    requires i <= |src|
    ensures ScanString(src, i, buf).Scanned? ==> ScanString(src, i, buf).word.kind == StrLit
    decreases |src| - i
  {}

  lemma {:induction false} StripAppend(s: string, c: char)
    ensures Strip(s + [c]) == Strip(s) + (if c == '_' then "" else [c])
  {
    if s == "" {
      assert s + [c] == [c] && [c][1..] == "";
    } else {
      assert (s + [c])[0] == s[0] && (s + [c])[1..] == s[1..] + [c];
      StripAppend(s[1..], c);
      var head, last := if s[0] == '_' then "" else [s[0]], if c == '_' then "" else [c];
      assert head + (Strip(s[1..]) + last) == (head + Strip(s[1..])) + last;
    }
  }
}
