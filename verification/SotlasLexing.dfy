/** What the Sotlas lexer computes, as functions of the source text and an offset.
    The keyword table is a parameter: everything here holds for any table of keywords. */
module SotlasLexing {
  import opened Options
  import opened SotlasTokens

  datatype Reason = OpenComment | BadHex | BadBinary | OpenString | BadChar | BadCharacter

  /** A token of the source: what it is and the offset where it starts. */
  datatype Lexeme = Lexeme(word: Word, at: nat)

  datatype Lexed = Lexemes(items: seq<Lexeme>) | LexError(reason: Reason, at: nat)

  datatype Skipped = Skipped(next: nat) | Unclosed(at: nat)

  datatype Scanned = Scanned(word: Word, next: nat) | Rejected(reason: Reason)

  type Keywords = map<string, Kind>

  ghost predicate ValidKeywords(kw: Keywords) {
    forall t :: t in kw ==> kw[t].IsKeyword()
  }

  // ---- trivia -------------------------------------------------------------

  function LineEnd(src: string, i: nat): (j: nat)
    requires i <= |src|
    ensures i <= j <= |src| && (j < |src| ==> src[j] == '\n')
    ensures forall k :: i <= k < j ==> src[k] != '\n'
    decreases |src| - i
  {
    if i < |src| && src[i] != '\n' then LineEnd(src, i + 1) else i
  }

  /** The offset after the first comment terminator at or after i. */
  function CommentEnd(src: string, i: nat): (r: Option<nat>)
    requires i <= |src|
    ensures r.Some? ==> i + 2 <= r.value <= |src|
    decreases |src| - i
  {
    if i >= |src| then None
    else if src[i] == '*' && Peek(src, i + 1) == '/' then Some(i + 2)
    else CommentEnd(src, i + 1)
  }

  function SkipTrivia(src: string, i: nat): (r: Skipped)
    requires i <= |src|
    ensures r.Skipped? ==> i <= r.next <= |src|
    ensures r.Unclosed? ==> i <= r.at < |src|
    decreases |src| - i
  {
    if i == |src| then Skipped(i)
    else if IsSpace(src[i]) then SkipTrivia(src, i + 1)
    else if src[i] == '/' && Peek(src, i + 1) == '/' then SkipTrivia(src, LineEnd(src, i + 2))
    else if src[i] == '/' && Peek(src, i + 1) == '*' then
      match CommentEnd(src, i + 2)
      case None => Unclosed(i)
      case Some(j) => SkipTrivia(src, j)
    else Skipped(i)
  }

  // ---- single tokens ------------------------------------------------------

  function OneCharOperator(c: char): (r: Option<Kind>)
  {
    if c == '{' then Some(LBrace) else if c == '}' then Some(RBrace)
    else if c == '(' then Some(LParen) else if c == ')' then Some(RParen)
    else if c == '[' then Some(LBracket) else if c == ']' then Some(RBracket)
    else if c == ';' then Some(Semicolon) else if c == ',' then Some(Comma)
    else if c == '@' then Some(At) else if c == '~' then Some(Tilde)
    else if c == '.' then Some(Dot) else if c == ':' then Some(Colon)
    else if c == '=' then Some(Assign) else if c == '!' then Some(Not)
    else if c == '&' then Some(LAnd) else if c == '|' then Some(LOr)
    else if c == '^' then Some(Xor) else if c == '<' then Some(Lt)
    else if c == '>' then Some(Gt) else if c == '+' then Some(Plus)
    else if c == '-' then Some(Minus) else if c == '*' then Some(Star)
    else if c == '/' then Some(Slash) else if c == '%' then Some(Percent)
    else if c == '?' then Some(QMark) else None
  }

  /** The two-character operator formed by c followed by d, if there is one. */
  function TwoCharOperator(c: char, d: char): (r: Option<Kind>)
  {
    if d == '=' then
      if c == '=' then Some(Eq) else if c == '!' then Some(Neq)
      else if c == '&' then Some(AndEq) else if c == '|' then Some(OrEq)
      else if c == '^' then Some(XorEq) else if c == '<' then Some(Lte)
      else if c == '>' then Some(Gte) else if c == '+' then Some(PlusEq)
      else if c == '-' then Some(MinusEq) else if c == '*' then Some(StarEq)
      else if c == '/' then Some(SlashEq) else if c == '%' then Some(PctEq) else None
    else if d == '>' then
      if c == '=' then Some(FatArrow) else if c == '-' then Some(Arrow)
      else if c == '>' then Some(Shr) else None
    else if c != d then None
    else if c == '.' then Some(DotDot) else if c == ':' then Some(DColon)
    else if c == '&' then Some(And) else if c == '|' then Some(Or)
    else if c == '<' then Some(Shl) else if c == '?' then Some(NilCoal) else None
  }

  /** The operator token the lexer takes at offset i. */
  function ScanOperator(src: string, i: nat): (r: Scanned)
    requires i < |src|
    ensures r.Scanned? ==> i < r.next <= |src|
  {
    var two := TwoCharOperator(src[i], Peek(src, i + 1));
    if two.None? then
      match OneCharOperator(src[i])
      case None => Rejected(BadCharacter)
      case Some(k) => Scanned(Word(k, src[i..i + 1]), i + 1)
    else if Peek(src, i + 2) == '=' && two.value == Shl then Scanned(Word(ShlEq, src[i..i + 3]), i + 3)
    else if Peek(src, i + 2) == '=' && two.value == Shr then Scanned(Word(ShrEq, src[i..i + 3]), i + 3)
    else TwoCharInside(src[i], Peek(src, i + 1)); Scanned(Word(two.value, src[i..i + 2]), i + 2)
  }

  lemma TwoCharInside(c: char, d: char)
    ensures TwoCharOperator(c, d).Some? ==> d != '\0'
  {}

  lemma OneCharTable(c: char)
    ensures var r := OneCharOperator(c); r.Some? ==> r.value.IsOperator() && Spelling(r.value) == [c]
  {}

  lemma TwoCharTable(c: char, d: char)
    ensures var r := TwoCharOperator(c, d); r.Some? ==> r.value.IsOperator() && Spelling(r.value) == [c, d]
  {}

  /** The tables find every operator from its own spelling. */
  lemma TablesAreComplete(k: Kind)
    requires k.IsOperator()
    ensures var s := Spelling(k);
            && (|s| == 1 ==> OneCharOperator(s[0]) == Some(k))
            && (|s| == 2 ==> TwoCharOperator(s[0], s[1]) == Some(k))
            && (|s| == 3 ==> (k == ShlEq && s == "<<=") || (k == ShrEq && s == ">>="))
  {}

  /** A literal with a two-character prefix at offset i; reason is reported if no digit follows. */
  function ScanPrefixed(src: string, i: nat, cls: Class, reason: Reason): (r: Scanned)
    requires i + 2 <= |src|
    ensures r.Scanned? ==> i < r.next <= |src|
  {
    if Peek(src, i + 2) == '_' || !cls.Has(Peek(src, i + 2)) then Rejected(reason)
    else
      var n := i + 2 + Run(src, i + 2, cls);
      Scanned(Word(IntLit, src[i..i + 2] + Strip(src[i + 2..n])), n)
  }

  function ScanDecimal(src: string, i: nat): (r: Scanned)
    requires i < |src| && IsDigit(src[i])
    ensures r.Scanned? && i < r.next <= |src|
  {
    var n := i + Run(src, i, DigitsAndUnderscore);
    if Peek(src, n) == '.' && IsDigit(Peek(src, n + 1)) then
      var m := n + 1 + Run(src, n + 1, Digits);
      Scanned(Word(FloatLit, Strip(src[i..n]) + src[n..m]), m)
    else
      Scanned(Word(IntLit, Strip(src[i..n])), n)
  }

  function ScanNumber(src: string, i: nat): (r: Scanned)
    requires i < |src| && IsDigit(src[i])
    ensures r.Scanned? ==> i < r.next <= |src|
  {
    var d := Peek(src, i + 1);
    if src[i] == '0' && (d == 'x' || d == 'X') then ScanPrefixed(src, i, HexAndUnderscore, BadHex)
    else if src[i] == '0' && (d == 'b' || d == 'B') then ScanPrefixed(src, i, BinAndUnderscore, BadBinary)
    else ScanDecimal(src, i)
  }

  function KeywordOr(kw: Keywords, text: string): Kind {
    if text in kw then kw[text] else Ident
  }

  function ScanIdent(src: string, kw: Keywords, i: nat): (r: Scanned)
    requires i < |src| && IsIdentStart(src[i])
    ensures r.Scanned? && i < r.next <= |src|
  {
    var n := i + Run(src, i, IdentChars);
    Scanned(Word(KeywordOr(kw, src[i..n]), src[i..n]), n)
  }

  function DecodeEscape(c: char): char {
    match c
    case '0' => '\0' case 'n' => '\n' case 't' => '\t' case 'r' => '\r'
    case _ => c
  }

  /** The rest of a string literal from offset i, with the text decoded so far. */
  function ScanString(src: string, i: nat, buf: string): (r: Scanned)
    requires i <= |src|
    ensures r.Scanned? ==> i < r.next <= |src|
    decreases |src| - i
  {
    if i == |src| then Rejected(OpenString)
    else if src[i] == '"' then Scanned(Word(StrLit, buf), i + 1)
    else if src[i] == '\\' then
      if i + 1 == |src| then Rejected(OpenString)
      else ScanString(src, i + 2, buf + [DecodeEscape(src[i + 1])])
    else ScanString(src, i + 1, buf + [src[i]])
  }

  /** A character literal whose opening quote is at offset i. */
  function ScanChar(src: string, i: nat): (r: Scanned)
    requires i < |src|
    ensures r.Scanned? ==> i < r.next <= |src|
  {
    if i + 1 == |src| || src[i + 1] == '\'' then Rejected(BadChar)
    else if src[i + 1] == '\\' then
      if i + 3 >= |src| || src[i + 3] != '\'' then Rejected(BadChar)
      else Scanned(Word(CharLit, [DecodeEscape(src[i + 2])]), i + 4)
    else if i + 2 == |src| || src[i + 2] != '\'' then Rejected(BadChar)
    else Scanned(Word(CharLit, [src[i + 1]]), i + 3)
  }

  function ScanToken(src: string, kw: Keywords, i: nat): (r: Scanned)
    requires i < |src|
    ensures r.Scanned? ==> i < r.next <= |src|
  {
    if IsDigit(src[i]) then ScanNumber(src, i)
    else if IsIdentStart(src[i]) then ScanIdent(src, kw, i)
    else if src[i] == '"' then ScanString(src, i + 1, "")
    else if src[i] == '\'' then ScanChar(src, i)
    else ScanOperator(src, i)
  }

  /** The chosen operator is the one spelled at i. */
  lemma OperatorFits(src: string, i: nat)
    requires i < |src|
    ensures var r := ScanOperator(src, i);
            r.Scanned? ==> r.word.kind.IsOperator() && r.word.text == Spelling(r.word.kind) == src[i..r.next]
  {
    hide OneCharOperator, TwoCharOperator, Spelling;
    OneCharTable(src[i]);
    TwoCharTable(src[i], Peek(src, i + 1));
    TwoCharInside(src[i], Peek(src, i + 1));
    Shifts();
  }

  lemma Shifts()
    ensures Spelling(Shl) == "<<" && Spelling(ShlEq) == "<<=" && TwoCharOperator('<', '<') == Some(Shl)
    ensures Spelling(Shr) == ">>" && Spelling(ShrEq) == ">>=" && TwoCharOperator('>', '>') == Some(Shr)
  {}

  /** Maximal munch: whenever some operator is spelled at i one is chosen, and none is longer. */
  lemma MaximalMunch(src: string, i: nat, k: Kind)
    requires i < |src| && k.IsOperator() && Spelled(src, i, Spelling(k))
    ensures var r := ScanOperator(src, i); r.Scanned? && |Spelling(k)| <= |r.word.text|
  {
    hide OneCharOperator, TwoCharOperator, Spelling;
    TablesAreComplete(k);
    Shifts();
    SpelledAt(src, i, Spelling(k));
    TwoCharInside(src[i], Peek(src, i + 1));
  }

  // ---- the whole source ---------------------------------------------------

  /** The text t stands in the source at offset i. */
  ghost predicate Spelled(src: string, i: nat, t: string) {
    i + |t| <= |src| && src[i..i + |t|] == t
  }

  lemma SpelledAt(src: string, i: nat, t: string)
    requires Spelled(src, i, t)
    ensures forall k :: 0 <= k < |t| ==> src[i + k] == t[k]
  {
    forall k | 0 <= k < |t| ensures src[i + k] == t[k] {
      assert src[i..i + |t|][k] == src[i + k];
    }
  }

  /** The tokens from offset i on, ending in Eof, or the first lexical error. */
  function LexFrom(src: string, kw: Keywords, i: nat): (r: Lexed)
    requires i <= |src|
    ensures r.Lexemes? ==> |r.items| > 0 && r.items[|r.items| - 1].word == Word(Eof, "")
    ensures r.Lexemes? ==> forall k :: 0 <= k < |r.items| ==> i <= r.items[k].at <= |src|
    decreases |src| - i
  {
    match SkipTrivia(src, i)
    case Unclosed(at) => LexError(OpenComment, at)
    case Skipped(j) =>
      if j == |src| then Lexemes([Lexeme(Word(Eof, ""), j)])
      else
        match ScanToken(src, kw, j)
        case Rejected(reason) => LexError(reason, j)
        case Scanned(w, n) =>
          match LexFrom(src, kw, n)
          case LexError(reason, at) => LexError(reason, at)
          case Lexemes(rest) => Lexemes([Lexeme(w, j)] + rest)
  }

  predicate FusesAt(a: Word, b: Word, c: Word) {
    a == Word(Ident, "co") && b.kind == Minus && c == Word(Ident, "owned")
  }

  /** The compound keyword: identifier co, minus, identifier owned become one token. */
  function Resolve(xs: seq<Lexeme>): (r: seq<Lexeme>)
    ensures |r| <= |xs| && (|xs| > 0 ==> |r| > 0)
  {
    if xs == [] then []
    else if |xs| > 2 && FusesAt(xs[0].word, xs[1].word, xs[2].word) then
      [Lexeme(Word(KwCoOwned, "co-owned"), xs[0].at)] + Resolve(xs[3..])
    else [xs[0]] + Resolve(xs[1..])
  }

  function Lex(src: string, kw: Keywords): Lexed {
    match LexFrom(src, kw, 0)
    case LexError(reason, at) => LexError(reason, at)
    case Lexemes(items) => Lexemes(Resolve(items))
  }

  function WordsOf(xs: seq<Lexeme>): (ws: seq<Word>)
    ensures |ws| == |xs| && forall k :: 0 <= k < |xs| ==> ws[k] == xs[k].word
  {
    seq(|xs|, k requires 0 <= k < |xs| => xs[k].word)
  }
}
