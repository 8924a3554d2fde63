/** What a token is, as a text, and that the lexer reads exactly the longest token that stands there. */
module SotlasLexicon {
  import opened Options
  import opened SotlasTokens
  import opened SotlasLexing
  import opened SotlasLexStability
  import Quoted = SotlasQuoted

  // ---- underscores -----------------------------------------------------------------------

  /** Dropping underscores keeps every other character, in order. */
  lemma {:induction false} StripIs(a: string, b: string, c: char)
    ensures Strip("") == "" && Strip("_") == "" && (c != '_' ==> Strip([c]) == [c])
    ensures Strip(a + b) == Strip(a) + Strip(b)
    decreases |a|
  {
    if a == "" {
      assert a + b == b;
    } else {
      assert (a + b)[1..] == a[1..] + b;
      StripIs(a[1..], b, c);
    }
  }

  // ---- tokens as texts -----------------------------------------------------------------------

  predicate AllOf(t: string, cls: Class) {
    forall k :: 0 <= k < |t| ==> cls.Has(t[k])
  }

  /** Digits with underscores; the first character is a digit. */
  predicate IsDecimal(t: string) {
    t != "" && '0' <= t[0] <= '9' && AllOf(t, DigitsAndUnderscore)
  }

  predicate IsPrefixed(t: string, low: char, high: char, cls: Class) {
    |t| > 2 && t[0] == '0' && (t[1] == low || t[1] == high) && t[2] != '_' && AllOf(t[2..], cls)
  }

  predicate IsFloat(t: string, point: nat) {
    point + 1 < |t| && IsDecimal(t[..point]) && t[point] == '.' && AllOf(t[point + 1..], Digits)
  }

  predicate IsName(t: string) {
    t != "" && IsIdentStart(t[0]) && AllOf(t, IdentChars)
  }

  /** The text is a token, and this is the word it stands for. */
  ghost predicate IsToken(kw: Keywords, t: string, w: Word) {
    || (IsName(t) && w == Word(if t in kw then kw[t] else Ident, t))
    || (IsDecimal(t) && w == Word(IntLit, Strip(t)))
    || ((IsPrefixed(t, 'x', 'X', HexAndUnderscore) || IsPrefixed(t, 'b', 'B', BinAndUnderscore)) && w == Word(IntLit, t[..2] + Strip(t[2..])))
    || (exists point: nat :: IsFloat(t, point) && w == Word(FloatLit, Strip(t[..point]) + t[point..]))
    || (exists ps :: Quoted.ArePieces(ps) && t == "\"" + (Quoted.Text(ps) + "\"") && w == Word(StrLit, Quoted.Value(ps)))
    || (exists p :: Quoted.IsCharPiece(p) && t == Quoted.QuotedPiece(p) && w == Word(CharLit, [Quoted.PieceValue(p)]))
    || (w.kind.IsOperator() && t == Spelling(w.kind) && w.text == t)
  }

  /** What follows in the source does not make the token longer. */
  ghost predicate IsLongest(src: string, i: nat, n: nat)
    requires i < n <= |src|
  {
    var t, next, second := src[i..n], Peek(src, n), Peek(src, n + 1);
    && (IsName(t) ==> !IsIdentChar(next))
    && (IsPrefixed(t, 'x', 'X', HexAndUnderscore) ==> !HexAndUnderscore.Has(next))
    && (IsPrefixed(t, 'b', 'B', BinAndUnderscore) ==> !BinAndUnderscore.Has(next))
    && (IsDecimal(t) ==>
          && !DigitsAndUnderscore.Has(next) && !(next == '.' && IsDigit(second))
          && !(t == "0" && (next == 'x' || next == 'X' || next == 'b' || next == 'B')))
    && (forall point: nat :: IsFloat(t, point) ==> !IsDigit(next))
    && (forall k: Kind :: k.IsOperator() && |Spelling(k)| > n - i ==> !Spelled(src, i, Spelling(k)))
  }

  // ---- which of the forms it is, by its first characters --------------------------------------

  datatype Form = Name | Number | Text | Character | Symbol

  function FormOf(c: char): Form {
    if IsDigit(c) then Number else if IsIdentStart(c) then Name else if c == '"' then Text else if c == '\'' then Character else Symbol
  }

  /** An operator starts with a character that no other token starts with. */
  lemma SymbolStart(src: string, i: nat, k: Kind)
    requires k.IsOperator() && Spelled(src, i, Spelling(k))
    ensures i < |src| && FormOf(src[i]) == Symbol
  {
    OperatorStart(k);
    SpelledAt(src, i, Spelling(k));
    assert src[i + 0] == Spelling(k)[0];
    hide Spelling;
  }

  lemma NoSymbol(src: string, i: nat)
    requires i < |src| && FormOf(src[i]) != Symbol
    ensures forall k: Kind :: k.IsOperator() ==> !Spelled(src, i, Spelling(k))
  {
    hide Spelling, Spelled;
    forall k: Kind | k.IsOperator() ensures !Spelled(src, i, Spelling(k)) {
      if Spelled(src, i, Spelling(k)) {
        SymbolStart(src, i, k);
        assert false;
      }
    }
  }

  // ---- runs of characters ----------------------------------------------------------------------

  lemma RunIs(src: string, i: nat, n: nat, cls: Class)
    requires i <= n <= |src| && !cls.Has('\0')
    ensures i + Run(src, i, cls) == n <==> AllOf(src[i..n], cls) && !cls.Has(Peek(src, n))
  {
    hide Run;
    var t := src[i..n];
    if AllOf(t, cls) && !cls.Has(Peek(src, n)) {
      assert forall k :: i <= k < n ==> src[k] == t[k - i];
      RunExactly(src, i, n, cls);
    }
  }

  // ---- names --------------------------------------------------------------------------------------

  lemma NameIs(src: string, kw: Keywords, i: nat, n: nat, w: Word)
    requires i < n <= |src| && IsIdentStart(src[i])
    ensures ScanIdent(src, kw, i) == Scanned(w, n) <==>
              IsName(src[i..n]) && !IsIdentChar(Peek(src, n)) && w == Word(if src[i..n] in kw then kw[src[i..n]] else Ident, src[i..n])
  {
    hide Run;
    RunIs(src, i, n, IdentChars);
    assert src[i..n][0] == src[i];
  }

  // ---- numbers ------------------------------------------------------------------------------------

  lemma PrefixIs(src: string, i: nat, n: nat, w: Word, low: char, high: char, cls: Class, reason: Reason)
    requires i + 1 < |src| && src[i] == '0' && (src[i + 1] == low || src[i + 1] == high) && i < n <= |src| && !cls.Has('\0')
    ensures ScanPrefixed(src, i, cls, reason) == Scanned(w, n) <==>
              && IsPrefixed(src[i..n], low, high, cls) && !cls.Has(Peek(src, n))
              && w == Word(IntLit, src[i..n][..2] + Strip(src[i..n][2..]))
  {
    hide Strip, AllOf, ScanPrefixed;
    PrefixedRun(src, i, cls, reason);
    var t := src[i..n];
    if n > i + 2 {
      assert t[2..] == src[i + 2..n] && t[..2] == src[i..i + 2] && t[2] == src[i + 2] && t[0] == src[i] && t[1] == src[i + 1];
      FirstOfAll(src, i + 2, n, cls);
      if ScanPrefixed(src, i, cls, reason).Scanned? {
        PrefixedUpTo(src, i, n, cls, reason);
      }
    }
  }

  lemma FirstOfAll(src: string, i: nat, n: nat, cls: Class)
    requires i < n <= |src|
    ensures AllOf(src[i..n], cls) ==> cls.Has(src[i])
  {
    assert src[i..n][0] == src[i];
  }

  lemma PrefixedRun(src: string, i: nat, cls: Class, reason: Reason)
    requires i + 2 <= |src| && !cls.Has('\0')
    ensures ScanPrefixed(src, i, cls, reason).Scanned? <==> Peek(src, i + 2) != '_' && cls.Has(Peek(src, i + 2))
    ensures ScanPrefixed(src, i, cls, reason).Scanned? ==> ScanPrefixed(src, i, cls, reason).next > i + 2
  {
    if i + 2 < |src| && cls.Has(src[i + 2]) {
      RunIsNonEmpty(src, i + 2, cls);
    }
  }

  lemma PrefixedUpTo(src: string, i: nat, n: nat, cls: Class, reason: Reason)
    requires i + 2 < n <= |src| && !cls.Has('\0') && ScanPrefixed(src, i, cls, reason).Scanned?
    ensures var r := ScanPrefixed(src, i, cls, reason);
            && (r.next == n <==> AllOf(src[i + 2..n], cls) && !cls.Has(Peek(src, n)))
            && (r.next == n ==> r.word == Word(IntLit, src[i..i + 2] + Strip(src[i + 2..n])))
  {
    hide Run, Strip;
    RunIs(src, i + 2, n, cls);
  }

  /** Where the run of digits ends. */
  lemma DigitsEnd(src: string, i: nat) returns (m: nat)
    requires i < |src| && IsDigit(src[i])
    ensures i < m <= |src| && m == i + Run(src, i, DigitsAndUnderscore)
    ensures IsDecimal(src[i..m]) && !DigitsAndUnderscore.Has(Peek(src, m))
    ensures forall n :: i < n <= |src| && IsDecimal(src[i..n]) && !DigitsAndUnderscore.Has(Peek(src, n)) ==> n == m
  {
    m := i + Run(src, i, DigitsAndUnderscore);
    RunIs(src, i, m, DigitsAndUnderscore);
    RunIsNonEmpty(src, i, DigitsAndUnderscore);
    forall n | i < n <= |src| && IsDecimal(src[i..n]) && !DigitsAndUnderscore.Has(Peek(src, n)) ensures n == m {
      RunIs(src, i, n, DigitsAndUnderscore);
    }
  }

  /** The point of a float stands where the digits end. */
  lemma PointIs(src: string, i: nat, n: nat, point: nat, m: nat)
    requires i < n <= |src| && IsFloat(src[i..n], point)
    requires i < m <= |src| && (forall k :: i < k <= |src| && IsDecimal(src[i..k]) && !DigitsAndUnderscore.Has(Peek(src, k)) ==> k == m)
    ensures i + point == m && src[m] == '.' && m + 1 < n
    ensures AllOf(src[m + 1..n], Digits)
  {
    var t := src[i..n];
    assert t[..point] == src[i..i + point] && t[point] == src[i + point] && t[point + 1..] == src[i + point + 1..n];
    assert IsDecimal(src[i..i + point]);
  }

  lemma DecimalIs(src: string, i: nat, n: nat, w: Word)
    requires i < n <= |src| && IsDigit(src[i])
    ensures ScanDecimal(src, i) == Scanned(w, n) <==>
              || (&& IsDecimal(src[i..n]) && !DigitsAndUnderscore.Has(Peek(src, n))
                  && !(Peek(src, n) == '.' && IsDigit(Peek(src, n + 1))) && w == Word(IntLit, Strip(src[i..n])))
              || (exists point: nat :: IsFloat(src[i..n], point) && !IsDigit(Peek(src, n))
                    && w == Word(FloatLit, Strip(src[i..n][..point]) + src[i..n][point..]))
  {
    hide Run, Strip, IsDecimal, IsFloat;
    var m := DigitsEnd(src, i);
    if Peek(src, m) == '.' && IsDigit(Peek(src, m + 1)) {
      FractionIs(src, i, n, m, w);
    } else {
      forall point: nat ensures !IsFloat(src[i..n], point) {
        if IsFloat(src[i..n], point) {
          PointIs(src, i, n, point, m);
          DigitFollows(src, m, n);
          assert false;
        }
      }
    }
  }

  lemma FractionIs(src: string, i: nat, n: nat, m: nat, w: Word)
    requires i < n <= |src| && IsDigit(src[i]) && i < m && m == i + Run(src, i, DigitsAndUnderscore)
    requires IsDecimal(src[i..m]) && !DigitsAndUnderscore.Has(Peek(src, m))
    requires forall k :: i < k <= |src| && IsDecimal(src[i..k]) && !DigitsAndUnderscore.Has(Peek(src, k)) ==> k == m
    requires Peek(src, m) == '.' && IsDigit(Peek(src, m + 1))
    ensures ScanDecimal(src, i) == Scanned(w, n) <==>
              exists point: nat :: IsFloat(src[i..n], point) && !IsDigit(Peek(src, n))
                && w == Word(FloatLit, Strip(src[i..n][..point]) + src[i..n][point..])
    ensures !(IsDecimal(src[i..n]) && !DigitsAndUnderscore.Has(Peek(src, n)) && !(Peek(src, n) == '.' && IsDigit(Peek(src, n + 1))))
  {
    hide Run, Strip, IsDecimal, AllOf, IsFloat, ScanDecimal;
    var t := src[i..n];
    var e := m + 1 + Run(src, m + 1, Digits);
    FractionEnd(src, m, n);
    ScansFraction(src, i, m);
    if n == e {
      FloatSplits(src, i, m, n);
      FloatHere(t, m - i);
    }
    forall point: nat | IsFloat(t, point) ensures point == m - i && n > m + 1 && AllOf(src[m + 1..n], Digits) {
      PointIs(src, i, n, point, m);
      FloatSplits(src, i, m, n);
    }
  }

  lemma FloatHere(t: string, point: nat)
    requires point + 1 < |t| && IsDecimal(t[..point]) && t[point] == '.' && AllOf(t[point + 1..], Digits)
    ensures IsFloat(t, point)
  {}

  lemma ScansFraction(src: string, i: nat, m: nat)
    requires i < |src| && IsDigit(src[i]) && i < m <= |src| && m == i + Run(src, i, DigitsAndUnderscore)
    requires Peek(src, m) == '.' && IsDigit(Peek(src, m + 1))
    ensures var e := m + 1 + Run(src, m + 1, Digits);
            m + 1 <= e <= |src| && ScanDecimal(src, i) == Scanned(Word(FloatLit, Strip(src[i..m]) + src[m..e]), e)
  {}

  lemma DigitFollows(src: string, m: nat, n: nat)
    requires m + 1 < n <= |src| && AllOf(src[m + 1..n], Digits)
    ensures IsDigit(Peek(src, m + 1))
  {
    assert Digits.Has(src[m + 1..n][0]);
  }

  lemma FractionEnd(src: string, m: nat, n: nat)
    requires m < |src| && IsDigit(Peek(src, m + 1))
    ensures var e := m + 1 + Run(src, m + 1, Digits);
            && m + 1 < e <= |src| && AllOf(src[m + 1..e], Digits) && !IsDigit(Peek(src, e))
            && (m + 1 < n <= |src| && AllOf(src[m + 1..n], Digits) && !IsDigit(Peek(src, n)) ==> n == e)
  {
    hide Run;
    var e := m + 1 + Run(src, m + 1, Digits);
    RunIsNonEmpty(src, m + 1, Digits);
    RunIs(src, m + 1, e, Digits);
    if m + 1 < n <= |src| {
      RunIs(src, m + 1, n, Digits);
    }
  }

  lemma FloatSplits(src: string, i: nat, m: nat, n: nat)
    requires i < m && m + 1 < n <= |src|
    ensures var t := src[i..n];
            t[..m - i] == src[i..m] && t[m - i] == src[m] && t[m - i + 1..] == src[m + 1..n] && t[m - i..] == src[m..n]
  {}

  // ---- each form ----------------------------------------------------------------------------------

  lemma NameForm(src: string, kw: Keywords, i: nat, n: nat, w: Word)
    requires i < n <= |src| && FormOf(src[i]) == Name
    ensures ScanToken(src, kw, i) == Scanned(w, n) <==> IsToken(kw, src[i..n], w) && IsLongest(src, i, n)
  {
    hide Spelling, Spelled, ScanIdent, Strip;
    assert src[i..n][0] == src[i];
    NameIs(src, kw, i, n, w);
    NoSymbol(src, i);
    NotSpelled(src, i, n, w);
    NotFloat(src[i..n]);
  }

  /** No operator text stands there. */
  lemma NotSpelled(src: string, i: nat, n: nat, w: Word)
    requires i < n <= |src| && forall k: Kind :: k.IsOperator() ==> !Spelled(src, i, Spelling(k))
    ensures w.kind.IsOperator() ==> src[i..n] != Spelling(w.kind)
  {
    hide Spelling, Spelled;
    if w.kind.IsOperator() && src[i..n] == Spelling(w.kind) {
      SpelledHere(src, i, n);
      assert false;
    }
  }

  lemma SpelledHere(src: string, i: nat, n: nat)
    requires i < n <= |src|
    ensures Spelled(src, i, src[i..n])
  {}

  lemma FloatStart(t: string, point: nat)
    requires IsFloat(t, point)
    ensures IsDigit(t[0]) && (DigitsAndUnderscore.Has(t[1]) || t[1] == '.')
  {
    assert t[..point][0] == t[0] && (point > 1 ==> t[..point][1] == t[1]);
  }

  lemma NotFloat(t: string)
    ensures t != "" && !IsDigit(t[0]) ==> forall point: nat :: !IsFloat(t, point)
    ensures |t| > 1 && !DigitsAndUnderscore.Has(t[1]) && t[1] != '.' ==> forall point: nat :: !IsFloat(t, point)
    ensures |t| <= 1 ==> forall point: nat :: !IsFloat(t, point)
  {
    forall point: nat | IsFloat(t, point)
      ensures |t| > 1 && IsDigit(t[0]) && (DigitsAndUnderscore.Has(t[1]) || t[1] == '.')
    {
      FloatStart(t, point);
    }
  }

  lemma NumberForm(src: string, kw: Keywords, i: nat, n: nat, w: Word)
    requires i < n <= |src| && FormOf(src[i]) == Number
    ensures ScanToken(src, kw, i) == Scanned(w, n) <==> IsToken(kw, src[i..n], w) && IsLongest(src, i, n)
  {
    hide Spelling, Spelled, ScanPrefixed, ScanDecimal, Strip, IsFloat;
    var t := src[i..n];
    assert t[0] == src[i] && (|t| > 1 ==> t[1] == src[i + 1]);
    NoSymbol(src, i);
    NotSpelled(src, i, n, w);
    NotFloat(t);
    assert |t| > 1 && !DigitsAndUnderscore.Has(t[1]) ==> !IsDecimal(t);
    assert |t| == 1 ==> t == [t[0]];
    var d := Peek(src, i + 1);
    if src[i] == '0' && (d == 'x' || d == 'X') {
      PrefixIs(src, i, n, w, 'x', 'X', HexAndUnderscore, BadHex);
    } else if src[i] == '0' && (d == 'b' || d == 'B') {
      PrefixIs(src, i, n, w, 'b', 'B', BinAndUnderscore, BadBinary);
    } else {
      DecimalIs(src, i, n, w);
      FloatIsNoDecimal(t);
      assert ScanToken(src, kw, i) == ScanDecimal(src, i);
      assert !IsPrefixed(t, 'x', 'X', HexAndUnderscore) && !IsPrefixed(t, 'b', 'B', BinAndUnderscore);
      assert !IsName(t) && t[0] != '"' && t[0] != '\'';
    }
  }

  lemma FloatIsNoDecimal(t: string)
    ensures forall point: nat :: IsFloat(t, point) ==> !IsDecimal(t)
  {}

  lemma TextForm(src: string, kw: Keywords, i: nat, n: nat, w: Word)
    requires i < n <= |src| && FormOf(src[i]) == Text
    ensures ScanToken(src, kw, i) == Scanned(w, n) <==> IsToken(kw, src[i..n], w) && IsLongest(src, i, n)
  {
    hide Spelling, Spelled, ScanString, Strip, Quoted.Text, Quoted.Value, Quoted.ArePieces;
    var t := src[i..n];
    assert t[0] == src[i] == '"';
    NoSymbol(src, i);
    NotSpelled(src, i, n, w);
    NotFloat(t);
    Quoted.StringIsPieces(src, i + 1);
    if ScanString(src, i + 1, "") == Scanned(w, n) {
      var ps := Quoted.ReadIsPieces(src, i + 1, "");
      assert "" + Quoted.Value(ps) == Quoted.Value(ps);
      assert t == [src[i]] + src[i + 1..n];
    }
    forall ps | Quoted.ArePieces(ps) && t == "\"" + (Quoted.Text(ps) + "\"")
      ensures ScanString(src, i + 1, "") == Scanned(Word(StrLit, Quoted.Value(ps)), n)
    {
      assert src[i + 1..] == t[1..] + src[n..];
    }
  }

  lemma CharacterForm(src: string, kw: Keywords, i: nat, n: nat, w: Word)
    requires i < n <= |src| && FormOf(src[i]) == Character
    ensures ScanToken(src, kw, i) == Scanned(w, n) <==> IsToken(kw, src[i..n], w) && IsLongest(src, i, n)
  {
    hide Spelling, Spelled, ScanChar, Strip, Quoted.PieceText, Quoted.PieceValue, Quoted.IsCharPiece;
    var t := src[i..n];
    assert t[0] == src[i] == '\'';
    NoSymbol(src, i);
    NotSpelled(src, i, n, w);
    NotFloat(t);
    Quoted.CharIsPiece(src, i);
    forall p | Quoted.IsCharPiece(p) && Quoted.QuotedPiece(p) <= src[i..]
      ensures t == Quoted.QuotedPiece(p) <==> n == i + |Quoted.QuotedPiece(p)|
    {
      assert src[i..][..n - i] == t;
    }
    forall p | t == Quoted.QuotedPiece(p) ensures Quoted.QuotedPiece(p) <= src[i..] {
      assert src[i..] == t + src[n..];
    }
  }

  lemma SameSpelling(a: Kind, b: Kind)
    requires a.IsOperator() && b.IsOperator() && Spelling(a) == Spelling(b)
    ensures a == b
  {
    hide *;
    TablesAreComplete(a);
    TablesAreComplete(b);
    SpellingSize(a);
  }

  lemma SpellingSize(k: Kind)
    requires k.IsOperator()
    ensures |Spelling(k)| == 1 || |Spelling(k)| == 2 || |Spelling(k)| == 3
  {
    hide Spelling;
  }

  lemma SymbolForm(src: string, kw: Keywords, i: nat, n: nat, w: Word)
    requires i < n <= |src| && FormOf(src[i]) == Symbol
    ensures ScanToken(src, kw, i) == Scanned(w, n) <==> IsToken(kw, src[i..n], w) && IsLongest(src, i, n)
  {
    hide Spelling, ScanOperator, Strip;
    var t := src[i..n];
    assert t[0] == src[i];
    NotFloat(t);
    OperatorFits(src, i);
    forall k: Kind | k.IsOperator() && Spelled(src, i, Spelling(k))
      ensures var r := ScanOperator(src, i); r.Scanned? && |Spelling(k)| <= |r.word.text|
    {
      MaximalMunch(src, i, k);
    }
    var r := ScanOperator(src, i);
    if r.Scanned? {
      assert Spelled(src, i, Spelling(r.word.kind));
    }
    if w.kind.IsOperator() && t == Spelling(w.kind) && w.text == t && IsLongest(src, i, n) {
      assert Spelled(src, i, Spelling(w.kind));
      SameSpelling(w.kind, r.word.kind);
    }
  }

  // ---- the longest token -----------------------------------------------------------------------------

  /** The lexer reads w up to n exactly if the text there is a token that stands for w and what follows
      does not make it longer. */
  lemma ScanIsLongestToken(src: string, kw: Keywords, i: nat, n: nat, w: Word)
    requires i < n <= |src|
    ensures ScanToken(src, kw, i) == Scanned(w, n) <==> IsToken(kw, src[i..n], w) && IsLongest(src, i, n)
  {
    hide *;
    match FormOf(src[i])
    case Name => NameForm(src, kw, i, n, w);
    case Number => NumberForm(src, kw, i, n, w);
    case Text => TextForm(src, kw, i, n, w);
    case Character => CharacterForm(src, kw, i, n, w);
    case Symbol => SymbolForm(src, kw, i, n, w);
  }

  /** It rejects what stands there exactly if no token does, and says what was begun. */
  lemma RejectedIsNoToken(src: string, kw: Keywords, i: nat)
    requires i < |src|
    ensures ScanToken(src, kw, i).Rejected? <==> forall n, w | i < n <= |src| :: !(IsToken(kw, src[i..n], w) && IsLongest(src, i, n))
    ensures ScanToken(src, kw, i).Rejected? ==>
              ScanToken(src, kw, i).reason ==
              if src[i] == '"' then OpenString else if src[i] == '\'' then BadChar
              else if src[i] == '0' then (if Peek(src, i + 1) == 'x' || Peek(src, i + 1) == 'X' then BadHex else BadBinary)
              else BadCharacter
  {
    hide IsToken, IsLongest, ScanToken;
    var r := ScanToken(src, kw, i);
    forall n, w | i < n <= |src| ensures r == Scanned(w, n) <==> IsToken(kw, src[i..n], w) && IsLongest(src, i, n) {
      ScanIsLongestToken(src, kw, i, n, w);
    }
    if r.Scanned? {
      assert IsToken(kw, src[i..r.next], r.word) && IsLongest(src, i, r.next);
    } else {
      WhyRejected(src, kw, i);
    }
  }

  lemma WhyRejected(src: string, kw: Keywords, i: nat)
    requires i < |src| && ScanToken(src, kw, i).Rejected?
    ensures ScanToken(src, kw, i).reason ==
            if src[i] == '"' then OpenString else if src[i] == '\'' then BadChar
            else if src[i] == '0' then (if Peek(src, i + 1) == 'x' || Peek(src, i + 1) == 'X' then BadHex else BadBinary)
            else BadCharacter
  {
    hide TwoCharOperator, OneCharOperator, Run, Strip;
    if src[i] == '"' {
      OnlyOpen(src, i + 1, "");
    }
  }

  lemma {:induction false} OnlyOpen(src: string, i: nat, buf: string)
    requires i <= |src| && ScanString(src, i, buf).Rejected?
    ensures ScanString(src, i, buf) == Rejected(OpenString)
    decreases |src| - i
  {
    if i < |src| && src[i] != '"' && !(src[i] == '\\' && i + 1 == |src|) {
      OnlyOpen(src, if src[i] == '\\' then i + 2 else i + 1, buf + [if src[i] == '\\' then DecodeEscape(src[i + 1]) else src[i]]);
    }
  }

  /** Four letters stand for other characters behind a backslash; every other character stands for itself. */
  lemma EscapesAre(c: char)
    ensures DecodeEscape('0') == '\0' && DecodeEscape('n') == '\n' && DecodeEscape('t') == '\t' && DecodeEscape('r') == '\r'
    ensures c != '0' && c != 'n' && c != 't' && c != 'r' ==> DecodeEscape(c) == c
  {}
}
