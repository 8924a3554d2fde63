/** What the brace scanners take for code: a text as characters of code, comments and literals. */
module BraceText {
  import opened Options
  import opened BraceScanners

  datatype Unit = Plain(c: char) | Escaped(c: char)

  datatype Piece =
    | Code(c: char)
    | LineComment(text: string)
    | BlockComment(text: string)
    | OpenComment(text: string)
    | Quoted(quote: char, units: seq<Unit>)
    | OpenQuoted(quote: char, units: seq<Unit>, cut: bool)

  function UnitText(u: Unit): string {
    match u
    case Plain(c) => [c]
    case Escaped(c) => ['\\', c]
  }

  function UnitsText(us: seq<Unit>): string {
    if us == [] then "" else UnitText(us[0]) + UnitsText(us[1..])
  }

  function PieceText(p: Piece): (r: string)
    ensures |r| > 0
  {
    match p
    case Code(c) => [c]
    case LineComment(text) => "//" + text
    case BlockComment(text) => "/*" + (text + "*/")
    case OpenComment(text) => "/*" + text
    case Quoted(quote, us) => [quote] + (UnitsText(us) + [quote])
    case OpenQuoted(quote, us, cut) => [quote] + (UnitsText(us) + if cut then "\\" else "")
  }

  predicate IsQuote(c: char) {
    c == '\"' || c == '\''
  }

  predicate AreUnits(us: seq<Unit>, quote: char) {
    forall u <- us :: u.Plain? ==> u.c != quote && u.c != '\\'
  }

  predicate HasNoEnd(text: string) {
    forall k :: 0 <= k < |text| - 1 ==> !(text[k] == '*' && text[k + 1] == '/')
  }

  /** What a piece may be when rest follows. A line comment goes up to a newline or the end; what is
      left open goes up to the end. */
  predicate IsPiece(p: Piece, rest: string) {
    match p
    case Code(c) => !IsQuote(c) && !(c == '/' && rest != "" && (rest[0] == '/' || rest[0] == '*'))
    case LineComment(text) => '\n' !in text && (rest == "" || rest[0] == '\n')
    case BlockComment(text) => HasNoEnd(text)
    case OpenComment(text) => HasNoEnd(text) && rest == ""
    case Quoted(quote, us) => IsQuote(quote) && AreUnits(us, quote)
    case OpenQuoted(quote, us, _) => IsQuote(quote) && AreUnits(us, quote) && rest == ""
  }

  function Text(ps: seq<Piece>): string {
    if ps == [] then "" else PieceText(ps[0]) + Text(ps[1..])
  }

  predicate ArePieces(ps: seq<Piece>) {
    ps != [] ==> IsPiece(ps[0], Text(ps[1..])) && ArePieces(ps[1..])
  }

  // ---- what the scanners are to find ------------------------------------------------

  /** Offsets of the code at depth 0, the first piece being at an offset and a depth: braces count
      where they are code, and a closing brace too many does not. */
  function CodeAtTop(ps: seq<Piece>, at: nat, depth: nat): set<nat> {
    if ps == [] then {}
    else
      match ps[0]
      case Code('{') => CodeAtTop(ps[1..], at + 1, depth + 1)
      case Code('}') => (if depth <= 1 then {at} else {}) + CodeAtTop(ps[1..], at + 1, if depth == 0 then 0 else depth - 1)
      case Code(_) => (if depth == 0 then {at} else {}) + CodeAtTop(ps[1..], at + 1, depth)
      case _ => CodeAtTop(ps[1..], at + |PieceText(ps[0])|, depth)
  }

  /** The closing brace that ends as many blocks as are open. */
  function Closing(ps: seq<Piece>, at: nat, open: int): Option<nat> {
    if ps == [] then None
    else
      match ps[0]
      case Code('{') => Closing(ps[1..], at + 1, open + 1)
      case Code('}') => if open == 1 then Some(at) else Closing(ps[1..], at + 1, open - 1)
      case _ => Closing(ps[1..], at + |PieceText(ps[0])|, open)
  }

  // ---- where a piece ends ------------------------------------------------------------

  lemma {:induction false} FindIs(text: string, s: string, i: nat, k: nat)
    requires |s| > 0 && i <= k && StartsAt(text, s, k) && forall j: nat :: i <= j < k ==> !StartsAt(text, s, j)
    ensures Find(text, s, i) == Some(k)
    decreases k - i
  {
    if i < k {
      assert !StartsAt(text, s, i);
      FindIs(text, s, i + 1, k);
    }
  }

  lemma {:induction false} FindNone(text: string, s: string, i: nat)
    requires |s| > 0 && forall j: nat :: i <= j ==> !StartsAt(text, s, j)
    ensures Find(text, s, i) == None
    decreases |text| - i
  {
    if i + |s| <= |text| {
      assert !StartsAt(text, s, i);
      FindNone(text, s, i + 1);
    }
  }

  lemma StartsWithTwo(text: string, s: string, i: nat)
    requires |s| == 2
    ensures StartsAt(text, s, i) <==> i + 1 < |text| && text[i] == s[0] && text[i + 1] == s[1]
  {
    if i + 2 <= |text| {
      assert text[i..i + 2] == [text[i], text[i + 1]];
      assert s == [s[0], s[1]];
    }
  }

  lemma StartsWithOne(text: string, c: char, i: nat)
    ensures StartsAt(text, [c], i) <==> i < |text| && text[i] == c
  {
    if i < |text| {
      assert text[i..i + 1] == [text[i]];
    }
  }

  lemma Characters(text: string, i: nat, p: string, rest: string)
    requires i <= |text| && text[i..] == p + rest
    ensures |text| == i + |p| + |rest| && text[i..i + |p|] == p && text[i + |p|..] == rest
    ensures forall k :: 0 <= k < |p| ==> text[i + k] == p[k]
    ensures forall k :: 0 <= k < |rest| ==> text[i + |p| + k] == rest[k]
  {
    forall k | 0 <= k < |p| + |rest| ensures text[i + k] == (p + rest)[k] {
      assert text[i..][k] == (p + rest)[k];
    }
    assert text[i..i + |p|] == p;
    assert text[i + |p|..] == rest;
  }

  lemma LineEnds(text: string, i: nat, comment: string, rest: string)
    requires i <= |text| && text[i..] == "//" + comment + rest && '\n' !in comment && (rest == "" || rest[0] == '\n')
    ensures Skip(text, i) == Some(i + 2 + |comment|)
  {
    var p, end := "//" + comment, i + 2 + |comment|;
    Characters(text, i, p, rest);
    StartsWithTwo(text, "//", i);
    assert text[i] == p[0] && text[i + 1] == p[1];
    forall j: nat | i <= j < end ensures !StartsAt(text, "\n", j) {
      StartsWithOne(text, '\n', j);
      assert text[i + (j - i)] == p[j - i];
      assert j - i >= 2 ==> p[j - i] == comment[j - i - 2] && p[j - i] in comment;
    }
    if rest == "" {
      FindNone(text, "\n", i);
    } else {
      StartsWithOne(text, '\n', end);
      FindIs(text, "\n", i, end);
    }
  }

  /** In a comment its end does not occur, not even together with a star behind it. */
  lemma NoEndInside(text: string, i: nat, comment: string, j: nat)
    requires i + |comment| <= |text| && (forall k :: 0 <= k < |comment| ==> text[i + k] == comment[k]) && HasNoEnd(comment)
    requires i <= j < i + |comment| && (i + |comment| == |text| || text[i + |comment|] == '*')
    ensures !StartsAt(text, "*/", j)
  {
    StartsWithTwo(text, "*/", j);
    assert text[i + (j - i)] == comment[j - i];
    assert j + 1 < i + |comment| ==> text[i + (j - i + 1)] == comment[j - i + 1];
  }

  lemma BlockEnds(text: string, i: nat, comment: string, rest: string)
    requires i <= |text| && text[i..] == "/*" + (comment + "*/") + rest && HasNoEnd(comment)
    ensures Skip(text, i) == Some(i + |comment| + 4)
  {
    var p, end := "/*" + (comment + "*/"), i + 2 + |comment|;
    Characters(text, i, p, rest);
    Opens(text, i, p);
    forall k | 0 <= k < |comment| ensures text[i + 2 + k] == comment[k] {
      assert text[i + (2 + k)] == p[2 + k];
    }
    assert text[i + (2 + |comment|)] == p[2 + |comment|] == '*' && text[i + (3 + |comment|)] == p[3 + |comment|] == '/';
    StartsWithTwo(text, "*/", end);
    forall j: nat | i + 2 <= j < end ensures !StartsAt(text, "*/", j) {
      NoEndInside(text, i + 2, comment, j);
    }
    FindIs(text, "*/", i + 2, end);
  }

  lemma Opens(text: string, i: nat, p: string)
    requires |p| >= 2 && i + |p| <= |text| && p[0] == '/' && p[1] == '*'
    requires forall k :: 0 <= k < |p| ==> text[i + k] == p[k]
    ensures !StartsAt(text, "//", i) && StartsAt(text, "/*", i)
  {
    assert text[i + 0] == p[0] && text[i + 1] == p[1];
    StartsWithTwo(text, "//", i);
    StartsWithTwo(text, "/*", i);
  }

  lemma OpenGoesOn(text: string, i: nat, comment: string)
    requires i <= |text| && text[i..] == "/*" + comment && HasNoEnd(comment)
    ensures Skip(text, i) == Some(|text|)
  {
    var p := "/*" + comment;
    assert p + "" == p;
    Characters(text, i, p, "");
    Opens(text, i, p);
    forall k | 0 <= k < |comment| ensures text[i + 2 + k] == comment[k] {
      assert text[i + (2 + k)] == p[2 + k];
    }
    forall j: nat | i + 2 <= j ensures !StartsAt(text, "*/", j) {
      if j < |text| {
        NoEndInside(text, i + 2, comment, j);
      }
    }
    FindNone(text, "*/", i + 2);
  }

  lemma UnitSkipped(text: string, quote: char, i: nat, u: Unit)
    requires quote != '\\' && AreUnits([u], quote) && i + |UnitText(u)| <= |text| && text[i] == UnitText(u)[0]
    ensures LiteralEnd(text, quote, i) == LiteralEnd(text, quote, i + |UnitText(u)|)
  {
    assert u in [u];
  }

  lemma UnitsApart(us: seq<Unit>, quote: char)
    requires AreUnits(us, quote) && us != []
    ensures AreUnits([us[0]], quote) && AreUnits(us[1..], quote) && UnitText(us[0]) != ""
  {}

  lemma LiteralStops(text: string, quote: char, i: nat, rest: string)
    requires i <= |text| && text[i..] == rest && quote != '\\' && (rest == "" || rest[0] == quote || rest == "\\")
    ensures rest != "" && rest[0] == quote ==> LiteralEnd(text, quote, i) == i + 1
    ensures rest == "" || rest[0] != quote ==> LiteralEnd(text, quote, i) > |text|
  {
    assert rest != "" ==> text[i] == text[i..][0] == rest[0];
  }

  lemma {:induction false} LiteralEnds(text: string, quote: char, i: nat, us: seq<Unit>, rest: string)
    requires i <= |text| && text[i..] == UnitsText(us) + rest && AreUnits(us, quote) && quote != '\\'
    requires rest == "" || rest[0] == quote || rest == "\\"
    ensures rest != "" && rest[0] == quote ==> LiteralEnd(text, quote, i) == i + |UnitsText(us)| + 1
    ensures rest == "" || rest[0] != quote ==> LiteralEnd(text, quote, i) > |text|
    decreases |us|
  {
    hide LiteralEnd, UnitText, AreUnits;
    if us == [] {
      assert UnitsText(us) + rest == rest;
      LiteralStops(text, quote, i, rest);
    } else {
      var u, more := UnitText(us[0]), UnitsText(us[1..]);
      assert UnitsText(us) + rest == u + (more + rest);
      Characters(text, i, u, more + rest);
      UnitsApart(us, quote);
      assert text[i + 0] == u[0];
      UnitSkipped(text, quote, i, us[0]);
      LiteralEnds(text, quote, i + |u|, us[1..], rest);
    }
  }

  // ---- one piece ---------------------------------------------------------------------

  /** A piece of code is not skipped, and any other is skipped as a whole. */
  lemma PieceSkipped(text: string, i: nat, p: Piece, rest: string)
    requires i <= |text| && text[i..] == PieceText(p) + rest && IsPiece(p, rest)
    ensures i + |PieceText(p)| <= |text| && text[i + |PieceText(p)|..] == rest
    ensures p.Code? ==> text[i] == p.c && Skip(text, i).None?
    ensures !p.Code? ==> Skip(text, i).Some? &&
                         var j := Skip(text, i).value; j == i + |PieceText(p)| || (rest == "" && j >= |text|)
  {
    Characters(text, i, PieceText(p), rest);
    match p
    case Code(c) =>
      assert rest != "" ==> text[i + 1] == rest[0];
      StartsWithTwo(text, "//", i);
      StartsWithTwo(text, "/*", i);
    case LineComment(t) => LineEnds(text, i, t, rest);
    case BlockComment(t) => BlockEnds(text, i, t, rest);
    case OpenComment(t) =>
      assert PieceText(p) + rest == "/*" + t;
      OpenGoesOn(text, i, t);
    case Quoted(quote, us) => QuotedSkipped(text, i, quote, us, [quote] + rest);
      assert PieceText(p) + rest == [quote] + (UnitsText(us) + ([quote] + rest));
    case OpenQuoted(quote, us, cut) =>
      assert PieceText(p) + rest == [quote] + (UnitsText(us) + if cut then "\\" else "");
      QuotedSkipped(text, i, quote, us, if cut then "\\" else "");
  }

  lemma QuotedSkipped(text: string, i: nat, quote: char, us: seq<Unit>, rest: string)
    requires i <= |text| && text[i..] == [quote] + (UnitsText(us) + rest) && IsQuote(quote) && AreUnits(us, quote)
    requires rest == "" || rest[0] == quote || rest == "\\"
    ensures Skip(text, i).Some?
    ensures rest != "" && rest[0] == quote ==> Skip(text, i).value == i + |UnitsText(us)| + 2
    ensures rest == "" || rest[0] != quote ==> Skip(text, i).value > |text|
  {
    Characters(text, i, [quote], UnitsText(us) + rest);
    assert text[i] == quote;
    StartsWithTwo(text, "//", i);
    StartsWithTwo(text, "/*", i);
    LiteralEnds(text, quote, i + 1, us, rest);
  }

  // ---- the scans ---------------------------------------------------------------------

  /** However a text is read as pieces, the first scanner gives the code at depth 0. */
  lemma {:induction false} TopLevelIsCode(text: string, i: nat, depth: nat, ps: seq<Piece>)
    requires i <= |text| && text[i..] == Text(ps) && ArePieces(ps)
    ensures TopLevel(text, i, depth) == CodeAtTop(ps, i, depth)
    decreases |ps|
  {
    hide Skip, IsPiece, PieceText;
    if ps != [] {
      PieceSkipped(text, i, ps[0], Text(ps[1..]));
      var next := i + |PieceText(ps[0])|;
      TopLevelIsCode(text, next, if ps[0].Code? then DepthAfter(text[i], depth) else depth, ps[1..]);
      if ps[0].Code? {
        OneCharacter(ps[0]);
      } else if Skip(text, i).value != next {
        NoPieces(ps[1..]);
      }
    }
  }

  lemma OneCharacter(p: Piece)
    requires p.Code?
    ensures |PieceText(p)| == 1
  {}

  lemma NoPieces(ps: seq<Piece>)
    ensures Text(ps) == "" <==> ps == []
  {
    if ps != [] {
      assert |Text(ps)| == |PieceText(ps[0])| + |Text(ps[1..])|;
    }
  }

  /** And the second one gives the brace in the code that ends the open blocks. */
  lemma {:induction false} MatchingIsCode(text: string, i: nat, open: int, ps: seq<Piece>)
    requires i <= |text| && text[i..] == Text(ps) && ArePieces(ps)
    ensures Matching(text, i, open) == Closing(ps, i, open)
    decreases |ps|
  {
    hide Skip, IsPiece, PieceText;
    if ps != [] {
      PieceSkipped(text, i, ps[0], Text(ps[1..]));
      var next := i + |PieceText(ps[0])|;
      MatchingIsCode(text, next, if ps[0] == Code('{') then open + 1 else if ps[0] == Code('}') then open - 1 else open, ps[1..]);
      if ps[0].Code? {
        OneCharacter(ps[0]);
      } else if Skip(text, i).value != next {
        NoPieces(ps[1..]);
      }
    }
  }

  // ---- every text is pieces ------------------------------------------------------------

  /** The contents of a literal up to its closing quote, or up to the end. */
  lemma {:induction false} UnitsOf(text: string, quote: char) returns (us: seq<Unit>, rest: string)
    requires quote != '\\'
    ensures text == UnitsText(us) + rest && AreUnits(us, quote)
    ensures rest == "" || rest[0] == quote || rest == "\\"
    decreases |text|
  {
    us, rest := [], text;
    if text != "" && text[0] != quote && text != "\\" {
      var u := if text[0] == '\\' then Escaped(text[1]) else Plain(text[0]);
      var more: seq<Unit>;
      var n := |UnitText(u)|;
      more, rest := UnitsOf(text[n..], quote);
      us := [u] + more;
      assert us[1..] == more;
      assert text == UnitText(u) + text[n..];
    }
  }

  /** A text without an end of comment, or split at the first one. */
  lemma {:induction false} CommentOf(text: string) returns (comment: string, closed: bool, rest: string)
    ensures HasNoEnd(comment) && text == if closed then comment + "*/" + rest else comment
    ensures !closed ==> rest == ""
    decreases |text|
  {
    comment, closed, rest := "", false, "";
    if |text| >= 2 && text[0] == '*' && text[1] == '/' {
      closed, rest := true, text[2..];
      assert text == "*/" + rest;
    } else if text != "" {
      comment, closed, rest := CommentOf(text[1..]);
      var longer := [text[0]] + comment;
      forall k | 0 <= k < |longer| - 1 ensures !(longer[k] == '*' && longer[k + 1] == '/') {
        if k > 0 {
          assert longer[k] == comment[k - 1] && longer[k + 1] == comment[k];
        } else {
          assert text[1] == text[1..][0] == comment[0];
        }
      }
      comment := longer;
      assert text == [text[0]] + text[1..];
    }
  }

  lemma {:induction false} LineOf(text: string) returns (line: string, rest: string)
    ensures text == line + rest && !('\n' in line) && (rest == "" || rest[0] == '\n')
    decreases |text|
  {
    line, rest := "", text;
    if text != "" && text[0] != '\n' {
      line, rest := LineOf(text[1..]);
      line := [text[0]] + line;
      assert text == [text[0]] + text[1..];
    }
  }

  lemma FirstPiece(text: string) returns (p: Piece, rest: string)
    requires text != ""
    ensures text == PieceText(p) + rest && IsPiece(p, rest)
  {
    hide HasNoEnd, UnitsText, AreUnits;
    if |text| >= 2 && text[0] == '/' && (text[1] == '/' || text[1] == '*') {
      p, rest := FirstComment(text);
    } else if text[0] == '\"' || text[0] == '\'' {
      p, rest := FirstLiteral(text);
    } else {
      p, rest := Code(text[0]), text[1..];
    }
  }

  lemma FirstComment(text: string) returns (p: Piece, rest: string)
    requires |text| >= 2 && text[0] == '/' && (text[1] == '/' || text[1] == '*')
    ensures text == PieceText(p) + rest && IsPiece(p, rest)
  {
    hide HasNoEnd;
    assert text == [text[0], text[1]] + text[2..];
    if text[1] == '/' {
      var line: string;
      line, rest := LineOf(text[2..]);
      p := LineComment(line);
    } else {
      var comment: string, closed: bool;
      comment, closed, rest := CommentOf(text[2..]);
      p := if closed then BlockComment(comment) else OpenComment(comment);
    }
  }

  lemma FirstLiteral(text: string) returns (p: Piece, rest: string)
    requires text != "" && (text[0] == '\"' || text[0] == '\'')
    ensures text == PieceText(p) + rest && IsPiece(p, rest)
  {
    hide UnitsText, AreUnits;
    var us: seq<Unit>;
    us, rest := UnitsOf(text[1..], text[0]);
    assert text == [text[0]] + text[1..];
    if rest != "" && rest[0] == text[0] {
      p := Quoted(text[0], us);
      assert rest == [text[0]] + rest[1..];
      rest := rest[1..];
    } else {
      p, rest := OpenQuoted(text[0], us, rest != ""), "";
    }
  }

  /** Every text can be read as pieces. */
  lemma {:induction false} PiecesOf(text: string) returns (ps: seq<Piece>)
    ensures Text(ps) == text && ArePieces(ps)
    decreases |text|
  {
    hide PieceText, IsPiece;
    ps := [];
    if text != "" {
      var p, rest := FirstPiece(text);
      ps := PiecesOf(rest);
      assert ([p] + ps)[1..] == ps;
      ps := [p] + ps;
    }
  }
}
