/** String and character literals: what they are made of, and that every text can be written as one. */
module SotlasQuoted {
  import opened SotlasTokens
  import opened SotlasLexing

  /** A character between quotes stands for itself, or follows a backslash. */
  datatype Piece = Raw(c: char) | Escaped(c: char)

  function PieceText(p: Piece): string {
    if p.Raw? then [p.c] else ['\\', p.c]
  }

  function PieceValue(p: Piece): char {
    if p.Raw? then p.c else DecodeEscape(p.c)
  }

  function Text(ps: seq<Piece>): string {
    if ps == [] then "" else PieceText(ps[0]) + Text(ps[1..])
  }

  function Value(ps: seq<Piece>): string {
    if ps == [] then "" else [PieceValue(ps[0])] + Value(ps[1..])
  }

  /** A quote or a backslash does not stand for itself. */
  predicate IsPiece(p: Piece, quote: char) {
    p.Raw? ==> p.c != quote && p.c != '\\'
  }

  predicate ArePieces(ps: seq<Piece>) {
    forall p <- ps :: IsPiece(p, '"')
  }

  // ---- strings ---------------------------------------------------------------------------

  lemma HeadAt(src: string, i: nat, a: string, b: string)
    requires i <= |src| && a + b <= src[i..]
    ensures i + |a| <= |src| && a <= src[i..] && b <= src[i + |a|..]
    ensures forall k :: 0 <= k < |a| ==> src[i + k] == a[k]
  {
    assert |a + b| <= |src| - i;
    forall k | 0 <= k < |a| ensures src[i + k] == a[k] {
      assert src[i..][k] == (a + b)[k];
    }
    forall k | 0 <= k < |b| ensures src[i + |a|..][k] == b[k] {
      assert src[i..][|a| + k] == (a + b)[|a| + k];
    }
  }

  /** One piece is read. */
  lemma PieceStep(src: string, i: nat, p: Piece, buf: string)
    requires i <= |src| && IsPiece(p, '"') && PieceText(p) <= src[i..]
    ensures ScanString(src, i, buf) == ScanString(src, i + |PieceText(p)|, buf + [PieceValue(p)])
  {
    hide DecodeEscape;
    assert src[i] == src[i..][0] == PieceText(p)[0];
    if p.Escaped? {
      assert src[i + 1] == src[i..][1] == PieceText(p)[1];
    }
  }

  lemma QuoteStep(src: string, i: nat, buf: string)
    requires i < |src| && src[i] == '"'
    ensures ScanString(src, i, buf) == Scanned(Word(StrLit, buf), i + 1)
  {}

  lemma FirstPiece(ps: seq<Piece>)
    requires ps != []
    ensures Text(ps) == PieceText(ps[0]) + Text(ps[1..]) && Value(ps) == [PieceValue(ps[0])] + Value(ps[1..])
    ensures ArePieces(ps) <==> IsPiece(ps[0], '"') && ArePieces(ps[1..])
  {
    hide DecodeEscape, IsPiece;
    assert ps == [ps[0]] + ps[1..];
  }

  lemma NoPieces()
    ensures Text([]) == "" && Value([]) == "" && ArePieces([])
  {}

  lemma Joined(a: string, b: string, c: string)
    ensures (a + b) + c == a + (b + c)
  {}

  /** Pieces and the closing quote are read as the value of the pieces. */
  lemma {:induction false} PiecesRead(src: string, i: nat, ps: seq<Piece>, buf: string)
    requires i <= |src| && ArePieces(ps) && Text(ps) + "\"" <= src[i..]
    ensures ScanString(src, i, buf) == Scanned(Word(StrLit, buf + Value(ps)), i + |Text(ps)| + 1)
    decreases |ps|
  {
    hide ScanString, PieceText, PieceValue, Text, Value, IsPiece, ArePieces;
    NoPieces();
    if ps == [] {
      assert "" + "\"" == "\"" && src[i..][0] == '"';
      QuoteStep(src, i, buf);
      assert buf + "" == buf;
    } else {
      var a, rest := PieceText(ps[0]), Text(ps[1..]) + "\"";
      FirstPiece(ps);
      Joined(a, Text(ps[1..]), "\"");
      HeadAt(src, i, a, rest);
      PieceStep(src, i, ps[0], buf);
      PiecesRead(src, i + |a|, ps[1..], buf + [PieceValue(ps[0])]);
      Joined(buf, [PieceValue(ps[0])], Value(ps[1..]));
    }
  }

  lemma ReadStep(src: string, i: nat, buf: string) returns (p: Piece)
    requires i < |src| && src[i] != '"' && ScanString(src, i, buf).Scanned?
    ensures IsPiece(p, '"') && i + |PieceText(p)| <= |src| && src[i..i + |PieceText(p)|] == PieceText(p)
    ensures ScanString(src, i, buf) == ScanString(src, i + |PieceText(p)|, buf + [PieceValue(p)])
    ensures |PieceText(p)| > 0
  {
    hide DecodeEscape;
    p := if src[i] == '\\' then Escaped(src[i + 1]) else Raw(src[i]);
  }

  /** Whatever is read as a string is made of pieces and a closing quote, the first that no backslash
      precedes. */
  lemma {:induction false} ReadIsPieces(src: string, i: nat, buf: string) returns (ps: seq<Piece>)
    requires i <= |src| && ScanString(src, i, buf).Scanned?
    ensures ArePieces(ps) && Text(ps) + "\"" == src[i..ScanString(src, i, buf).next]
    ensures ScanString(src, i, buf).word == Word(StrLit, buf + Value(ps))
    decreases |src| - i
  {
    hide ScanString, PieceText, PieceValue, Text, Value, IsPiece, ArePieces;
    NotAtEnd(src, i, buf);
    if src[i] == '"' {
      ps := [];
      NoPieces();
      QuoteStep(src, i, buf);
      assert src[i..i + 1] == "\"" == "" + "\"" && buf + "" == buf;
    } else {
      var r := ScanString(src, i, buf);
      var p := ReadStep(src, i, buf);
      var n := i + |PieceText(p)|;
      var rest := ReadIsPieces(src, n, buf + [PieceValue(p)]);
      ps := [p] + rest;
      assert ps[0] == p && ps[1..] == rest;
      FirstPiece(ps);
      assert src[i..r.next] == src[i..n] + src[n..r.next];
      Joined(PieceText(p), Text(rest), "\"");
      Joined(buf, [PieceValue(p)], Value(rest));
    }
  }

  lemma NotAtEnd(src: string, i: nat, buf: string)
    requires i <= |src| && ScanString(src, i, buf).Scanned?
    ensures i < |src|
  {}

  /** After the opening quote, there is a string exactly if there are pieces and a closing quote. */
  lemma StringIsPieces(src: string, i: nat)
    requires i <= |src|
    ensures ScanString(src, i, "").Scanned? <==> exists ps :: ArePieces(ps) && Text(ps) + "\"" <= src[i..]
    ensures forall ps :: ArePieces(ps) && Text(ps) + "\"" <= src[i..] ==>
              ScanString(src, i, "") == Scanned(Word(StrLit, Value(ps)), i + |Text(ps)| + 1)
  {
    hide ScanString, Text, Value, ArePieces;
    forall ps | ArePieces(ps) && Text(ps) + "\"" <= src[i..]
      ensures ScanString(src, i, "") == Scanned(Word(StrLit, Value(ps)), i + |Text(ps)| + 1)
    {
      PiecesRead(src, i, ps, "");
      assert "" + Value(ps) == Value(ps);
    }
    if ScanString(src, i, "").Scanned? {
      var ps := ReadIsPieces(src, i, "");
      var n := ScanString(src, i, "").next;
      assert src[i..][..n - i] == src[i..n];
      assert ArePieces(ps) && Text(ps) + "\"" <= src[i..];
    }
  }

  /** How a string literal with this value can be written. */
  function Escape(c: char): Piece {
    if c == '\0' then Escaped('0') else if c == '\n' then Escaped('n')
    else if c == '\t' then Escaped('t') else if c == '\r' then Escaped('r')
    else if c == '"' || c == '\'' || c == '\\' then Escaped(c)
    else Raw(c)
  }

  function EscapeAll(t: string): (ps: seq<Piece>)
    ensures |ps| == |t|
  {
    if t == "" then [] else [Escape(t[0])] + EscapeAll(t[1..])
  }

  function Quoted(t: string): string {
    "\"" + (Text(EscapeAll(t)) + "\"")
  }

  lemma EscapeMeans(c: char)
    ensures PieceValue(Escape(c)) == c && IsPiece(Escape(c), '"') && IsPiece(Escape(c), '\'')
  {}

  lemma {:induction false} EscapeAllMeans(t: string)
    ensures Value(EscapeAll(t)) == t && ArePieces(EscapeAll(t))
    decreases |t|
  {
    if t != "" {
      EscapeMeans(t[0]);
      EscapeAllMeans(t[1..]);
      var ps := EscapeAll(t);
      assert ps[1..] == EscapeAll(t[1..]);
      assert forall p <- ps :: p == ps[0] || p in ps[1..];
    }
  }

  /** Every text can be written as a string literal, which is read back whole. */
  lemma QuotedReads(src: string, kw: Keywords, i: nat, t: string)
    requires i < |src| && Quoted(t) <= src[i..]
    ensures ScanToken(src, kw, i) == Scanned(Word(StrLit, t), i + |Quoted(t)|)
  {
    var ps := EscapeAll(t);
    HeadAt(src, i, "\"", Text(ps) + "\"");
    EscapeAllMeans(t);
    PiecesRead(src, i + 1, ps, "");
    assert "" + Value(ps) == t;
  }

  // ---- characters ------------------------------------------------------------------------

  predicate IsCharPiece(p: Piece) {
    IsPiece(p, '\'')
  }

  function QuotedPiece(p: Piece): string {
    "'" + (PieceText(p) + "'")
  }

  lemma CharPieceReads(src: string, i: nat, p: Piece)
    requires i < |src| && IsCharPiece(p) && QuotedPiece(p) <= src[i..]
    ensures ScanChar(src, i) == Scanned(Word(CharLit, [PieceValue(p)]), i + |PieceText(p)| + 2)
  {
    hide DecodeEscape;
    HeadAt(src, i, "'", PieceText(p) + "'");
    HeadAt(src, i + 1, PieceText(p), "'");
    var n := i + 1 + |PieceText(p)|;
    assert |src[n..]| >= 1 && src[n..][0] == '\'';
  }

  /** A character literal is exactly one piece between single quotes, and stands for its value. */
  lemma CharIsPiece(src: string, i: nat)
    requires i < |src| && src[i] == '\''
    ensures ScanChar(src, i).Scanned? <==> exists p :: IsCharPiece(p) && QuotedPiece(p) <= src[i..]
    ensures forall p :: IsCharPiece(p) && QuotedPiece(p) <= src[i..] ==>
              ScanChar(src, i) == Scanned(Word(CharLit, [PieceValue(p)]), i + |QuotedPiece(p)|)
  {
    hide DecodeEscape;
    forall p | IsCharPiece(p) && QuotedPiece(p) <= src[i..]
      ensures ScanChar(src, i) == Scanned(Word(CharLit, [PieceValue(p)]), i + |QuotedPiece(p)|)
    {
      CharPieceReads(src, i, p);
    }
    if ScanChar(src, i).Scanned? {
      var p := if src[i + 1] == '\\' then Escaped(src[i + 2]) else Raw(src[i + 1]);
      assert IsCharPiece(p);
      var n := ScanChar(src, i).next;
      assert src[i..][..n - i] == QuotedPiece(p);
    }
  }

  /** Every character can be written as a literal. */
  lemma EveryCharacterReads(src: string, kw: Keywords, i: nat, c: char)
    requires i < |src| && QuotedPiece(Escape(c)) <= src[i..]
    ensures ScanToken(src, kw, i) == Scanned(Word(CharLit, [c]), i + |QuotedPiece(Escape(c))|)
  {
    HeadAt(src, i, "'", PieceText(Escape(c)) + "'");
    EscapeMeans(c);
    CharPieceReads(src, i, Escape(c));
  }
}
