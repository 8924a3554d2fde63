/** What the Sotlas expression parser computes, as functions of the token list and a position. */
module SotlasParsing {
  import opened Options
  import opened SotlasTokens

  datatype Arg = Arg(tag: Option<string>, value: Expr)

  datatype FieldInit = FieldInit(name: string, value: Expr)

  datatype Expr =
    | Literal(kind: Kind, text: string)
    | Ident(name: string, path: seq<string>)
    | Binary(op: Kind, left: Expr, right: Expr)
    | Unary(op: Kind, operand: Expr)
    | Call(callee: Expr, args: seq<Arg>)
    | Index(base: Expr, index: Expr)
    | Field(base: Expr, field: string)
    | BitSlice(base: Expr, lo: Expr, hi: Expr)
    | BitNotch(base: Expr, bit: Expr)
    | BitStrand(base: Expr)
    | TupleIndex(base: Expr, position: nat)
    | Slice(base: Expr, from: Option<Expr>, to: Option<Expr>)
    | OptionalChain(inner: Expr)
    | ForceUnwrap(inner: Expr)
    | StructLit(name: string, path: seq<string>, fields: seq<FieldInit>)
    | TupleLit(elements: seq<Expr>)
    | ArrayLit(elements: seq<Expr>)
    | IfExpr(condition: Expr, thenExpr: Expr, elseExpr: Expr)

  /** Why parsing stops: a syntax error, an integer conversion the source's int() rejects,
      or a construct whose grammar (types after 'as', closure bodies) is outside this model. */
  datatype Fault = Unexpected | BadInteger | OutsideModel

  datatype Parsed<+T> = Parsed(value: T, next: nat) | Bad(fault: Fault, at: nat) {
    predicate IsFailure() { Bad? }

    function PropagateFailure<U>(): Parsed<U>
      requires Bad?
    {
      Bad(fault, at)
    }

    function Extract(): (T, nat)
      requires Parsed?
    {
      (value, next)
    }
  }

  /** Token lists as the lexer makes them: not empty, and Eof at the end. */
  predicate Ended(ws: seq<Word>) {
    |ws| > 0 && ws[|ws| - 1].kind == Eof
  }

  predicate IsFused(ws: seq<Word>, k: nat)
    requires k < |ws|
  {
    ws[k].kind == KwCoOwned
  }

  /** The compound keyword does not occur among the tokens from p up to q. */
  predicate Clean(ws: seq<Word>, p: nat, q: nat) {
    p <= q < |ws| && forall k :: p <= k < q ==> !IsFused(ws, k)
  }

  /** On success some tokens were taken, none of them the compound keyword. */
  predicate Steps<T>(ws: seq<Word>, p: nat, r: Parsed<T>) {
    r.Parsed? ==> p < r.next < |ws| && Clean(ws, p, r.next)
  }

  predicate Stays<T>(ws: seq<Word>, p: nat, r: Parsed<T>) {
    r.Parsed? ==> p <= r.next < |ws| && Clean(ws, p, r.next)
  }

  function PeekWord(ws: seq<Word>, p: nat): Word
    requires Ended(ws)
  {
    if p < |ws| then ws[p] else ws[|ws| - 1]
  }

  function Expect(ws: seq<Word>, p: nat, kind: Kind): (r: Parsed<string>)
    requires Ended(ws) && p < |ws| && kind != Eof && kind != KwCoOwned
    ensures Steps(ws, p, r)
    ensures r.Parsed? <==> ws[p].kind == kind
  {
    if ws[p].kind == kind then Parsed(ws[p].text, p + 1) else Bad(Unexpected, p)
  }

  predicate IsBinaryOp(k: Kind) {
    || k.Eq? || k.Neq? || k.And? || k.Or? || k.LAnd? || k.LOr? || k.Xor?
    || k.Shl? || k.Shr? || k.Lt? || k.Lte? || k.Gt? || k.Gte?
    || k.Plus? || k.Minus? || k.Star? || k.Slash? || k.Percent? || k.NilCoal?
  }

  predicate IsUnaryOp(k: Kind) {
    k.Not? || k.Minus? || k.Tilde? || k.Star? || k.LAnd? || k.KwAwait?
  }

  predicate IsLiteral(k: Kind) {
    k.IntLit? || k.FloatLit? || k.StrLit? || k.CharLit? || k.KwTrue? || k.KwFalse? || k.KwNil?
  }

  /** The value int() gives a decimal text; hexadecimal and binary texts are rejected. */
  function DecimalValue(t: string): Option<nat> {
    if t == "" then None
    else if !IsDigit(t[|t| - 1]) then None
    else
      var digit := t[|t| - 1] as nat - '0' as nat;
      if |t| == 1 then Some(digit)
      else
        match DecimalValue(t[..|t| - 1])
        case None => None
        case Some(v) => Some(10 * v + digit)
  }

  function Copies(e: Expr, n: nat): (r: seq<Expr>)
    ensures |r| == n && forall k :: 0 <= k < n ==> r[k] == e
  {
    seq(n, _ => e)
  }

  function ParseExpr(ws: seq<Word>, p: nat): (r: Parsed<Expr>)
    requires Ended(ws) && p < |ws|
    ensures Steps(ws, p, r)
    decreases |ws| - p, 6
  {
    ParseBinary(ws, p)
  }

  function ParseBinary(ws: seq<Word>, p: nat): (r: Parsed<Expr>)
    requires Ended(ws) && p < |ws|
    ensures Steps(ws, p, r)
    decreases |ws| - p, 5
  {
    var (left, q) :- ParseUnary(ws, p);
    BinaryLoop(ws, left, q)
  }

  function BinaryLoop(ws: seq<Word>, left: Expr, p: nat): (r: Parsed<Expr>)
    requires Ended(ws) && p < |ws|
    ensures Stays(ws, p, r)
    decreases |ws| - p, 5
  {
    if !IsBinaryOp(ws[p].kind) then Parsed(left, p)
    else
      var (right, q) :- ParseUnary(ws, p + 1);
      BinaryLoop(ws, Binary(ws[p].kind, left, right), q)
  }

  function ParseUnary(ws: seq<Word>, p: nat): (r: Parsed<Expr>)
    requires Ended(ws) && p < |ws|
    ensures Steps(ws, p, r)
    decreases |ws| - p, 4
  {
    if IsUnaryOp(ws[p].kind) then
      var q := if ws[p].kind == LAnd && ws[p + 1].kind == KwMut then p + 2 else p + 1;
      var (operand, next) :- ParseUnary(ws, q);
      Parsed(Unary(ws[p].kind, operand), next)
    else ParsePostfix(ws, p)
  }

  function ParsePostfix(ws: seq<Word>, p: nat): (r: Parsed<Expr>)
    requires Ended(ws) && p < |ws|
    ensures Steps(ws, p, r)
    decreases |ws| - p, 3
  {
    var (e, q) :- ParsePrimary(ws, p);
    PostfixLoop(ws, e, q)
  }

  function PostfixLoop(ws: seq<Word>, e: Expr, p: nat): (r: Parsed<Expr>)
    requires Ended(ws) && p < |ws|
    ensures Stays(ws, p, r)
    decreases |ws| - p, 3
  {
    var k := ws[p].kind;
    if k.Dot? then
      var (e', q) :- ParseDot(ws, e, p + 1);
      PostfixLoop(ws, e', q)
    else if k.LBracket? then
      var (e', q) :- ParseBracket(ws, e, p + 1);
      PostfixLoop(ws, e', q)
    else if k.LParen? then
      var (args, q) :- ParseCallArgs(ws, p + 1);
      PostfixLoop(ws, Call(e, args), q)
    else if k.KwAs? then Bad(OutsideModel, p)
    else if k.QMark? then PostfixLoop(ws, OptionalChain(e), p + 1)
    else if k.Not? then PostfixLoop(ws, ForceUnwrap(e), p + 1)
    else Parsed(e, p)
  }

  /** What follows a point, which stands just before p. */
  function ParseDot(ws: seq<Word>, e: Expr, p: nat): (r: Parsed<Expr>)
    requires Ended(ws) && p < |ws|
    ensures Steps(ws, p, r)
    decreases |ws| - p, 2
  {
    var k := ws[p].kind;
    if k.KwSlit? then ParseBitSlice(ws, e, p + 1)
    else if k.KwNotch? then ParseBitNotch(ws, e, p + 1)
    else if k.KwStrand? then Parsed(BitStrand(e), p + 1)
    else if k.IntLit? then
      match DecimalValue(ws[p].text)
      case None => Bad(BadInteger, p)
      case Some(v) => Parsed(TupleIndex(e, v), p + 1)
    else ParseMember(ws, e, p)
  }

  function ParseBitSlice(ws: seq<Word>, e: Expr, p: nat): (r: Parsed<Expr>)
    requires Ended(ws) && p < |ws|
    ensures Steps(ws, p, r)
    decreases |ws| - p, 2
  {
    var (_, q1) :- Expect(ws, p, LBracket);
    var (lo, q2) :- ParseExpr(ws, q1);
    var (_, q3) :- Expect(ws, q2, DotDot);
    var (hi, q4) :- ParseExpr(ws, q3);
    var (_, q5) :- Expect(ws, q4, RBracket);
    Parsed(BitSlice(e, lo, hi), q5)
  }

  function ParseBitNotch(ws: seq<Word>, e: Expr, p: nat): (r: Parsed<Expr>)
    requires Ended(ws) && p < |ws|
    ensures Steps(ws, p, r)
    decreases |ws| - p, 2
  {
    var (_, q1) :- Expect(ws, p, LBracket);
    var (bit, q2) :- ParseExpr(ws, q1);
    var (_, q3) :- Expect(ws, q2, RBracket);
    Parsed(BitNotch(e, bit), q3)
  }

  /** A field, or a method call on it. */
  function ParseMember(ws: seq<Word>, e: Expr, p: nat): (r: Parsed<Expr>)
    requires Ended(ws) && p < |ws|
    ensures Steps(ws, p, r)
    decreases |ws| - p, 1
  {
    var (name, q) :- Expect(ws, p, Kind.Ident);
    if ws[q].kind == LParen then
      var (args, q2) :- ParseCallArgs(ws, q + 1);
      Parsed(Call(Field(e, name), args), q2)
    else Parsed(Field(e, name), q)
  }

  /** An index or a slice; the opening bracket stands just before p. */
  function ParseBracket(ws: seq<Word>, e: Expr, p: nat): (r: Parsed<Expr>)
    requires Ended(ws) && p < |ws|
    ensures Steps(ws, p, r)
    decreases |ws| - p, 7
  {
    if ws[p].kind == DotDot then
      var (hi, q) :- ParseSliceEnd(ws, p + 1);
      Parsed(Slice(e, None, hi), q)
    else
      var (lo, q1) :- ParseExpr(ws, p);
      if ws[q1].kind == DotDot then
        var (hi, q) :- ParseSliceEnd(ws, q1 + 1);
        Parsed(Slice(e, Some(lo), hi), q)
      else
        var (_, q) :- Expect(ws, q1, RBracket);
        Parsed(Index(e, lo), q)
  }

  function ParseSliceEnd(ws: seq<Word>, p: nat): (r: Parsed<Option<Expr>>)
    requires Ended(ws) && p < |ws|
    ensures Steps(ws, p, r)
    decreases |ws| - p, 7
  {
    if ws[p].kind == RBracket then Parsed(None, p + 1)
    else
      var (hi, q1) :- ParseExpr(ws, p);
      var (_, q) :- Expect(ws, q1, RBracket);
      Parsed(Some(hi), q)
  }

  /** Arguments and the closing parenthesis; the opening one stands just before p. */
  function ParseCallArgs(ws: seq<Word>, p: nat): (r: Parsed<seq<Arg>>)
    requires Ended(ws) && p < |ws|
    ensures Steps(ws, p, r)
    decreases |ws| - p, 9
  {
    var (args, q) :- ParseArgList(ws, p);
    var (_, q2) :- Expect(ws, q, RParen);
    Parsed(args, q2)
  }

  function ParseArgList(ws: seq<Word>, p: nat): (r: Parsed<seq<Arg>>)
    requires Ended(ws) && p < |ws|
    ensures Stays(ws, p, r)
    decreases |ws| - p, 8
  {
    if ws[p].kind == RParen then Parsed([], p)
    else
      var (first, q) :- ParseArg(ws, p);
      ArgLoop(ws, [first], q)
  }

  function ArgLoop(ws: seq<Word>, args: seq<Arg>, p: nat): (r: Parsed<seq<Arg>>)
    requires Ended(ws) && p < |ws|
    ensures Stays(ws, p, r)
    decreases |ws| - p, 8
  {
    if ws[p].kind != Comma then Parsed(args, p)
    else if ws[p + 1].kind == RParen then Parsed(args, p + 1)
    else
      var (a, q) :- ParseArg(ws, p + 1);
      ArgLoop(ws, args + [a], q)
  }

  function ParseArg(ws: seq<Word>, p: nat): (r: Parsed<Arg>)
    requires Ended(ws) && p < |ws|
    ensures Steps(ws, p, r)
    decreases |ws| - p, 7
  {
    if ws[p].kind == Kind.Ident && ws[p + 1].kind == Colon then
      var (v, q) :- ParseExpr(ws, p + 2);
      Parsed(Arg(Some(ws[p].text), v), q)
    else
      var (v, q) :- ParseExpr(ws, p);
      Parsed(Arg(None, v), q)
  }

  function ParsePrimary(ws: seq<Word>, p: nat): (r: Parsed<Expr>)
    requires Ended(ws) && p < |ws|
    ensures Steps(ws, p, r)
    decreases |ws| - p, 2
  {
    var w := ws[p];
    if IsLiteral(w.kind) then Parsed(Literal(w.kind, w.text), p + 1)
    else if w.kind == KwSelf || w.kind == KwSuper then Parsed(Expr.Ident(w.text, []), p + 1)
    else if w.kind.Ident? then ParseNamed(ws, p)
    else if w.kind.LParen? then ParseParenthesized(ws, p + 1)
    else if w.kind.LBracket? then ParseArray(ws, p + 1)
    else if w.kind.KwIf? then ParseIfExpr(ws, p + 1)
    else if w.kind.LBrace? then Bad(OutsideModel, p)
    else Bad(Unexpected, p)
  }

  /** The rest of a path a::b::c whose parts so far are given. */
  function PathLoop(ws: seq<Word>, path: seq<string>, p: nat): (r: (seq<string>, nat))
    requires Ended(ws) && p < |ws| && |path| > 0
    ensures |r.0| > 0 && p <= r.1 < |ws| && Clean(ws, p, r.1)
    decreases |ws| - p
  {
    if ws[p].kind == DColon && PeekWord(ws, p + 1).kind == Kind.Ident then
      PathLoop(ws, path + [ws[p + 1].text], p + 2)
    else (path, p)
  }

  /** An opening brace followed by a closing one or by a field name and a colon. */
  predicate OpensStructLit(ws: seq<Word>, q: nat)
    requires Ended(ws) && q < |ws|
  {
    var p1, p2 := PeekWord(ws, q + 1).kind, PeekWord(ws, q + 2).kind;
    ws[q].kind == LBrace && (p1 == RBrace || (p1 == Kind.Ident && p2 == Colon))
  }

  function ParseNamed(ws: seq<Word>, p: nat): (r: Parsed<Expr>)
    requires Ended(ws) && p < |ws| && ws[p].kind == Kind.Ident
    ensures Steps(ws, p, r)
    decreases |ws| - p, 1
  {
    var (path, q) := PathLoop(ws, [ws[p].text], p + 1);
    var name, prefix := path[|path| - 1], path[..|path| - 1];
    if OpensStructLit(ws, q) then
      ParseStructLit(ws, name, prefix, q + 1)
    else Parsed(Expr.Ident(name, prefix), q)
  }

  /** The fields of a structure literal; the opening brace stands just before p. */
  function ParseStructLit(ws: seq<Word>, name: string, prefix: seq<string>, p: nat): (r: Parsed<Expr>)
    requires Ended(ws) && p < |ws|
    ensures Steps(ws, p, r)
    decreases |ws| - p, 8
  {
    var (fields, q) :- FieldLoop(ws, [], p);
    var (_, q1) :- Expect(ws, q, RBrace);
    Parsed(StructLit(name, prefix, fields), q1)
  }

  function FieldLoop(ws: seq<Word>, fields: seq<FieldInit>, p: nat): (r: Parsed<seq<FieldInit>>)
    requires Ended(ws) && p < |ws|
    ensures Stays(ws, p, r)
    decreases |ws| - p, 7
  {
    if ws[p].kind == RBrace || ws[p].kind == Eof then Parsed(fields, p)
    else
      var (field, q) :- ParseFieldInit(ws, p);
      FieldLoop(ws, fields + [field], q)
  }

  /** One field with its value, and the comma after it if there is one. */
  function ParseFieldInit(ws: seq<Word>, p: nat): (r: Parsed<FieldInit>)
    requires Ended(ws) && p < |ws|
    ensures Steps(ws, p, r)
    decreases |ws| - p, 6
  {
    var (name, q1) :- Expect(ws, p, Kind.Ident);
    var (_, q2) :- Expect(ws, q1, Colon);
    var (v, q3) :- ParseExpr(ws, q2);
    Parsed(FieldInit(name, v), if ws[q3].kind == Comma then q3 + 1 else q3)
  }

  /** A tuple or a parenthesized expression; the opening parenthesis stands just before p. */
  function ParseParenthesized(ws: seq<Word>, p: nat): (r: Parsed<Expr>)
    requires Ended(ws) && p < |ws|
    ensures Steps(ws, p, r)
    decreases |ws| - p, 8
  {
    if ws[p].kind == RParen then Parsed(TupleLit([]), p + 1)
    else
      var (first, q) :- ParseExpr(ws, p);
      if ws[q].kind == Comma then
        ParseTuple(ws, first, q + 1)
      else
        var (_, q2) :- Expect(ws, q, RParen);
        Parsed(first, q2)
  }

  /** The rest of a tuple behind its first comma, and the closing parenthesis. */
  function ParseTuple(ws: seq<Word>, first: Expr, p: nat): (r: Parsed<Expr>)
    requires Ended(ws) && p < |ws|
    ensures Steps(ws, p, r)
    decreases |ws| - p, 8
  {
    var (elements, q1) :- TupleLoop(ws, [first], p);
    var (_, q2) :- Expect(ws, q1, RParen);
    Parsed(TupleLit(elements), q2)
  }

  function TupleLoop(ws: seq<Word>, elements: seq<Expr>, p: nat): (r: Parsed<seq<Expr>>)
    requires Ended(ws) && p < |ws|
    ensures Stays(ws, p, r)
    decreases |ws| - p, 7
  {
    if ws[p].kind == RParen || ws[p].kind == Eof then Parsed(elements, p)
    else
      var (e, q) :- ParseExpr(ws, p);
      if ws[q].kind == Comma then TupleLoop(ws, elements + [e], q + 1) else Parsed(elements + [e], q)
  }

  /** An array literal; the opening bracket stands just before p. */
  function ParseArray(ws: seq<Word>, p: nat): (r: Parsed<Expr>)
    requires Ended(ws) && p < |ws|
    ensures Steps(ws, p, r)
    decreases |ws| - p, 8
  {
    if ws[p].kind == RBracket then Parsed(ArrayLit([]), p + 1)
    else
      var (first, q) :- ParseExpr(ws, p);
      if ws[q].kind == Semicolon then ParseRepeat(ws, first, q + 1)
      else ParseElements(ws, first, q)
  }

  /** The elements of an array behind its first, and the closing bracket. */
  function ParseElements(ws: seq<Word>, first: Expr, p: nat): (r: Parsed<Expr>)
    requires Ended(ws) && p < |ws|
    ensures Steps(ws, p, r)
    decreases |ws| - p, 8
  {
    var (elements, q1) :- ElementLoop(ws, [first], p);
    var (_, q2) :- Expect(ws, q1, RBracket);
    Parsed(ArrayLit(elements), q2)
  }

  /** The count of a repeated element, after the semicolon; only a decimal literal repeats it. */
  function ParseRepeat(ws: seq<Word>, first: Expr, p: nat): (r: Parsed<Expr>)
    requires Ended(ws) && p < |ws|
    ensures Steps(ws, p, r)
    decreases |ws| - p, 7
  {
    var (count, q1) :- ParseExpr(ws, p);
    var (_, q2) :- Expect(ws, q1, RBracket);
    if count.Literal? && count.kind == IntLit then
      match DecimalValue(count.text)
      case None => Bad(BadInteger, q1)
      case Some(n) => Parsed(ArrayLit(Copies(first, n)), q2)
    else Parsed(ArrayLit([first]), q2)
  }

  function ElementLoop(ws: seq<Word>, elements: seq<Expr>, p: nat): (r: Parsed<seq<Expr>>)
    requires Ended(ws) && p < |ws|
    ensures Stays(ws, p, r)
    decreases |ws| - p, 7
  {
    if ws[p].kind != Comma then Parsed(elements, p)
    else if ws[p + 1].kind == RBracket then Parsed(elements, p + 1)
    else
      var (e, q) :- ParseExpr(ws, p + 1);
      ElementLoop(ws, elements + [e], q)
  }

  /** A conditional expression; the keyword stands just before p. */
  function ParseIfExpr(ws: seq<Word>, p: nat): (r: Parsed<Expr>)
    requires Ended(ws) && p < |ws|
    ensures Steps(ws, p, r)
    decreases |ws| - p, 7
  {
    var (c, q1) :- ParseExpr(ws, p);
    var (_, q2) :- Expect(ws, q1, LBrace);
    var (t, q3) :- ParseExpr(ws, q2);
    var (_, q4) :- Expect(ws, q3, RBrace);
    var (_, q5) :- Expect(ws, q4, KwElse);
    var (e, q6) :- ParseElse(ws, q5);
    Parsed(IfExpr(c, t, e), q6)
  }

  /** What stands behind the else: another condition, or an expression in braces. */
  function ParseElse(ws: seq<Word>, p: nat): (r: Parsed<Expr>)
    requires Ended(ws) && p < |ws|
    ensures Steps(ws, p, r)
    decreases |ws| - p, 7
  {
    if ws[p].kind == KwIf then ParsePrimary(ws, p)
    else
      var (_, q1) :- Expect(ws, p, LBrace);
      var (e, q2) :- ParseExpr(ws, q1);
      var (_, q3) :- Expect(ws, q2, RBrace);
      Parsed(e, q3)
  }

  /** An expression that takes up the whole token list. */
  function ParseWhole(ws: seq<Word>): Parsed<Expr>
    requires Ended(ws)
  {
    var (e, q) :- ParseExpr(ws, 0);
    if ws[q].kind == Eof then Parsed(e, q) else Bad(Unexpected, q)
  }
}
