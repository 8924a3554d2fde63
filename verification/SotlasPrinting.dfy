/** The C printer for expressions, and the tokens a printed expression consists of. */
module SotlasPrinting {
  import opened Options
  import opened SotlasTokens
  import opened SotlasLexing
  import opened SotlasLexStability
  import opened SotlasParsing

  /** Binary operators that C spells too. */
  predicate IsCBinaryOp(k: Kind) {
    IsBinaryOp(k) && !k.NilCoal?
  }

  predicate IsCUnaryOp(k: Kind) {
    IsUnaryOp(k) && !k.KwAwait?
  }

  function BinarySpelling(k: Kind): string {
    if IsCBinaryOp(k) then Spelling(k) else if k.NilCoal? then "/* ?? */" else "?"
  }

  function UnarySpelling(k: Kind): string {
    if IsCUnaryOp(k) then Spelling(k) else ""
  }

  function PrintLiteral(k: Kind, text: string): string {
    if k.KwTrue? then "1"
    else if k.KwFalse? then "0"
    else if k.KwNil? then "((void*)0)"
    else if k.StrLit? then "\"" + text + "\""
    else if k.CharLit? then "'" + text + "'"
    else text
  }

  function JoinPath(path: seq<string>, name: string): string {
    if path == [] then name else path[0] + "__" + JoinPath(path[1..], name)
  }

  function PrintNat(n: nat): string {
    if n < 10 then [('0' as int + n) as char] else PrintNat(n / 10) + [('0' as int + n % 10) as char]
  }

  /** The type of a slice of the array or pointer _b. */
  const VIEW := "struct { __typeof__(*_b) *data; size_t len; }"

  /** The C text of an expression: every unary and binary operation in its own parentheses. */
  function Print(e: Expr): string {
    match e
    case Literal(k, text) => PrintLiteral(k, text)
    case Ident(name, path) => JoinPath(path, name)
    case Binary(op, l, r) => "(" + ((Print(l) + (" " + (BinarySpelling(op) + (" " + Print(r))))) + ")")
    case Unary(op, x) =>
      if op.KwAwait? then "/* await */ " + Print(x) else "(" + ((UnarySpelling(op) + Print(x)) + ")")
    case Call(callee, args) => Print(callee) + ("(" + (PrintArgs(args) + ")"))
    case Index(base, index) => Print(base) + ("[" + (Print(index) + "]"))
    case Field(base, field) => Print(base) + ("." + field)
    case BitSlice(base, lo, hi) =>
      "(((" + Print(base) + ") >> (" + Print(lo) + ")) & ((1ULL << ((" + Print(hi) + ")-(" + Print(lo) + ")+1)) - 1))"
    case BitNotch(base, bit) => "(((" + Print(base) + ") >> (" + Print(bit) + ")) & 1ULL)"
    case BitStrand(base) => "__builtin_bswap64(" + Print(base) + ")"
    case TupleIndex(base, n) => Print(base) + "._" + PrintNat(n)
    case Slice(base, from, to) =>
      var b := Print(base);
      var lo := if from.None? then "0" else Print(from.value);
      var hi := if to.None? then "(sizeof(" + b + ")/sizeof(*(" + b + ")))" else Print(to.value);
      "({ __typeof__(" + b + ") _b = (" + b + "); " + VIEW + " _s = { .data = _b + ("
      + lo + "), .len = (size_t)((" + hi + ") - (" + lo + ")) }; _s; })"
    case OptionalChain(_) => "/* unknown_expr */"
    case ForceUnwrap(x) => Print(x)
    case StructLit(name, _, fields) => "(" + name + "){ " + PrintFields(fields) + " }"
    case TupleLit(elements) => if elements == [] then "0" else "{ " + PrintTuple(elements, 0) + " }"
    case ArrayLit(elements) => "{" + PrintElements(elements) + "}"
    case IfExpr(c, t, f) => "((" + Print(c) + ") ? (" + Print(t) + ") : (" + Print(f) + "))"
  }

  function PrintArgs(args: seq<Arg>): string {
    if args == [] then ""
    else
      assert args decreases to args[0];
      Print(args[0].value) + PrintMoreArgs(args[1..])
  }

  function PrintMoreArgs(args: seq<Arg>): string {
    if args == [] then ""
    else
      assert args decreases to args[0];
      "," + (" " + (Print(args[0].value) + PrintMoreArgs(args[1..])))
  }

  function PrintFields(fields: seq<FieldInit>): string {
    if fields == [] then ""
    else
      "." + fields[0].name + " = " + Print(fields[0].value)
      + (if |fields| == 1 then "" else ", " + PrintFields(fields[1..]))
  }

  function PrintTuple(elements: seq<Expr>, i: nat): string {
    if elements == [] then ""
    else
      "._" + PrintNat(i) + " = " + Print(elements[0])
      + (if |elements| == 1 then "" else ", " + PrintTuple(elements[1..], i + 1))
  }

  function PrintElements(elements: seq<Expr>): string {
    if elements == [] then ""
    else if |elements| == 1 then Print(elements[0])
    else Print(elements[0]) + ", " + PrintElements(elements[1..])
  }

  // ---- the part of the language the emitted C shares with Sotlas -----------

  predicate IsPlainName(kw: Keywords, t: string) {
    IsIdentText(t) && t !in kw
  }

  /** Path-free identifiers, integer literals, C operators, index, field and unlabelled call. */
  predicate IsShared(kw: Keywords, e: Expr) {
    match e
    case Literal(k, text) => k == IntLit && IsIntText(text)
    case Ident(name, path) => path == [] && IsPlainName(kw, name)
    case Binary(op, l, r) => IsCBinaryOp(op) && IsShared(kw, l) && IsShared(kw, r)
    case Unary(op, x) => IsCUnaryOp(op) && IsShared(kw, x)
    case Call(callee, args) => IsShared(kw, callee) && AreShared(kw, args)
    case Index(base, index) => IsShared(kw, base) && IsShared(kw, index)
    case Field(base, field) => IsShared(kw, base) && IsPlainName(kw, field)
    case _ => false
  }

  predicate AreShared(kw: Keywords, args: seq<Arg>) {
    args == [] || (assert args decreases to args[0]; args[0].tag.None? && IsShared(kw, args[0].value) && AreShared(kw, args[1..]))
  }

  function OpWord(k: Kind): Word
    requires k.IsOperator()
  {
    Word(k, Spelling(k))
  }

  /** The tokens of the printed text. */
  function Tokens(e: Expr): (ws: seq<Word>)
  {
    match e
    case Literal(k, text) => [Word(k, text)]
    case Ident(name, _) => [Word(Kind.Ident, name)]
    case Binary(op, l, r) =>
      [OpWord(LParen)] + ((Tokens(l) + ([Word(op, BinarySpelling(op))] + Tokens(r))) + [OpWord(RParen)])
    case Unary(op, x) => [OpWord(LParen)] + (([Word(op, UnarySpelling(op))] + Tokens(x)) + [OpWord(RParen)])
    case Call(callee, args) => Tokens(callee) + ([OpWord(LParen)] + (ArgTokens(args) + [OpWord(RParen)]))
    case Index(base, index) => Tokens(base) + ([OpWord(LBracket)] + (Tokens(index) + [OpWord(RBracket)]))
    case Field(base, field) => Tokens(base) + ([OpWord(Dot)] + [Word(Kind.Ident, field)])
    case _ => []
  }

  function ArgTokens(args: seq<Arg>): seq<Word> {
    if args == [] then []
    else
      assert args decreases to args[0];
      Tokens(args[0].value) + MoreArgTokens(args[1..])
  }

  function MoreArgTokens(args: seq<Arg>): seq<Word> {
    if args == [] then []
    else
      assert args decreases to args[0];
      [OpWord(Comma)] + (Tokens(args[0].value) + MoreArgTokens(args[1..]))
  }

  // ---- the printed text lexes to those tokens -----------------------------

  /** What may follow a printed expression. */
  predicate MayFollow(tail: string) {
    || tail == ""
    || tail[0] == ' ' || tail[0] == ')' || tail[0] == ']' || tail[0] == '[' || tail[0] == '(' || tail[0] == ','
    || (tail[0] == '.' && |tail| > 1 && IsIdentStart(tail[1]))
  }

  function Prefixed(ws: seq<Word>, rest: Option<seq<Word>>): Option<seq<Word>> {
    match rest
    case None => None
    case Some(more) => Some(ws + more)
  }

  lemma PrefixedJoin(a: seq<Word>, b: seq<Word>, rest: Option<seq<Word>>)
    ensures Prefixed(a, Prefixed(b, rest)) == Prefixed(a + b, rest)
  {
    if rest.Some? { assert a + (b + rest.value) == (a + b) + rest.value; }
  }

  /** The text at offset i lexes to ws, and the lexer then stands at the tail. */
  ghost predicate LexesTo(src: string, kw: Keywords, i: nat, text: string, ws: seq<Word>, tail: string) {
    && i + |text| <= |src| && src[i + |text|..] == tail
    && LexWords(src, kw, i) == Prefixed(ws, LexWords(src, kw, i + |text|))
  }

  lemma LexWord(src: string, kw: Keywords, i: nat, w: Word, tail: string)
    requires i <= |src| && src[i..] == w.text + tail && IsPlain(kw, w) && Stops(tail, 0, w.kind)
    ensures LexesTo(src, kw, i, w.text, [w], tail)
  {
    hide IsPlain, Stops, LexWords;
    PlainThen(src, kw, i, w, tail);
  }

  lemma LexThen(src: string, kw: Keywords, i: nat, a: string, x: seq<Word>, b: string, y: seq<Word>, tail: string)
    requires LexesTo(src, kw, i, a, x, b + tail)
    requires LexesTo(src, kw, i + |a|, b, y, tail)
    ensures LexesTo(src, kw, i, a + b, x + y, tail)
  {
    hide LexWords, Prefixed;
    PrefixedJoin(x, y, LexWords(src, kw, i + |a| + |b|));
    assert i + |a| + |b| == i + |a + b|;
  }

  lemma LexBefore(src: string, kw: Keywords, i: nat, w: Word, b: string, y: seq<Word>, tail: string)
    requires i <= |src| && src[i..] == w.text + (b + tail) && IsPlain(kw, w) && Stops(b + tail, 0, w.kind)
    requires LexesTo(src, kw, i + |w.text|, b, y, tail)
    ensures LexesTo(src, kw, i, w.text + b, [w] + y, tail)
  {
    hide IsPlain, Stops, LexesTo;
    LexWord(src, kw, i, w, b + tail);
    LexThen(src, kw, i, w.text, [w], b, y, tail);
  }

  lemma LexAfter(src: string, kw: Keywords, i: nat, a: string, x: seq<Word>, w: Word, tail: string)
    requires LexesTo(src, kw, i, a, x, w.text + tail) && IsPlain(kw, w) && Stops(tail, 0, w.kind)
    ensures LexesTo(src, kw, i, a + w.text, x + [w], tail)
  {
    hide IsPlain, Stops, LexWords;
    LexWord(src, kw, i + |a|, w, tail);
    LexThen(src, kw, i, a, x, w.text, [w], tail);
  }

  lemma Assoc(a: string, b: string, c: string)
    ensures (a + b) + c == a + (b + c)
  {}

  /** The rest of the source after a prefix of what is left. */
  lemma Rest(src: string, i: nat, a: string, b: string)
    requires i <= |src| && src[i..] == a + b
    ensures i + |a| <= |src| && src[i + |a|..] == b
  {
    assert src[i + |a|..] == src[i..][|a|..];
  }

  lemma BlankAt(src: string, i: nat, b: string)
    requires i <= |src| && src[i..] == " " + b
    ensures i < |src| && src[i] == ' ' && src[i + 1..] == b
  {
    Rest(src, i, " ", b);
    assert src[i] == src[i..][0];
  }

  lemma LexBlank(src: string, kw: Keywords, i: nat, b: string, y: seq<Word>, tail: string)
    requires i <= |src| && src[i..] == " " + (b + tail) && LexesTo(src, kw, i + 1, b, y, tail)
    ensures LexesTo(src, kw, i, " " + b, y, tail)
  {
    hide LexWords, Prefixed;
    BlankAt(src, i, b + tail);
    LexSpace(src, kw, i);
    var text := " " + b;
    assert i + 1 + |b| == i + |text|;
  }
}
