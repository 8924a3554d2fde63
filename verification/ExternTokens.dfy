/** Rewriting extern declarations in the token stream into ordinary ones. */
module ExternTokens {
  import opened Options

  datatype Token = Token(kind: string, text: string, line: nat, column: nat)

  datatype Fault = NoAbi | UnsupportedAbi | NotAFunction | NoSemicolon | NoClosingBrace

  datatype Result<+T> = Ok(value: T) | Error(fault: Fault, at: Token) {
    predicate IsFailure() {
      Error?
    }

    function PropagateFailure<U>(): Result<U>
      requires Error?
    {
      Error(fault, at)
    }

    function Extract(): T
      requires Ok?
    {
      value
    }
  }

  function Synthetic(kind: string, text: string, anchor: Token): Token {
    Token(kind, text, anchor.line, anchor.column)
  }

  function ValidateAbi(t: Token): Result<()> {
    if |t.text| < 2 || t.text[0] != '\"' || t.text[|t.text| - 1] != '\"' then Error(NoAbi, t)
    else if t.text[1..|t.text| - 1] != "C" then Error(UnsupportedAbi, t)
    else Ok(())
  }

  /** Only the text "C", with its quotes, names an ABI that is accepted; without quotes it names none. */
  lemma AbiIsC(t: Token)
    ensures ValidateAbi(t).Ok? <==> t.text == ['\"', 'C', '\"']
    ensures ValidateAbi(t) == Error(NoAbi, t) <==> !(exists inner :: t.text == ['\"'] + inner + ['\"'])
    ensures ValidateAbi(t).Ok? || ValidateAbi(t) == Error(NoAbi, t) || ValidateAbi(t) == Error(UnsupportedAbi, t)
  {
    if |t.text| >= 2 && t.text[0] == '\"' && t.text[|t.text| - 1] == '\"' {
      assert t.text == ['\"'] + t.text[1..|t.text| - 1] + ['\"'];
      assert t.text[1..|t.text| - 1] == "C" ==> t.text == ['\"', 'C', '\"'];
    }
  }

  // ---- one declaration -------------------------------------------------------

  /** Attributes, pub and unsafe in front of fn, in any order, the last two once each. */
  datatype Modifiers = Modifiers(attrs: seq<Token>, public: Option<Token>, isUnsafe: bool, next: nat)

  function ReadModifiers(ts: seq<Token>, m: Modifiers): (r: Modifiers)
    requires m.next <= |ts|
    ensures m.next <= r.next <= |ts|
    decreases |ts| - m.next
  {
    if m.next == |ts| then m
    else
      var t := ts[m.next];
      if t.kind == "ATTR" then ReadModifiers(ts, m.(attrs := m.attrs + [t], next := m.next + 1))
      else if t.kind == "pub" && m.public.None? then ReadModifiers(ts, m.(public := Some(t), next := m.next + 1))
      else if t.kind == "unsafe" && !m.isUnsafe then ReadModifiers(ts, m.(isUnsafe := true, next := m.next + 1))
      else m
  }

  function Depth(kind: string, open: string, close: string, depth: int): int {
    if kind == open then depth + 1 else if kind == close then depth - 1 else depth
  }

  /** Where the semicolon is that ends the signature. */
  function SignatureEnd(ts: seq<Token>, i: nat, parens: int, brackets: int): (r: Option<nat>)
    ensures r.Some? ==> i <= r.value < |ts| && ts[r.value].kind == ";"
    decreases |ts| - i
  {
    if i >= |ts| || ts[i].kind == "EOF" then None
    else
      var p := Depth(ts[i].kind, "(", ")", parens);
      var b := Depth(ts[i].kind, "[", "]", brackets);
      if ts[i].kind == ";" && p == 0 && b == 0 then Some(i) else SignatureEnd(ts, i + 1, p, b)
  }

  /** The ordinary declaration: metadata in front, the signature as it was, an empty body. */
  function Heading(m: Modifiers, anchor: Token): seq<Token> {
    m.attrs + [Synthetic("ATTR", "@extern(C)", anchor), Synthetic("ATTR", "@export", anchor)]
    + (if m.isUnsafe then [Synthetic("ATTR", "@unsafe", anchor)] else [])
    + (if m.public.Some? then [m.public.value] else [])
  }

  function EmptyBody(semicolon: Token): seq<Token> {
    [Synthetic("{", "{", semicolon), Synthetic("}", "}", semicolon)]
  }

  /** A declaration at i: what replaces it and the index behind it. */
  function Declaration(ts: seq<Token>, i: nat, anchor: Token): (r: Result<(seq<Token>, nat)>)
    requires i <= |ts|
    ensures r.Ok? ==> i < r.value.1 <= |ts|
  {
    var m := ReadModifiers(ts, Modifiers([], None, false, i));
    if m.next == |ts| || ts[m.next].kind != "fn" then Error(NotAFunction, if m.next < |ts| then ts[m.next] else anchor)
    else
      var end := SignatureEnd(ts, m.next, 0, 0);
      if end.None? then Error(NoSemicolon, anchor)
      else Ok((Heading(m, anchor) + ts[m.next..end.value] + EmptyBody(ts[end.value]), end.value + 1))
  }

  /** Declarations up to the closing brace. */
  function Declarations(ts: seq<Token>, i: nat, anchor: Token): (r: Result<(seq<Token>, nat)>)
    requires i <= |ts|
    ensures r.Ok? ==> i <= r.value.1 <= |ts|
    decreases |ts| - i
  {
    if i == |ts| || ts[i].kind == "}" then Ok(([], i))
    else
      var first :- Declaration(ts, i, anchor);
      var rest :- Declarations(ts, first.1, anchor);
      Ok((first.0 + rest.0, rest.1))
  }

  /** What follows the word extern. */
  function External(ts: seq<Token>, i: nat, anchor: Token): (r: Result<(seq<Token>, nat)>)
    requires i <= |ts|
    ensures r.Ok? ==> i < r.value.1 <= |ts|
  {
    if i == |ts| || ts[i].kind != "STRING" then Error(NoAbi, if i < |ts| then ts[i] else anchor)
    else
      var _ :- ValidateAbi(ts[i]);
      if i + 1 < |ts| && ts[i + 1].kind == "{" then
        var inside :- Declarations(ts, i + 2, anchor);
        if inside.1 == |ts| || ts[inside.1].kind != "}" then Error(NoClosingBrace, anchor) else Ok((inside.0, inside.1 + 1))
      else Declaration(ts, i + 1, anchor)
  }

  function Normalized(ts: seq<Token>, i: nat): Result<seq<Token>>
    requires i <= |ts|
    decreases |ts| - i
  {
    if i == |ts| then Ok([])
    else if ts[i].kind != "extern" then
      var rest :- Normalized(ts, i + 1);
      Ok([ts[i]] + rest)
    else
      var first :- External(ts, i + 1, ts[i]);
      var rest :- Normalized(ts, first.1);
      Ok(first.0 + rest)
  }

  // ---- the code --------------------------------------------------------------

  /** The first loop of the copying function. */
  method CollectModifiers(ts: seq<Token>, start: nat) returns (m: Modifiers)
    requires start <= |ts|
    ensures m == ReadModifiers(ts, Modifiers([], None, false, start))
  {
    var index := start;
    var attrs: seq<Token> := [];
    var public: Option<Token> := None;
    var isUnsafe := false;
    while index < |ts|
      invariant start <= index <= |ts|
      invariant ReadModifiers(ts, Modifiers(attrs, public, isUnsafe, index)) == ReadModifiers(ts, Modifiers([], None, false, start))
      decreases |ts| - index
    {
      var token := ts[index];
      if token.kind == "ATTR" {
        attrs := attrs + [token];
        index := index + 1;
        continue;
      }
      if token.kind == "pub" && public.None? {
        public := Some(token);
        index := index + 1;
        continue;
      }
      if token.kind == "unsafe" && !isUnsafe {
        isUnsafe := true;
        index := index + 1;
        continue;
      }
      return Modifiers(attrs, public, isUnsafe, index);
    }
    return Modifiers(attrs, public, isUnsafe, index);
  }

  method CopyExternDecl(ts: seq<Token>, start: nat, anchor: Token) returns (r: Result<(seq<Token>, nat)>)
    requires start <= |ts|
    ensures r == Declaration(ts, start, anchor)
  {
    hide Heading, ReadModifiers;
    var m := CollectModifiers(ts, start);
    var index := m.next;
    if index >= |ts| || ts[index].kind != "fn" {
      return Error(NotAFunction, if index < |ts| then ts[index] else anchor);
    }
    var output := BuildHeading(m.attrs, m.public, m.isUnsafe, anchor, m);
    ghost var heading := output;
    var first := index;
    var parens, brackets := 0, 0;
    while index < |ts|
      invariant first <= index <= |ts|
      invariant SignatureEnd(ts, index, parens, brackets) == SignatureEnd(ts, first, 0, 0)
      invariant output == heading + ts[first..index]
      decreases |ts| - index
    {
      var token := ts[index];
      if token.kind == "EOF" {
        break;
      }
      parens := Depth(token.kind, "(", ")", parens);
      brackets := Depth(token.kind, "[", "]", brackets);
      if token.kind == ";" && parens == 0 && brackets == 0 {
        output := output + EmptyBody(token);
        return Ok((output, index + 1));
      }
      assert ts[first..index] + [token] == ts[first..index + 1];
      output := output + [token];
      index := index + 1;
    }
    return Error(NoSemicolon, anchor);
  }

  method BuildHeading(attrs: seq<Token>, public: Option<Token>, isUnsafe: bool, anchor: Token, ghost m: Modifiers)
      returns (output: seq<Token>)
    requires m.attrs == attrs && m.public == public && m.isUnsafe == isUnsafe
    ensures output == Heading(m, anchor)
  {
    output := attrs + [Synthetic("ATTR", "@extern(C)", anchor), Synthetic("ATTR", "@export", anchor)];
    if isUnsafe {
      output := output + [Synthetic("ATTR", "@unsafe", anchor)];
    }
    if public.Some? {
      output := output + [public.value];
    }
  }

  function Prepend(out: seq<Token>, r: Result<seq<Token>>): Result<seq<Token>> {
    if r.Ok? then Ok(out + r.value) else r
  }

  function PrependPair(out: seq<Token>, r: Result<(seq<Token>, nat)>): Result<(seq<Token>, nat)> {
    if r.Ok? then Ok((out + r.value.0, r.value.1)) else r
  }

  lemma PrependTwice(a: seq<Token>, b: seq<Token>, r: Result<seq<Token>>)
    ensures Prepend([], r) == r && Prepend(a, Prepend(b, r)) == Prepend(a + b, r)
  {
    if r.Ok? {
      assert [] + r.value == r.value && a + (b + r.value) == (a + b) + r.value;
    }
  }

  lemma PrependPairTwice(a: seq<Token>, b: seq<Token>, r: Result<(seq<Token>, nat)>)
    ensures PrependPair([], r) == r && PrependPair(a, PrependPair(b, r)) == PrependPair(a + b, r)
  {
    if r.Ok? {
      assert [] + r.value.0 == r.value.0 && a + (b + r.value.0) == (a + b) + r.value.0;
    }
  }

  /** The part of the loop that handles what follows the word extern. */
  method ReadExternal(ts: seq<Token>, start: nat, anchor: Token) returns (r: Result<(seq<Token>, nat)>)
    requires start <= |ts|
    ensures r == External(ts, start, anchor)
  {
    hide Declaration, ValidateAbi, PrependPair;
    var index := start;
    if index >= |ts| || ts[index].kind != "STRING" {
      return Error(NoAbi, if index < |ts| then ts[index] else anchor);
    }
    var abi := ValidateAbi(ts[index]);
    if abi.Error? {
      return Error(abi.fault, abi.at);
    }
    index := index + 1;
    if index < |ts| && ts[index].kind == "{" {
      index := index + 1;
      ghost var all := Declarations(ts, index, anchor);
      var output: seq<Token> := [];
      PrependPairTwice([], [], all);
      while index < |ts| && ts[index].kind != "}"
        invariant start < index <= |ts|
        invariant PrependPair(output, Declarations(ts, index, anchor)) == all
        decreases |ts| - index
      {
        DeclarationsStep(ts, index, anchor);
        var decl := CopyExternDecl(ts, index, anchor);
        if decl.Error? {
          PrependPairError(output, Declarations(ts, index, anchor));
          return Error(decl.fault, decl.at);
        }
        PrependPairTwice(output, decl.value.0, Declarations(ts, decl.value.1, anchor));
        output := output + decl.value.0;
        index := decl.value.1;
      }
      PrependPairNothing(output, index);
      if index >= |ts| || ts[index].kind != "}" {
        return Error(NoClosingBrace, anchor);
      }
      return Ok((output, index + 1));
    }
    r := CopyExternDecl(ts, index, anchor);
  }

  lemma DeclarationsStep(ts: seq<Token>, i: nat, anchor: Token)
    requires i < |ts| && ts[i].kind != "}"
    ensures var first := Declaration(ts, i, anchor);
            Declarations(ts, i, anchor) ==
              if first.Error? then Error(first.fault, first.at)
              else PrependPair(first.value.0, Declarations(ts, first.value.1, anchor))
  {
    hide Declaration;
  }

  lemma PrependPairError(out: seq<Token>, r: Result<(seq<Token>, nat)>)
    requires r.Error?
    ensures PrependPair(out, r) == r
  {}

  lemma PrependPairNothing(out: seq<Token>, i: nat)
    ensures PrependPair(out, Ok(([], i))) == Ok((out, i))
  {
    assert out + [] == out;
  }

  lemma NormalizedStep(ts: seq<Token>, i: nat)
    requires i < |ts|
    ensures Normalized(ts, i) ==
      if ts[i].kind != "extern" then Prepend([ts[i]], Normalized(ts, i + 1))
      else
        var first := External(ts, i + 1, ts[i]);
        if first.Error? then Error(first.fault, first.at) else Prepend(first.value.0, Normalized(ts, first.value.1))
  {
    hide External;
  }

  lemma PrependDone(out: seq<Token>)
    ensures Prepend(out, Ok([])) == Ok(out)
    ensures forall fault, at :: Prepend(out, Error(fault, at)) == Error(fault, at)
  {
    assert out + [] == out;
  }

  method NormalizeExternTokens(ts: seq<Token>) returns (r: Result<seq<Token>>)
    ensures r == Normalized(ts, 0)
  {
    hide External, Prepend;
    var output: seq<Token> := [];
    var index := 0;
    ghost var whole := Normalized(ts, 0);
    PrependTwice([], [], whole);
    while index < |ts|
      invariant 0 <= index <= |ts|
      invariant Prepend(output, Normalized(ts, index)) == whole
      decreases |ts| - index
    {
      NormalizedStep(ts, index);
      PrependDone(output);
      var token := ts[index];
      if token.kind != "extern" {
        PrependTwice(output, [token], Normalized(ts, index + 1));
        output := output + [token];
        index := index + 1;
        continue;
      }
      var normalized := ReadExternal(ts, index + 1, token);
      if normalized.Error? {
        return Error(normalized.fault, normalized.at);
      }
      PrependTwice(output, normalized.value.0, Normalized(ts, normalized.value.1));
      output := output + normalized.value.0;
      index := normalized.value.1;
    }
    PrependDone(output);
    return Ok(output);
  }
}
