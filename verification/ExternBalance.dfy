/** Brackets in the rewritten stream, and where the word extern is left. */
module ExternBalance {
  import opened Options
  import opened ExternTokens
  import opened ExternForms
  import opened ExternOutput

  // ---- brackets ------------------------------------------------------------------------

  /** One token, with the closing brackets that are still expected, innermost first. */
  function Bracket(kind: string, stack: seq<string>): Option<seq<string>> {
    if kind == "(" then Some([")"] + stack)
    else if kind == "[" then Some(["]"] + stack)
    else if kind == "{" then Some(["}"] + stack)
    else if kind == ")" || kind == "]" || kind == "}" then
      if stack != [] && stack[0] == kind then Some(stack[1..]) else None
    else Some(stack)
  }

  function Brackets(ts: seq<Token>, stack: seq<string>): Option<seq<string>> {
    if ts == [] then Some(stack)
    else
      var next := Bracket(ts[0].kind, stack);
      if next.None? then None else Brackets(ts[1..], next.value)
  }

  /** Every bracket of any kind is closed by its own kind, in the right order. */
  predicate Balanced(ts: seq<Token>) {
    Brackets(ts, []) == Some([])
  }

  lemma {:induction false} BracketsAppend(a: seq<Token>, b: seq<Token>, stack: seq<string>)
    ensures var first := Brackets(a, stack);
            Brackets(a + b, stack) == if first.None? then None else Brackets(b, first.value)
    decreases |a|
  {
    if a == [] {
      assert a + b == b;
    } else {
      assert (a + b)[1..] == a[1..] + b && (a + b)[0] == a[0];
      var next := Bracket(a[0].kind, stack);
      if next.Some? {
        BracketsAppend(a[1..], b, next.value);
      }
    }
  }

  const BRACKETS := {"(", ")", "[", "]", "{", "}"}

  lemma {:induction false} NoBrackets(ts: seq<Token>, stack: seq<string>)
    requires forall t <- ts :: t.kind !in BRACKETS
    ensures Brackets(ts, stack) == Some(stack)
    decreases |ts|
  {
    if ts != [] {
      assert ts[0] in ts && forall t <- ts[1..] :: t in ts;
      NoBrackets(ts[1..], stack);
    }
  }

  /** What closes what it opens does so on top of anything. */
  lemma {:induction false} BracketsOnTop(ts: seq<Token>, stack: seq<string>, below: seq<string>)
    requires Brackets(ts, stack).Some?
    ensures Brackets(ts, stack + below) == Some(Brackets(ts, stack).value + below)
    decreases |ts|
  {
    if ts != [] {
      var kind := ts[0].kind;
      var next := Bracket(kind, stack).value;
      if stack != [] {
        assert (stack + below)[0] == stack[0] && (stack + below)[1..] == stack[1..] + below;
      }
      assert [")"] + (stack + below) == ([")"] + stack) + below;
      assert ["]"] + (stack + below) == (["]"] + stack) + below;
      assert ["}"] + (stack + below) == (["}"] + stack) + below;
      assert Bracket(kind, stack + below) == Some(next + below);
      BracketsOnTop(ts[1..], next, below);
    }
  }

  // ---- declarations, groups, streams --------------------------------------------------------

  lemma {:induction false} KindsOf(ts: seq<Token>, kind: string)
    ensures forall t <- OfKind(ts, kind) :: t.kind == kind
    decreases |ts|
  {
    if ts != [] {
      KindsOf(ts[1..], kind);
    }
  }

  lemma MetadataHasNoBrackets(ms: seq<Token>, anchor: Token)
    ensures forall t <- Metadata(ms, anchor) :: t.kind == "ATTR" || t.kind == "pub"
  {
    KindsOf(ms, "ATTR");
    KindsOf(ms, "pub");
  }

  /** A declaration has the effect on brackets that it had. */
  lemma DeclarationBrackets(d: seq<Token>, anchor: Token, stack: seq<string>)
    requires IsDecl(d)
    ensures Brackets(Out(d, anchor), stack) == Brackets(d, stack)
  {
    hide IsDecl, Out, Brackets, IsSignature, Metadata, EmptyBody;
    DeclarationGrammar(d);
    var k: nat :| IsDeclarationAt(d, k);
    OutIs(d, k, anchor);
    MetadataHasNoBrackets(d[..k], anchor);
    SurroundedBrackets(d[..k], d[k..|d| - 1], [d[|d| - 1]], stack);
    assert d == d[..k] + d[k..|d| - 1] + [d[|d| - 1]];
    EmptyBodyBrackets(Metadata(d[..k], anchor), d[k..|d| - 1], d[|d| - 1], stack);
  }

  lemma SurroundedBrackets(a: seq<Token>, b: seq<Token>, c: seq<Token>, stack: seq<string>)
    requires (forall t <- a :: t.kind !in BRACKETS) && forall t <- c :: t.kind !in BRACKETS
    ensures Brackets(a + b + c, stack) == Brackets(b, stack)
  {
    NoBrackets(a, stack);
    BracketsAppend(a, b, stack);
    BracketsAppend(a + b, c, stack);
    if Brackets(b, stack).Some? {
      NoBrackets(c, Brackets(b, stack).value);
    }
  }

  lemma EmptyBodyBrackets(a: seq<Token>, b: seq<Token>, semicolon: Token, stack: seq<string>)
    requires forall t <- a :: t.kind !in BRACKETS
    ensures Brackets(a + b + EmptyBody(semicolon), stack) == Brackets(b, stack)
  {
    NoBrackets(a, stack);
    BracketsAppend(a, b, stack);
    BracketsAppend(a + b, EmptyBody(semicolon), stack);
    if Brackets(b, stack).Some? {
      BodyCloses(semicolon, Brackets(b, stack).value);
    }
  }

  lemma BodyCloses(semicolon: Token, stack: seq<string>)
    ensures Brackets(EmptyBody(semicolon), stack) == Some(stack)
  {
    var body := EmptyBody(semicolon);
    var inner := ["}"] + stack;
    assert inner[1..] == stack && inner[0] == "}" && body[1..] == [body[1]] && body[1..][1..] == [];
    assert Brackets([body[1]], inner) == Brackets([body[1]][1..], stack);
  }

  lemma {:induction false} DeclarationsBrackets(ds: seq<seq<Token>>, anchor: Token, stack: seq<string>)
    requires forall d <- ds :: IsDecl(d)
    ensures Brackets(OutAll(ds, anchor), stack) == Brackets(Flat(ds), stack)
    decreases |ds|
  {
    hide IsDecl, Out, Brackets;
    if ds != [] {
      assert ds[0] in ds && forall d <- ds[1..] :: d in ds;
      DeclarationBrackets(ds[0], anchor, stack);
      BracketsAppend(Out(ds[0], anchor), OutAll(ds[1..], anchor), stack);
      BracketsAppend(ds[0], Flat(ds[1..]), stack);
      var after := Brackets(ds[0], stack);
      if after.Some? {
        DeclarationsBrackets(ds[1..], anchor, after.value);
      }
    }
  }

  /** The declarations of a group, its braces taken away, are balanced together. */
  predicate IsTight(x: Item) {
    x.Group? ==> Balanced(Flat(x.decls))
  }

  lemma ItemBrackets(x: Item, stack: seq<string>)
    requires IsWellFormed(x) && IsTight(x)
    ensures Brackets(ItemOut(x), stack) == Brackets(ItemTokens(x), stack)
  {
    hide IsDecl, Out, Brackets, ValidateAbi;
    if x.Single? {
      DeclarationBrackets(x.decl, x.anchor, stack);
      NoBrackets([x.anchor, x.abi], stack);
      BracketsAppend([x.anchor, x.abi], x.decl, stack);
    } else if x.Group? {
      DeclarationsBrackets(x.decls, x.anchor, stack);
      GroupBrackets(x, stack);
    }
  }

  lemma GroupBrackets(x: Item, stack: seq<string>)
    requires x.Group? && IsWellFormed(x) && Balanced(Flat(x.decls))
    ensures Brackets(Flat(x.decls), stack) == Some(stack) == Brackets(ItemTokens(x), stack)
  {
    hide IsDecl, Brackets, ValidateAbi;
    var inside := Flat(x.decls);
    var inner := ["}"] + stack;
    assert [] + stack == stack && [] + inner == inner;
    BracketsOnTop(inside, [], stack);
    BracketsOnTop(inside, [], inner);
    NoBrackets([x.anchor, x.abi], stack);
    assert ItemTokens(x) == [x.anchor, x.abi] + ([x.open] + (inside + [x.close]));
    BracketsAppend([x.anchor, x.abi], [x.open] + (inside + [x.close]), stack);
    BracketsAppend([x.open], inside + [x.close], stack);
    BracketsAppend(inside, [x.close], inner);
    BraceBrackets(x.open, x.close, stack);
  }

  lemma BraceBrackets(open: Token, close: Token, stack: seq<string>)
    requires open.kind == "{" && close.kind == "}"
    ensures Brackets([open], stack) == Some(["}"] + stack) && Brackets([close], ["}"] + stack) == Some(stack)
  {
    var inner := ["}"] + stack;
    assert [open][1..] == [] && [close][1..] == [] && inner[1..] == stack;
    assert Brackets([open], stack) == Brackets([open][1..], inner);
    assert Brackets([close], inner) == Brackets([close][1..], stack);
  }

  lemma {:induction false} StreamBrackets(items: seq<Item>, stack: seq<string>)
    requires forall x <- items :: IsWellFormed(x) && IsTight(x)
    ensures Brackets(OutItems(items), stack) == Brackets(Tokens(items), stack)
    decreases |items|
  {
    hide IsWellFormed, ItemOut, ItemTokens, Brackets, IsTight;
    if items != [] {
      var x, rest := items[0], items[1..];
      assert x in items && forall y <- rest :: y in items;
      ItemBrackets(x, stack);
      BracketsAppend(ItemOut(x), OutItems(rest), stack);
      BracketsAppend(ItemTokens(x), Tokens(rest), stack);
      var after := Brackets(ItemTokens(x), stack);
      if after.Some? {
        StreamBrackets(rest, after.value);
      }
    }
  }

  /** A stream is balanced exactly if its rewriting is, when the declarations of each group are. */
  lemma StreamKeepsBalance(items: seq<Item>)
    requires forall x <- items :: IsWellFormed(x) && IsTight(x)
    ensures Balanced(OutItems(items)) <==> Balanced(Tokens(items))
  {
    hide IsTight, IsWellFormed;
    StreamBrackets(items, []);
  }

  /** For a group the condition is exact: what is left without its braces is balanced if and only if
      the declarations are. */
  lemma GroupKeepsBalance(x: Item)
    requires x.Group? && IsWellFormed(x)
    ensures Balanced(ItemOut(x)) <==> IsTight(x)
    ensures IsTight(x) ==> Balanced(ItemTokens(x))
  {
    hide IsDecl, Brackets, ValidateAbi;
    DeclarationsBrackets(x.decls, x.anchor, []);
    if IsTight(x) {
      GroupBrackets(x, []);
    }
  }

  function Word(kind: string): Token {
    Token(kind, kind, 0, 0)
  }

  /** `extern "C" { fn } ; fn { ; }` is balanced, and is not without its braces. */
  const CROSSED := Group(Word("extern"), Token("STRING", "\"C\"", 0, 0), Word("{"),
                         [[Word("fn"), Word("}"), Word(";")], [Word("fn"), Word("{"), Word(";")]], Word("}"))

  lemma CrossedDeclaration(brace: string)
    requires brace == "{" || brace == "}"
    ensures IsDecl([Word("fn"), Word(brace), Word(";")])
  {
    var d := [Word("fn"), Word(brace), Word(";")];
    var sig := d[0..|d| - 1];
    assert d[..0] == [] && sig == [Word("fn")] + [Word(brace)];
    NetTwo(Word("fn"), Word(brace), "(", ")");
    NetTwo(Word("fn"), Word(brace), "[", "]");
    assert IsSignature(sig);
    assert IsDeclarationAt(d, 0);
    DeclarationGrammar(d);
  }

  lemma NetTwo(a: Token, b: Token, open: string, close: string)
    requires a.kind != open && a.kind != close && b.kind != open && b.kind != close
    ensures Net([a] + [b], open, close) == 0
  {
    NetAppend([a], [b], open, close);
    assert [a][1..] == [] && [b][1..] == [];
  }

  lemma BalanceCanBreak()
    ensures IsWellFormed(CROSSED) && Balanced(ItemTokens(CROSSED)) && !Balanced(ItemOut(CROSSED))
  {
    hide IsDecl, Brackets, Out;
    CrossedDeclaration("}");
    CrossedDeclaration("{");
    CrossedTokens();
    GroupKeepsBalance(CROSSED);
  }

  lemma BracketsCons(t: Token, rest: seq<Token>, stack: seq<string>)
    ensures var next := Bracket(t.kind, stack);
            Brackets([t] + rest, stack) == if next.None? then None else Brackets(rest, next.value)
  {
    assert ([t] + rest)[1..] == rest;
  }

  lemma FlatCons(ds: seq<seq<Token>>)
    requires ds != []
    ensures Flat(ds) == ds[0] + Flat(ds[1..])
  {}

  lemma FlatOne(d: seq<Token>)
    ensures Flat([d]) == d
  {
    FlatCons([d]);
    assert [d][1..] == [];
    assert Flat([]) == [];
  }

  /** The braces close each other the other way round. */
  lemma CrossedInside()
    ensures Brackets(Flat(CROSSED.decls), ["}"]) == Some(["}"]) && Brackets(Flat(CROSSED.decls), []).None?
  {
    hide Brackets;
    var f, o, c, s := Word("fn"), Word("{"), Word("}"), Word(";");
    var b := [f, o, s];
    var last := [b];
    assert CROSSED.decls[0] == [f, c, s] && CROSSED.decls[1..] == last && last[1..] == [];
    FlatOne(b);
    FlatCons(CROSSED.decls);
    assert Flat(CROSSED.decls) == [f] + ([c] + ([s, f] + ([o] + [s])));
    BracketsCons(f, [c] + ([s, f] + ([o] + [s])), []);
    BracketsCons(c, [s, f] + ([o] + [s]), []);
    BracketsCons(f, [c] + ([s, f] + ([o] + [s])), ["}"]);
    BracketsCons(c, [s, f] + ([o] + [s]), ["}"]);
    assert ["}"][1..] == [];
    NoBrackets([s, f], []);
    BracketsAppend([s, f], [o] + [s], []);
    BracketsCons(o, [s], []);
    assert ["}"] + [] == ["}"];
    NoBrackets([s], ["}"]);
  }

  lemma CrossedTokens()
    ensures Balanced(ItemTokens(CROSSED)) && !Balanced(Flat(CROSSED.decls))
  {
    hide Brackets, Flat;
    var inside := Flat(CROSSED.decls);
    CrossedInside();
    var head := [CROSSED.anchor, CROSSED.abi];
    NoBrackets(head, []);
    assert ItemTokens(CROSSED) == head + ([CROSSED.open] + (inside + [CROSSED.close]));
    BracketsAppend(head, [CROSSED.open] + (inside + [CROSSED.close]), []);
    BracketsCons(CROSSED.open, inside + [CROSSED.close], []);
    assert ["}"] + [] == ["}"];
    BracketsAppend(inside, [CROSSED.close], ["}"]);
    BraceBrackets(CROSSED.open, CROSSED.close, []);
  }

  // ---- the word extern ------------------------------------------------------------------------

  predicate Externless(ts: seq<Token>) {
    forall t <- ts :: t.kind != "extern"
  }

  lemma ExternlessJoin(a: seq<Token>, b: seq<Token>)
    ensures Externless(a + b) <==> Externless(a) && Externless(b)
  {
    assert forall t <- a + b :: t in a || t in b;
    assert forall t <- a :: t in a + b;
    assert forall t <- b :: t in a + b;
  }

  lemma DeclarationExterns(d: seq<Token>, anchor: Token)
    requires IsDecl(d)
    ensures Externless(Out(d, anchor)) <==> Externless(d)
  {
    hide IsDecl, Out, IsSignature, Metadata;
    DeclarationGrammar(d);
    var k: nat :| IsDeclarationAt(d, k);
    OutIs(d, k, anchor);
    MetadataHasNoBrackets(d[..k], anchor);
    var ms, sig, last := d[..k], d[k..|d| - 1], [d[|d| - 1]];
    assert d == ms + sig + last;
    ExternlessJoin(ms + sig, last);
    ExternlessJoin(ms, sig);
    var meta, body := Metadata(ms, anchor), EmptyBody(d[|d| - 1]);
    ExternlessJoin(meta + sig, body);
    ExternlessJoin(meta, sig);
  }

  lemma {:induction false} DeclarationsExterns(ds: seq<seq<Token>>, anchor: Token)
    requires forall d <- ds :: IsDecl(d)
    ensures Externless(OutAll(ds, anchor)) <==> Externless(Flat(ds))
    decreases |ds|
  {
    hide IsDecl, Out, Externless;
    if ds != [] {
      assert ds[0] in ds && forall d <- ds[1..] :: d in ds;
      DeclarationExterns(ds[0], anchor);
      DeclarationsExterns(ds[1..], anchor);
      ExternlessJoin(Out(ds[0], anchor), OutAll(ds[1..], anchor));
      ExternlessJoin(ds[0], Flat(ds[1..]));
    }
  }

  function InnerTokens(x: Item): seq<Token> {
    match x
    case Plain(t) => [t]
    case Single(_, _, d) => d
    case Group(_, _, _, ds, _) => Flat(ds)
  }

  /** The word extern is left only where a declaration had it inside. */
  lemma {:induction false} StreamExterns(items: seq<Item>)
    requires forall x <- items :: IsWellFormed(x)
    ensures Externless(OutItems(items)) <==> forall x <- items :: Externless(InnerTokens(x))
    decreases |items|
  {
    hide IsDecl, Out, Externless;
    if items == [] {
      NoExtern();
    } else {
      var x, rest := items[0], items[1..];
      assert x in items && forall y <- rest :: y in items;
      if x.Single? {
        DeclarationExterns(x.decl, x.anchor);
      } else if x.Group? {
        DeclarationsExterns(x.decls, x.anchor);
      }
      StreamExterns(rest);
      ExternlessJoin(ItemOut(x), OutItems(rest));
      assert forall y <- items :: y == x || y in rest;
    }
  }

  lemma NoExtern()
    ensures Externless([])
  {}
}
