/** What the rewriting of extern declarations comes to for well-formed streams. */
module ExternForms {
  import opened Options
  import opened ExternTokens

  // ---- a declaration on its own ----------------------------------------------

  const NO_ANCHOR := Token("", "", 0, 0)

  /** The tokens of exactly one declaration, semicolon included. */
  predicate IsDecl(d: seq<Token>) {
    Declaration(d, 0, NO_ANCHOR).Ok? && Declaration(d, 0, NO_ANCHOR).value.1 == |d|
  }

  /** What replaces it. */
  function Out(d: seq<Token>, anchor: Token): seq<Token>
    requires IsDecl(d)
  {
    Declaration(d, 0, anchor).value.0
  }

  predicate Here(ts: seq<Token>, i: nat, d: seq<Token>) {
    i + |d| <= |ts| && ts[i..i + |d|] == d
  }

  lemma HereAt(ts: seq<Token>, i: nat, d: seq<Token>, k: nat)
    requires Here(ts, i, d) && k < |d|
    ensures i + k < |ts| && ts[i + k] == d[k]
  {
    assert ts[i..i + |d|][k] == d[k];
  }

  lemma HereSlice(ts: seq<Token>, i: nat, d: seq<Token>, a: nat, b: nat)
    requires Here(ts, i, d) && a <= b <= |d|
    ensures i + b <= |ts| && ts[i + a..i + b] == d[a..b]
  {
    var s := ts[i + a..i + b];
    forall k | 0 <= k < b - a ensures s[k] == d[a..b][k] {
      HereAt(ts, i, d, a + k);
    }
  }

  function Shift(m: Modifiers, i: nat): Modifiers {
    Modifiers(m.attrs, m.public, m.isUnsafe, m.next + i)
  }

  lemma {:induction false} ModifiersHere(ts: seq<Token>, i: nat, d: seq<Token>, m: Modifiers)
    requires Here(ts, i, d) && m.next <= |d| && ReadModifiers(d, m).next < |d|
    ensures m.next + i <= |ts| && ReadModifiers(ts, Shift(m, i)) == Shift(ReadModifiers(d, m), i)
    decreases |d| - m.next
  {
    hide Here;
    HereAt(ts, i, d, m.next);
    var t := d[m.next];
    if t.kind == "ATTR" {
      ModifiersHere(ts, i, d, Modifiers(m.attrs + [t], m.public, m.isUnsafe, m.next + 1));
    } else if t.kind == "pub" && m.public.None? {
      ModifiersHere(ts, i, d, Modifiers(m.attrs, Some(t), m.isUnsafe, m.next + 1));
    } else if t.kind == "unsafe" && !m.isUnsafe {
      ModifiersHere(ts, i, d, Modifiers(m.attrs, m.public, true, m.next + 1));
    }
  }

  lemma {:induction false} SignatureHere(ts: seq<Token>, i: nat, d: seq<Token>, k: nat, p: int, b: int)
    requires Here(ts, i, d) && SignatureEnd(d, k, p, b).Some?
    ensures SignatureEnd(ts, k + i, p, b) == Some(SignatureEnd(d, k, p, b).value + i)
    decreases |d| - k
  {
    hide Here, Depth;
    HereAt(ts, i, d, k);
    var p' := Depth(d[k].kind, "(", ")", p);
    var b' := Depth(d[k].kind, "[", "]", b);
    if !(d[k].kind == ";" && p' == 0 && b' == 0) {
      SignatureHere(ts, i, d, k + 1, p', b');
    }
  }

  /** A declaration is read alike wherever it stands. */
  lemma DeclarationHere(ts: seq<Token>, i: nat, d: seq<Token>, anchor: Token)
    requires Here(ts, i, d) && IsDecl(d)
    ensures i + |d| <= |ts| && Declaration(ts, i, anchor) == Ok((Out(d, anchor), i + |d|))
  {
    hide Heading, EmptyBody, Here, ReadModifiers, SignatureEnd;
    var start := Modifiers([], None, false, 0);
    var m := ReadModifiers(d, start);
    ModifiersHere(ts, i, d, start);
    HereAt(ts, i, d, m.next);
    SignatureHere(ts, i, d, m.next, 0, 0);
    var end := SignatureEnd(d, m.next, 0, 0).value;
    HereAt(ts, i, d, end);
    HereSlice(ts, i, d, m.next, end);
    SameHeading(m, m.next + i, anchor);
  }

  lemma SameHeading(m: Modifiers, next: nat, anchor: Token)
    ensures Heading(Modifiers(m.attrs, m.public, m.isUnsafe, next), anchor) == Heading(m, anchor)
  {}

  // ---- streams ---------------------------------------------------------------

  datatype Item =
    | Plain(token: Token)
    | Single(anchor: Token, abi: Token, decl: seq<Token>)
    | Group(anchor: Token, abi: Token, open: Token, decls: seq<seq<Token>>, close: Token)

  function Flat(ds: seq<seq<Token>>): seq<Token> {
    if ds == [] then [] else ds[0] + Flat(ds[1..])
  }

  function ItemTokens(x: Item): seq<Token> {
    match x
    case Plain(t) => [t]
    case Single(anchor, abi, d) => [anchor, abi] + d
    case Group(anchor, abi, open, ds, close) => [anchor, abi, open] + Flat(ds) + [close]
  }

  function Tokens(items: seq<Item>): seq<Token> {
    if items == [] then [] else ItemTokens(items[0]) + Tokens(items[1..])
  }

  predicate IsHead(anchor: Token, abi: Token) {
    anchor.kind == "extern" && abi.kind == "STRING" && ValidateAbi(abi).Ok?
  }

  predicate IsWellFormed(x: Item) {
    match x
    case Plain(t) => t.kind != "extern"
    case Single(anchor, abi, d) => IsHead(anchor, abi) && IsDecl(d)
    case Group(anchor, abi, open, ds, close) =>
      IsHead(anchor, abi) && open.kind == "{" && close.kind == "}" && forall d <- ds :: IsDecl(d)
  }

  function OutAll(ds: seq<seq<Token>>, anchor: Token): seq<Token>
    requires forall d <- ds :: IsDecl(d)
  {
    if ds == [] then [] else Out(ds[0], anchor) + OutAll(ds[1..], anchor)
  }

  function ItemOut(x: Item): seq<Token>
    requires IsWellFormed(x)
  {
    match x
    case Plain(t) => [t]
    case Single(anchor, _, d) => Out(d, anchor)
    case Group(anchor, _, _, ds, _) => OutAll(ds, anchor)
  }

  function OutItems(items: seq<Item>): seq<Token>
    requires forall x <- items :: IsWellFormed(x)
  {
    if items == [] then [] else ItemOut(items[0]) + OutItems(items[1..])
  }

  lemma HereParts(ts: seq<Token>, i: nat, a: seq<Token>, b: seq<Token>)
    requires Here(ts, i, a + b)
    ensures Here(ts, i, a) && Here(ts, i + |a|, b)
  {
    assert ts[i..i + |a|] == ts[i..i + |a + b|][..|a|];
    assert ts[i + |a|..i + |a| + |b|] == ts[i..i + |a + b|][|a|..];
  }

  /** A declaration starts with an attribute, pub, unsafe or fn. */
  lemma DeclStart(d: seq<Token>)
    requires IsDecl(d)
    ensures d != [] && d[0].kind in {"ATTR", "pub", "unsafe", "fn"}
  {}

  lemma {:induction false} DeclarationsHere(ts: seq<Token>, i: nat, ds: seq<seq<Token>>, close: Token, anchor: Token)
    requires Here(ts, i, Flat(ds) + [close]) && close.kind == "}" && forall d <- ds :: IsDecl(d)
    ensures Declarations(ts, i, anchor) == Ok((OutAll(ds, anchor), i + |Flat(ds)|)) && ts[i + |Flat(ds)|].kind == "}"
    decreases |ds|
  {
    hide IsDecl, Declaration, Out, Here;
    if ds == [] {
      assert Flat(ds) + [close] == [close];
      HereAt(ts, i, [close], 0);
    } else {
      assert Flat(ds) + [close] == ds[0] + (Flat(ds[1..]) + [close]);
      HereParts(ts, i, ds[0], Flat(ds[1..]) + [close]);
      assert ds[0] in ds && forall d <- ds[1..] :: d in ds;
      DeclarationHere(ts, i, ds[0], anchor);
      DeclStart(ds[0]);
      HereAt(ts, i, ds[0], 0);
      DeclarationsHere(ts, i + |ds[0]|, ds[1..], close, anchor);
      DeclarationsStep(ts, i, anchor);
    }
  }

  lemma ExternalHere(ts: seq<Token>, i: nat, x: Item)
    requires !x.Plain? && IsWellFormed(x) && Here(ts, i, ItemTokens(x))
    ensures External(ts, i + 1, x.anchor) == Ok((ItemOut(x), i + |ItemTokens(x)|))
  {
    hide External, IsDecl, Out, Here, IsWellFormed, ItemTokens, ItemOut;
    if x.Single? {
      SingleHere(ts, i, x);
    } else {
      GroupHere(ts, i, x);
    }
  }

  /** How a declaration, and a group of them, are read off the stream. */
  lemma SingleStep(ts: seq<Token>, i: nat, anchor: Token, out: seq<Token>, end: nat)
    requires i + 1 < |ts| && IsHead(anchor, ts[i]) && ts[i + 1].kind != "{" && Declaration(ts, i + 1, anchor) == Ok((out, end))
    ensures External(ts, i, anchor) == Ok((out, end))
  {
    hide Declaration, ValidateAbi, Declarations;
  }

  lemma GroupStep(ts: seq<Token>, i: nat, anchor: Token, out: seq<Token>, end: nat)
    requires i + 1 < |ts| && IsHead(anchor, ts[i]) && ts[i + 1].kind == "{" && Declarations(ts, i + 2, anchor) == Ok((out, end))
    requires end < |ts| && ts[end].kind == "}"
    ensures External(ts, i, anchor) == Ok((out, end + 1))
  {
    hide Declaration, ValidateAbi, Declarations;
  }

  lemma SingleHere(ts: seq<Token>, i: nat, x: Item)
    requires x.Single? && IsWellFormed(x) && Here(ts, i, ItemTokens(x))
    ensures External(ts, i + 1, x.anchor) == Ok((ItemOut(x), i + |ItemTokens(x)|))
  {
    hide IsDecl, External, Declaration, Out, IsHead, Here, Declarations;
    HereParts(ts, i, [x.anchor, x.abi], x.decl);
    HereAt(ts, i, [x.anchor, x.abi], 1);
    DeclStart(x.decl);
    HereAt(ts, i + 2, x.decl, 0);
    DeclarationHere(ts, i + 2, x.decl, x.anchor);
    SingleStep(ts, i + 1, x.anchor, Out(x.decl, x.anchor), i + 2 + |x.decl|);
  }

  lemma GroupHere(ts: seq<Token>, i: nat, x: Item)
    requires x.Group? && IsWellFormed(x) && Here(ts, i, ItemTokens(x))
    ensures External(ts, i + 1, x.anchor) == Ok((ItemOut(x), i + |ItemTokens(x)|))
  {
    hide IsDecl, External, Declarations, Out, OutAll, IsHead, Here, Flat;
    var head, tail := [x.anchor, x.abi, x.open], Flat(x.decls) + [x.close];
    assert ItemTokens(x) == head + tail;
    HereParts(ts, i, head, tail);
    HereAt(ts, i, head, 1);
    HereAt(ts, i, head, 2);
    DeclarationsHere(ts, i + 3, x.decls, x.close, x.anchor);
    GroupStep(ts, i + 1, x.anchor, OutAll(x.decls, x.anchor), i + 3 + |Flat(x.decls)|);
  }

  /** Every well-formed stream is rewritten item by item: ordinary tokens stay, each declaration is
      replaced on its own, and the braces of a group disappear. */
  lemma {:induction false} StreamNormalizes(ts: seq<Token>, i: nat, items: seq<Item>)
    requires i <= |ts| && ts[i..] == Tokens(items) && forall x <- items :: IsWellFormed(x)
    ensures Normalized(ts, i) == Ok(OutItems(items))
    decreases |items|
  {
    hide External, IsDecl, Out, Here, IsWellFormed, ItemTokens;
    if items != [] {
      var x, rest := items[0], Tokens(items[1..]);
      assert x in items && forall y <- items[1..] :: y in items;
      StreamParts(ts, i, ItemTokens(x), rest);
      var next := i + |ItemTokens(x)|;
      StreamNormalizes(ts, next, items[1..]);
      FirstToken(x);
      HereAt(ts, i, ItemTokens(x), 0);
      NormalizedStep(ts, i);
      if !x.Plain? {
        ExternalHere(ts, i, x);
      }
    }
  }

  lemma StreamParts(ts: seq<Token>, i: nat, a: seq<Token>, b: seq<Token>)
    requires i <= |ts| && ts[i..] == a + b
    ensures Here(ts, i, a) && i + |a| <= |ts| && ts[i + |a|..] == b
  {
    assert ts[i..i + |a|] == ts[i..][..|a|];
    assert ts[i + |a|..] == ts[i..][|a|..];
  }

  lemma FirstToken(x: Item)
    requires IsWellFormed(x)
    ensures ItemTokens(x) != []
    ensures x.Plain? ==> ItemTokens(x) == [x.token] && x.token.kind != "extern" && ItemOut(x) == [x.token]
    ensures !x.Plain? ==> ItemTokens(x)[0] == x.anchor && x.anchor.kind == "extern"
  {}

  function Plains(ts: seq<Token>): seq<Item> {
    if ts == [] then [] else [Plain(ts[0])] + Plains(ts[1..])
  }

  lemma {:induction false} PlainStream(ts: seq<Token>)
    requires forall t <- ts :: t.kind != "extern"
    ensures Tokens(Plains(ts)) == ts && (forall x <- Plains(ts) :: IsWellFormed(x)) && OutItems(Plains(ts)) == ts
    decreases |ts|
  {
    if ts != [] {
      assert ts[0] in ts && forall t <- ts[1..] :: t in ts;
      PlainStream(ts[1..]);
      var items := Plains(ts);
      assert items[0] == Plain(ts[0]) && items[1..] == Plains(ts[1..]);
      assert forall x <- items :: x == items[0] || x in items[1..];
    }
  }

  /** A stream without the word extern is left alone. */
  lemma WithoutExternUnchanged(ts: seq<Token>)
    requires forall t <- ts :: t.kind != "extern"
    ensures Normalized(ts, 0) == Ok(ts)
  {
    PlainStream(ts);
    assert ts[0..] == ts;
    StreamNormalizes(ts, 0, Plains(ts));
  }

  // ---- a group is its declarations one by one ----------------------------------

  /** Kinds and texts: tokens up to their position in the file. */
  function Bare(ts: seq<Token>): (r: seq<(string, string)>)
    ensures |r| == |ts| && forall i :: 0 <= i < |ts| ==> r[i] == (ts[i].kind, ts[i].text)
  {
    if ts == [] then [] else [(ts[0].kind, ts[0].text)] + Bare(ts[1..])
  }

  lemma BareAppend(a: seq<Token>, b: seq<Token>)
    ensures Bare(a + b) == Bare(a) + Bare(b)
  {}

  function Singles(anchor: Token, abi: Token, ds: seq<seq<Token>>): seq<Item> {
    if ds == [] then [] else [Single(anchor, abi, ds[0])] + Singles(anchor, abi, ds[1..])
  }

  lemma OutAnchors(d: seq<Token>, anchor: Token, anchor': Token)
    requires IsDecl(d)
    ensures Bare(Out(d, anchor)) == Bare(Out(d, anchor'))
  {
    var m := ReadModifiers(d, Modifiers([], None, false, 0));
    var end := SignatureEnd(d, m.next, 0, 0).value;
    var tail := d[m.next..end] + EmptyBody(d[end]);
    assert Out(d, anchor) == Heading(m, anchor) + tail && Out(d, anchor') == Heading(m, anchor') + tail;
    HeadingAnchors(m, anchor, anchor');
    BareAppend(Heading(m, anchor), tail);
    BareAppend(Heading(m, anchor'), tail);
  }

  lemma HeadingAnchors(m: Modifiers, anchor: Token, anchor': Token)
    ensures Bare(Heading(m, anchor)) == Bare(Heading(m, anchor'))
  {
    var a, b := Heading(m, anchor), Heading(m, anchor');
    assert forall i :: 0 <= i < |a| ==> (a[i].kind, a[i].text) == (b[i].kind, b[i].text);
  }

  lemma {:induction false} SinglesOut(ds: seq<seq<Token>>, anchor: Token, anchor': Token, abi: Token)
    requires IsHead(anchor', abi) && forall d <- ds :: IsDecl(d)
    ensures forall x <- Singles(anchor', abi, ds) :: IsWellFormed(x)
    ensures Bare(OutItems(Singles(anchor', abi, ds))) == Bare(OutAll(ds, anchor))
    decreases |ds|
  {
    hide IsDecl, Out;
    if ds != [] {
      assert ds[0] in ds && forall d <- ds[1..] :: d in ds;
      SinglesOut(ds[1..], anchor, anchor', abi);
      OutAnchors(ds[0], anchor, anchor');
      var items := Singles(anchor', abi, ds);
      assert items[0] == Single(anchor', abi, ds[0]) && items[1..] == Singles(anchor', abi, ds[1..]);
      assert forall x <- items :: x == items[0] || x in items[1..];
      BareAppend(Out(ds[0], anchor), OutAll(ds[1..], anchor));
      BareAppend(Out(ds[0], anchor'), OutItems(items[1..]));
    }
  }

  /** `extern "C" { d1 ... dn }` comes to the same kinds and texts as `extern "C" d1 ... extern "C" dn`. */
  lemma GroupIsSingles(group: Item, anchor: Token, abi: Token)
    requires group.Group? && IsWellFormed(group) && IsHead(anchor, abi)
    ensures var separate := Singles(anchor, abi, group.decls);
            && Normalized(ItemTokens(group), 0).Ok? && Normalized(Tokens(separate), 0).Ok?
            && Bare(Normalized(ItemTokens(group), 0).value) == Bare(Normalized(Tokens(separate), 0).value)
  {
    hide IsWellFormed, IsHead, Singles, Normalized, Bare, ItemTokens, ItemOut, OutAll, Tokens, OutItems;
    var separate := Singles(anchor, abi, group.decls);
    GroupParts(group);
    SinglesOut(group.decls, group.anchor, anchor, abi);
    AloneInStream(group);
    assert ItemTokens(group)[0..] == ItemTokens(group) && Tokens(separate)[0..] == Tokens(separate);
    StreamNormalizes(ItemTokens(group), 0, [group]);
    StreamNormalizes(Tokens(separate), 0, separate);
  }

  lemma GroupParts(group: Item)
    requires group.Group? && IsWellFormed(group)
    ensures (forall d <- group.decls :: IsDecl(d)) && ItemOut(group) == OutAll(group.decls, group.anchor)
  {
    hide IsDecl, OutAll;
  }

  lemma AloneInStream(x: Item)
    requires IsWellFormed(x)
    ensures Tokens([x]) == ItemTokens(x) && OutItems([x]) == ItemOut(x)
  {
    hide IsWellFormed, ItemTokens, ItemOut;
  }
}
