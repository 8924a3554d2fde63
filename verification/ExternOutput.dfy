/** What a declaration is, what exactly it becomes, and what the rewriting of a stream keeps. */
module ExternOutput {
  import opened Options
  import opened ExternTokens
  import opened ExternForms

  // ---- the grammar of a declaration -----------------------------------------------

  /** The tokens of a kind, in order. */
  function OfKind(ts: seq<Token>, kind: string): seq<Token> {
    if ts == [] then [] else (if ts[0].kind == kind then [ts[0]] else []) + OfKind(ts[1..], kind)
  }

  /** Attributes, pub and unsafe in any order, the last two at most once. */
  predicate IsModifiers(ms: seq<Token>) {
    && (forall t <- ms :: t.kind in {"ATTR", "pub", "unsafe"})
    && |OfKind(ms, "pub")| <= 1 && |OfKind(ms, "unsafe")| <= 1
  }

  /** Opening minus closing brackets. */
  function Net(ts: seq<Token>, open: string, close: string): int {
    if ts == [] then 0 else Depth(ts[0].kind, open, close, 0) + Net(ts[1..], open, close)
  }

  predicate IsOpen(ts: seq<Token>) {
    Net(ts, "(", ")") != 0 || Net(ts, "[", "]") != 0
  }

  /** From fn up to the first semicolon at which no parenthesis or square bracket is open. */
  predicate IsSignature(ts: seq<Token>) {
    && ts != [] && ts[0].kind == "fn" && !IsOpen(ts)
    && forall j :: 0 <= j < |ts| ==> ts[j].kind != "EOF" && (ts[j].kind == ";" ==> IsOpen(ts[..j]))
  }

  predicate IsDeclarationAt(d: seq<Token>, k: nat) {
    k + 1 < |d| && IsModifiers(d[..k]) && IsSignature(d[k..|d| - 1]) && d[|d| - 1].kind == ";"
  }

  // ---- reading the modifiers ---------------------------------------------------------

  lemma {:induction false} OfKindAppend(a: seq<Token>, b: seq<Token>, kind: string)
    ensures OfKind(a + b, kind) == OfKind(a, kind) + OfKind(b, kind)
    decreases |a|
  {
    if a == [] {
      assert a + b == b;
    } else {
      assert (a + b)[1..] == a[1..] + b;
      OfKindAppend(a[1..], b, kind);
    }
  }

  /** What has been collected of the modifiers read so far. */
  ghost predicate Collected(d: seq<Token>, m: Modifiers) {
    && m.next <= |d| && IsModifiers(d[..m.next]) && m.attrs == OfKind(d[..m.next], "ATTR")
    && m.public == (if OfKind(d[..m.next], "pub") == [] then None else Some(OfKind(d[..m.next], "pub")[0]))
    && (m.isUnsafe <==> OfKind(d[..m.next], "unsafe") != [])
  }

  lemma CollectedStep(d: seq<Token>, m: Modifiers, m': Modifiers)
    requires Collected(d, m) && m.next < |d| && m'.next == m.next + 1
    requires var t := d[m.next];
             || (t.kind == "ATTR" && m' == m.(attrs := m.attrs + [t], next := m.next + 1))
             || (t.kind == "pub" && m.public.None? && m' == m.(public := Some(t), next := m.next + 1))
             || (t.kind == "unsafe" && !m.isUnsafe && m' == m.(isUnsafe := true, next := m.next + 1))
    ensures Collected(d, m')
  {
    hide OfKind;
    var t := d[m.next];
    assert d[..m.next + 1] == d[..m.next] + [t];
    OfKindOne(d[..m.next], t, "ATTR");
    OfKindOne(d[..m.next], t, "pub");
    OfKindOne(d[..m.next], t, "unsafe");
  }

  lemma OfKindOne(ts: seq<Token>, t: Token, kind: string)
    ensures OfKind(ts + [t], kind) == if t.kind == kind then OfKind(ts, kind) + [t] else OfKind(ts, kind)
  {
    OfKindAppend(ts, [t], kind);
    assert [t][1..] == [];
  }

  lemma {:induction false} ModifiersRead(d: seq<Token>, m: Modifiers)
    requires Collected(d, m)
    ensures Collected(d, ReadModifiers(d, m))
    decreases |d| - m.next
  {
    hide Collected;
    if Collected(d, m) && m.next < |d| {
      var t := d[m.next];
      if t.kind == "ATTR" {
        CollectedStep(d, m, m.(attrs := m.attrs + [t], next := m.next + 1));
        ModifiersRead(d, m.(attrs := m.attrs + [t], next := m.next + 1));
      } else if t.kind == "pub" && m.public.None? {
        CollectedStep(d, m, m.(public := Some(t), next := m.next + 1));
        ModifiersRead(d, m.(public := Some(t), next := m.next + 1));
      } else if t.kind == "unsafe" && !m.isUnsafe {
        CollectedStep(d, m, m.(isUnsafe := true, next := m.next + 1));
        ModifiersRead(d, m.(isUnsafe := true, next := m.next + 1));
      }
    }
  }

  lemma CollectedOne(d: seq<Token>, k: nat, i: nat)
    requires i < k <= |d| && IsModifiers(d[..k])
    ensures IsModifiers(d[..i])
    ensures d[i].kind in {"ATTR", "pub", "unsafe"}
    ensures d[i].kind == "pub" ==> OfKind(d[..i], "pub") == []
    ensures d[i].kind == "unsafe" ==> OfKind(d[..i], "unsafe") == []
  {
    var head, t, tail := d[..i], d[i], d[i + 1..k];
    assert d[..k] == head + ([t] + tail);
    forall kind | kind == "pub" || kind == "unsafe"
      ensures |OfKind(head, kind)| + (if t.kind == kind then 1 else 0) <= |OfKind(d[..k], kind)|
    {
      OfKindAppend(head, [t] + tail, kind);
      OfKindAppend([t], tail, kind);
      assert [t][1..] == [];
    }
    assert d[..k][i] == t;
    forall x | x in head ensures x.kind in {"ATTR", "pub", "unsafe"} {
      var j :| 0 <= j < i && head[j] == x;
      assert d[..k][j] == x;
    }
  }

  /** Reading stops at the first token that is no modifier, not before. */
  lemma {:induction false} ReadsUpTo(d: seq<Token>, m: Modifiers, k: nat)
    requires Collected(d, m) && m.next <= k < |d| && IsModifiers(d[..k]) && d[k].kind == "fn"
    ensures ReadModifiers(d, m).next == k
    decreases k - m.next
  {
    if m.next < k {
      CollectedOne(d, k, m.next);
      var t := d[m.next];
      var m' := if t.kind == "ATTR" then m.(attrs := m.attrs + [t], next := m.next + 1)
                else if t.kind == "pub" then m.(public := Some(t), next := m.next + 1)
                else m.(isUnsafe := true, next := m.next + 1);
      CollectedStep(d, m, m');
      ReadsUpTo(d, m', k);
    }
  }

  const START := Modifiers([], None, false, 0)

  lemma CollectedNothing(d: seq<Token>)
    ensures Collected(d, START)
  {
    assert d[..0] == [];
  }

  // ---- reading the signature ------------------------------------------------------------

  lemma {:induction false} NetAppend(a: seq<Token>, b: seq<Token>, open: string, close: string)
    ensures Net(a + b, open, close) == Net(a, open, close) + Net(b, open, close)
    decreases |a|
  {
    if a == [] {
      assert a + b == b;
    } else {
      assert (a + b)[1..] == a[1..] + b;
      NetAppend(a[1..], b, open, close);
    }
  }

  lemma NetStep(ts: seq<Token>, k: nat, i: nat, open: string, close: string)
    requires k <= i < |ts|
    ensures Net(ts[k..i + 1], open, close) == Depth(ts[i].kind, open, close, Net(ts[k..i], open, close))
  {
    assert ts[k..i + 1] == ts[k..i] + [ts[i]];
    NetAppend(ts[k..i], [ts[i]], open, close);
    assert [ts[i]][1..] == [];
  }

  /** No end of the signature in ts[k..i], which begins at k. */
  ghost predicate Unended(ts: seq<Token>, k: nat, i: nat) {
    k <= i <= |ts| && forall j :: k <= j < i ==> ts[j].kind != "EOF" && (ts[j].kind == ";" ==> IsOpen(ts[k..j]))
  }

  lemma {:induction false} SignatureEnds(ts: seq<Token>, k: nat, i: nat)
    requires Unended(ts, k, i)
    ensures var end := SignatureEnd(ts, i, Net(ts[k..i], "(", ")"), Net(ts[k..i], "[", "]"));
            end.Some? ==> Unended(ts, k, end.value) && !IsOpen(ts[k..end.value])
    decreases |ts| - i
  {
    hide IsOpen, Net;
    if i < |ts| && ts[i].kind != "EOF" {
      NetStep(ts, k, i, "(", ")");
      NetStep(ts, k, i, "[", "]");
      OpenIs(ts[k..i]);
      if !(ts[i].kind == ";" && !IsOpen(ts[k..i])) {
        SignatureEnds(ts, k, i + 1);
      }
    }
  }

  lemma OpenIs(ts: seq<Token>)
    ensures IsOpen(ts) <==> !(Net(ts, "(", ")") == 0 && Net(ts, "[", "]") == 0)
  {}

  lemma {:induction false} SignatureFound(ts: seq<Token>, k: nat, i: nat, end: nat)
    requires k <= i <= end < |ts| && Unended(ts, k, end) && ts[end].kind == ";" && !IsOpen(ts[k..end])
    ensures SignatureEnd(ts, i, Net(ts[k..i], "(", ")"), Net(ts[k..i], "[", "]")) == Some(end)
    decreases end - i
  {
    hide IsOpen, Net;
    NetStep(ts, k, i, "(", ")");
    NetStep(ts, k, i, "[", "]");
    OpenIs(ts[k..i]);
    if i < end {
      SignatureFound(ts, k, i + 1, end);
    }
  }

  lemma SignatureIs(d: seq<Token>, k: nat)
    requires k + 1 < |d|
    ensures IsSignature(d[k..|d| - 1]) <==> d[k].kind == "fn" && Unended(d, k, |d| - 1) && !IsOpen(d[k..|d| - 1])
  {
    hide IsOpen;
    var n := |d| - 1;
    var sig := d[k..n];
    forall j | k <= j < n ensures sig[j - k] == d[j] && sig[..j - k] == d[k..j] {}
    if IsSignature(sig) {
      forall j | k <= j < n ensures d[j].kind != "EOF" && (d[j].kind == ";" ==> IsOpen(d[k..j])) {
        assert sig[j - k].kind != "EOF" && (sig[j - k].kind == ";" ==> IsOpen(sig[..j - k]));
      }
    }
    if d[k].kind == "fn" && Unended(d, k, n) && !IsOpen(sig) {
      forall j | 0 <= j < |sig| ensures sig[j].kind != "EOF" && (sig[j].kind == ";" ==> IsOpen(sig[..j])) {
        assert sig[j] == d[k + j] && sig[..j] == d[k..k + j];
      }
    }
  }

  /** A declaration is exactly modifiers, a signature and its semicolon. */
  lemma DeclarationGrammar(d: seq<Token>)
    ensures IsDecl(d) <==> exists k: nat :: IsDeclarationAt(d, k)
  {
    if IsDecl(d) {
      var k := DeclarationParts(d);
      assert IsDeclarationAt(d, k);
    }
    if k: nat :| IsDeclarationAt(d, k) {
      GrammarIsRead(d, k);
    }
  }

  lemma NetEmpty(ts: seq<Token>, k: nat)
    requires k <= |ts|
    ensures Net(ts[k..k], "(", ")") == 0 && Net(ts[k..k], "[", "]") == 0
  {
    assert ts[k..k] == [];
  }

  lemma DeclarationParts(d: seq<Token>) returns (k: nat)
    requires IsDecl(d)
    ensures IsDeclarationAt(d, k) && k == ReadModifiers(d, START).next
  {
    hide IsOpen, Net, Collected;
    CollectedNothing(d);
    ModifiersRead(d, START);
    var m := ReadModifiers(d, START);
    k := m.next;
    CollectedIs(d, m);
    NetEmpty(d, k);
    SignatureEnds(d, k, k);
    assert SignatureEnd(d, k, 0, 0) == Some(|d| - 1);
    SignatureStartsWithFn(d, k);
    SignatureIs(d, k);
  }

  lemma SignatureStartsWithFn(d: seq<Token>, k: nat)
    requires k < |d| && d[k].kind == "fn" && SignatureEnd(d, k, 0, 0) == Some(|d| - 1)
    ensures k + 1 < |d|
  {}

  lemma CollectedIs(d: seq<Token>, m: Modifiers)
    requires Collected(d, m)
    ensures m.next <= |d| && IsModifiers(d[..m.next])
  {}

  lemma GrammarIsRead(d: seq<Token>, k: nat)
    requires IsDeclarationAt(d, k)
    ensures IsDecl(d) && ReadModifiers(d, START).next == k
  {
    hide IsOpen, Net, Collected, IsModifiers, Heading, EmptyBody, ReadModifiers;
    CollectedNothing(d);
    SignatureIs(d, k);
    assert d[k..|d| - 1][0] == d[k];
    ReadsUpTo(d, START, k);
    NetEmpty(d, k);
    SignatureFound(d, k, k, |d| - 1);
  }

  // ---- what a declaration becomes -----------------------------------------------------------

  /** The metadata: the attributes in order, the two of the boundary, @unsafe if the declaration is
      unsafe, pub if it is public. */
  function Metadata(ms: seq<Token>, anchor: Token): seq<Token> {
    OfKind(ms, "ATTR")
    + [Synthetic("ATTR", "@extern(C)", anchor), Synthetic("ATTR", "@export", anchor)]
    + (if OfKind(ms, "unsafe") == [] then [] else [Synthetic("ATTR", "@unsafe", anchor)])
    + OfKind(ms, "pub")
  }

  lemma BodyIsEmpty(end: Token)
    ensures EmptyBody(end) == [Token("{", "{", end.line, end.column), Token("}", "}", end.line, end.column)]
  {}

  /** A declaration becomes its metadata, its signature verbatim, and an empty body. */
  lemma OutIs(d: seq<Token>, k: nat, anchor: Token)
    requires IsDeclarationAt(d, k)
    ensures IsDecl(d) && Out(d, anchor) == Metadata(d[..k], anchor) + d[k..|d| - 1] + EmptyBody(d[|d| - 1])
    ensures var end := d[|d| - 1]; EmptyBody(end) == [Token("{", "{", end.line, end.column), Token("}", "}", end.line, end.column)]
  {
    hide IsOpen, Net, EmptyBody;
    BodyIsEmpty(d[|d| - 1]);
    GrammarIsRead(d, k);
    CollectedNothing(d);
    ModifiersRead(d, START);
    var m := ReadModifiers(d, START);
    SignatureIs(d, k);
    NetEmpty(d, k);
    SignatureFound(d, k, k, |d| - 1);
    assert |OfKind(d[..k], "pub")| <= 1;
    if m.public.Some? {
      assert OfKind(d[..k], "pub") == [m.public.value];
    }
    assert Heading(m, anchor) == Metadata(d[..k], anchor);
  }
}
