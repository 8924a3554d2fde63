/** The two scanners of the module driver that look for braces outside comments and literals. */
module BraceScanners {
  import opened Options

  /** Where s first occurs in the text from i on. */
  function Find(text: string, s: string, i: nat): (r: Option<nat>)
    requires |s| > 0
    ensures r.Some? ==> i <= r.value && r.value + |s| <= |text| && text[r.value..r.value + |s|] == s
    decreases |text| - i
  {
    if i + |s| > |text| then None
    else if text[i..i + |s|] == s then Some(i)
    else Find(text, s, i + 1)
  }

  predicate StartsAt(text: string, s: string, i: nat) {
    i + |s| <= |text| && text[i..i + |s|] == s
  }

  /** Behind the closing quote of a literal whose contents start at i; past the end if there is none. */
  function LiteralEnd(text: string, quote: char, i: nat): (r: nat)
    ensures r > i
    decreases |text| - i
  {
    if i >= |text| || text[i] == quote then i + 1
    else if text[i] == '\\' then LiteralEnd(text, quote, i + 2)
    else LiteralEnd(text, quote, i + 1)
  }

  /** Where scanning goes on if a comment or literal starts at i; None if i is code. */
  function Skip(text: string, i: nat): (r: Option<nat>)
    requires i < |text|
    ensures r.Some? ==> r.value > i
  {
    if StartsAt(text, "//", i) then
      var end := Find(text, "\n", i);
      if end.Some? then NewlineIsLater(text, i, end.value); end else Some(|text|)
    else if StartsAt(text, "/*", i) then
      var end := Find(text, "*/", i + 2);
      if end.Some? then Some(end.value + 2) else Some(|text|)
    else if text[i] == '\"' || text[i] == '\'' then Some(LiteralEnd(text, text[i], i + 1))
    else None
  }

  lemma NewlineIsLater(text: string, i: nat, end: nat)
    requires StartsAt(text, "//", i) && i <= end && end + 1 <= |text| && text[end..end + 1] == "\n"
    ensures end > i
  {
    assert text[i..i + 2][0] == '/';
    assert text[end..end + 1][0] == '\n';
  }

  /** Code offsets at depth 0, scanning from i at the given depth; a closing brace that returns to
      depth 0 is one of them, an opening brace that leaves it is not. */
  function TopLevel(text: string, i: nat, depth: nat): (r: set<nat>)
    ensures forall k <- r :: i <= k < |text|
    decreases |text| - i
  {
    if i >= |text| then {}
    else if Skip(text, i).Some? then TopLevel(text, Skip(text, i).value, depth)
    else
      var d := DepthAfter(text[i], depth);
      (if d == 0 then {i} else {}) + TopLevel(text, i + 1, d)
  }

  function DepthAfter(c: char, depth: nat): nat {
    if c == '{' then depth + 1 else if c == '}' && depth > 0 then depth - 1 else depth
  }

  /** The brace that brings the depth back to 0, scanning from i at the given depth. */
  function Matching(text: string, i: nat, depth: int): Option<nat>
    decreases |text| - i
  {
    if i >= |text| then None
    else if Skip(text, i).Some? then Matching(text, Skip(text, i).value, depth)
    else if text[i] == '{' then Matching(text, i + 1, depth + 1)
    else if text[i] == '}' then if depth == 1 then Some(i) else Matching(text, i + 1, depth - 1)
    else Matching(text, i + 1, depth)
  }

  /** The depth at which a scan from i comes to offset o as code, if it does. */
  function DepthAt(text: string, i: nat, depth: nat, o: nat): Option<nat>
    decreases |text| - i
  {
    if i >= |text| then None
    else if Skip(text, i).Some? then DepthAt(text, Skip(text, i).value, depth, o)
    else if i == o then Some(depth)
    else DepthAt(text, i + 1, DepthAfter(text[i], depth), o)
  }

  // ---- the scanners ----------------------------------------------------------

  method SkipLiteral(text: string, start: nat) returns (index: nat)
    requires start < |text|
    ensures index == LiteralEnd(text, text[start], start + 1)
  {
    index := start + 1;
    while index < |text| && text[index] != text[start]
      invariant start < index
      invariant LiteralEnd(text, text[start], index) == LiteralEnd(text, text[start], start + 1)
      decreases |text| - index
    {
      if text[index] == '\\' {
        index := index + 1;
      }
      index := index + 1;
    }
    index := index + 1;
  }

  /** One step of the scan, seen from the offsets collected so far. */
  lemma Collect(text: string, i: nat, depth: nat, result: set<nat>)
    requires i < |text|
    ensures var next := Skip(text, i);
            var d := DepthAfter(text[i], depth);
            result + TopLevel(text, i, depth) ==
              if next.Some? then result + TopLevel(text, next.value, depth)
              else (if d == 0 then result + {i} else result) + TopLevel(text, i + 1, d)
  {
    hide Find, LiteralEnd, StartsAt, Skip;
  }

  method TopLevelOffsets(text: string) returns (result: set<nat>)
    ensures result == TopLevel(text, 0, 0)
  {
    hide Find, LiteralEnd, StartsAt, TopLevel;
    result := {};
    var depth: nat, index: nat := 0, 0;
    ghost var whole := TopLevel(text, 0, 0);
    while index < |text|
      invariant result + TopLevel(text, index, depth) == whole
      decreases |text| - index
    {
      Collect(text, index, depth, result);
      if StartsAt(text, "//", index) {
        assert Skip(text, index).Some?;
        var end := Find(text, "\n", index);
        index := if end.None? then |text| else end.value;
        continue;
      }
      if StartsAt(text, "/*", index) {
        var end := Find(text, "*/", index + 2);
        index := if end.None? then |text| else end.value + 2;
        continue;
      }
      if text[index] == '\"' || text[index] == '\'' {
        index := SkipLiteral(text, index);
        continue;
      }
      if text[index] == '{' {
        depth := depth + 1;
      } else if text[index] == '}' {
        depth := if depth == 0 then 0 else depth - 1;
      }
      if depth == 0 {
        result := result + {index};
      }
      index := index + 1;
    }
    NothingLeft(text, index, depth);
  }

  lemma NothingLeft(text: string, i: nat, depth: nat)
    requires i >= |text|
    ensures TopLevel(text, i, depth) == {}
  {}

  /** None: the source raises "block without closing brace". */
  method MatchingBrace(text: string, opening: nat) returns (r: Option<nat>)
    ensures r == Matching(text, opening, 0)
  {
    hide Find, LiteralEnd, StartsAt;
    var depth: int, index: nat := 0, opening;
    while index < |text|
      invariant Matching(text, index, depth) == Matching(text, opening, 0)
      decreases |text| - index
    {
      if StartsAt(text, "//", index) {
        assert Skip(text, index).Some?;
        var end := Find(text, "\n", index);
        index := if end.None? then |text| else end.value;
        continue;
      }
      if StartsAt(text, "/*", index) {
        var end := Find(text, "*/", index + 2);
        index := if end.None? then |text| else end.value + 2;
        continue;
      }
      if text[index] == '\"' || text[index] == '\'' {
        index := SkipLiteral(text, index);
        continue;
      }
      if text[index] == '{' {
        depth := depth + 1;
      } else if text[index] == '}' {
        depth := depth - 1;
        if depth == 0 {
          return Some(index);
        }
      }
      index := index + 1;
    }
    return None;
  }

  // ---- they agree ------------------------------------------------------------

  /** Inside a block: the matching brace is the first offset that is top-level again. */
  lemma {:induction false} AgreeInside(text: string, i: nat, depth: nat)
    requires depth > 0
    ensures var m := Matching(text, i, depth);
            var top := TopLevel(text, i, depth);
            && (m.Some? ==> m.value in top && text[m.value] == '}' && forall k <- top :: m.value <= k)
            && (m.None? ==> top == {})
    decreases |text| - i
  {
    if i < |text| {
      if Skip(text, i).Some? {
        AgreeInside(text, Skip(text, i).value, depth);
      } else {
        var d := DepthAfter(text[i], depth);
        if d > 0 {
          AgreeInside(text, i + 1, d);
        }
      }
    }
  }

  /** What the scan finds from o on, when it comes to o at depth d. */
  lemma {:induction false} TopLevelFrom(text: string, i: nat, depth: nat, o: nat)
    requires DepthAt(text, i, depth, o).Some?
    ensures i <= o < |text| && Skip(text, o).None?
    ensures forall k :: o <= k ==> (k in TopLevel(text, i, depth) <==> k in TopLevel(text, o, DepthAt(text, i, depth, o).value))
    decreases |text| - i
  {
    if Skip(text, i).Some? {
      TopLevelFrom(text, Skip(text, i).value, depth, o);
    } else if i != o {
      TopLevelFrom(text, i + 1, DepthAfter(text[i], depth), o);
    }
  }

  /** For any text and any opening brace that the first scanner comes to at depth 0, the second one
      returns the first later top-level offset, which is a closing brace, and fails if and only if
      there is none. */
  lemma ScannersAgree(text: string, o: nat)
    requires o < |text| && text[o] == '{' && DepthAt(text, 0, 0, o) == Some(0)
    ensures var m := Matching(text, o, 0);
            var top := TopLevel(text, 0, 0);
            && (m.Some? ==> o < m.value && m.value in top && text[m.value] == '}' && forall k <- top :: !(o <= k < m.value))
            && (m.None? <==> forall k <- top :: k < o)
  {
    TopLevelFrom(text, 0, 0, o);
    AgreeInside(text, o + 1, 1);
    var m := Matching(text, o, 0);
    assert m == Matching(text, o + 1, 1);
    assert forall k :: k in TopLevel(text, o, 0) <==> k in TopLevel(text, o + 1, 1);
  }
}
