/** Reading emitted lines back as C statements, by their texts and indentation alone. */
module SotlasLines {
  import opened Options
  import opened SotlasTokens
  import opened SotlasParsing
  import opened SotlasPrinting
  import opened SotlasDefer
  import opened SotlasDeferSound
  import opened SotlasEmitter

  // ---- C statements ---------------------------------------------------------------------

  /** A C statement, with expressions as text. A missing else part is an empty one. */
  datatype CStmt =
    | Plain(text: string)
    | Conditional(condition: string, yes: seq<CStmt>, no: seq<CStmt>)
    | Repeated(condition: string, body: seq<CStmt>)
    | Jump(jump: CJump)

  datatype CJump = BreakOut | GoOn | GiveBack(value: Option<string>)

  // ---- the reader ---------------------------------------------------------------------------

  /** What stands between a prefix and a suffix of a text. */
  function Between(t: string, a: string, b: string): Option<string> {
    if |a| + |b| <= |t| && t[..|a|] == a && t[|t| - |b|..] == b then Some(t[|a|..|t| - |b|]) else None
  }

  predicate IsClosing(t: string) {
    t == "}" || t == "} else {" || t == "} else "
  }

  /** A line that opens no block. */
  function ReadSimple(t: string): CStmt {
    if t == "break;" then Jump(BreakOut)
    else if t == "continue;" then Jump(GoOn)
    else if t == "return;" then Jump(GiveBack(None))
    else if Between(t, "return ", ";").Some? then Jump(GiveBack(Between(t, "return ", ";")))
    else Plain(t)
  }

  /** What has been read, and the lines that are left. */
  datatype Reading<+T> = Reading(value: T, rest: seq<Line>) | NotC {
    predicate IsFailure() { NotC? }

    function PropagateFailure<U>(): Reading<U>
      requires NotC?
    {
      NotC
    }

    function Extract(): (T, seq<Line>)
      requires Reading?
    {
      (value, rest)
    }
  }

  /** Statements at an indentation, up to a closing line or the end. */
  function ReadAll(ls: seq<Line>, n: nat): (r: Reading<seq<CStmt>>)
    ensures r.Reading? ==> |r.rest| <= |ls|
    decreases |ls|, 2
  {
    if ls == [] || IsClosing(ls[0].text) then Reading([], ls)
    else
      var (first, ls1) :- ReadOne(ls, n);
      var (more, ls2) :- ReadAll(ls1, n);
      Reading([first] + more, ls2)
  }

  function ReadOne(ls: seq<Line>, n: nat): (r: Reading<CStmt>)
    requires ls != []
    ensures r.Reading? ==> |r.rest| < |ls|
    decreases |ls|, 1
  {
    var t := ls[0].text;
    if ls[0].indent != n then NotC
    else if Between(t, "if (", ") {").Some? then ReadIf(ls, n)
    else if Between(t, "while (", ") {").Some? then
      var (body, ls1) :- ReadAll(ls[1..], n + 1);
      if ls1 == [] || ls1[0] != Line(n, "}") then NotC
      else Reading(Repeated(Between(t, "while (", ") {").value, body), ls1[1..])
    else Reading(ReadSimple(t), ls[1..])
  }

  function ReadIf(ls: seq<Line>, n: nat): (r: Reading<CStmt>)
    requires ls != []
    ensures r.Reading? ==> |r.rest| < |ls|
    decreases |ls|, 0
  {
    var c := Between(ls[0].text, "if (", ") {");
    if c.None? || ls[0].indent != n then NotC
    else
      var (yes, ls1) :- ReadAll(ls[1..], n + 1);
      if ls1 == [] || ls1[0].indent != n then NotC
      else if ls1[0].text == "}" then Reading(Conditional(c.value, yes, []), ls1[1..])
      else if ls1[0].text == "} else {" then
        var (no, ls2) :- ReadAll(ls1[1..], n + 1);
        if ls2 == [] || ls2[0] != Line(n, "}") then NotC else Reading(Conditional(c.value, yes, no), ls2[1..])
      else if ls1[0].text == "} else " && |ls1| > 1 then
        var (no, ls2) :- ReadIf(ls1[1..], n);
        Reading(Conditional(c.value, yes, [no]), ls2)
      else NotC
  }

  /** A function: its header, its body at an indentation, and an empty line behind it. */
  function ReadFunction(ls: seq<Line>, n: nat): Reading<(string, seq<CStmt>)> {
    if ls == [] || ls[0].indent != 0 || Between(ls[0].text, "", " {").None? then NotC
    else
      var (body, ls1) :- ReadAll(ls[1..], n);
      if |ls1| < 2 || ls1[0] != Line(0, "}") || ls1[1] != Line(0, "") then NotC
      else Reading((Between(ls[0].text, "", " {").value, body), ls1[2..])
  }

  // ---- what it reads ----------------------------------------------------------------------------

  /** The statements as C, with expressions as they are printed; a guard is a negated condition. */
  function Texts(ss: seq<Stmt>): seq<CStmt> {
    if ss == [] then [] else TextsOf(ss[0]) + Texts(ss[1..])
  }

  function TextsOf(s: Stmt): seq<CStmt> {
    match s
    case Let(decl, name, init) => [ReadSimple(decl + " " + name + " = " + Print(init) + ";")]
    case Do(Value(e)) => [ReadSimple(Print(e) + ";")]
    case Do(Store(target, op, value)) =>
      [ReadSimple(Print(target) + " " + (if IsAssignOp(op) then Spelling(op) else "=") + " " + Print(value) + ";")]
    case If(c, yes, no) => [Conditional(Print(c), Texts(yes), TextsOfOther(no))]
    case Guard(c, ss) => [Conditional("!(" + Print(c) + ")", Texts(ss), [])]
    case While(c, ss) => [Repeated(Print(c), Texts(ss))]
    case Return(value) => [Jump(GiveBack(if value.Some? then Some(Print(value.value)) else None))]
    case Break => [Jump(BreakOut)]
    case Continue => [Jump(GoOn)]
    case Defer(_) => []
  }

  function TextsOfOther(no: Alternative): seq<CStmt> {
    match no
    case Nothing => []
    case Else(ss) => Texts(ss)
    case ElseIf(c, yes, no') => [Conditional(Print(c), Texts(yes), TextsOfOther(no'))]
  }

  predicate IsAssignOp(k: Kind) {
    k.PlusEq? || k.MinusEq? || k.StarEq? || k.SlashEq? || k.PctEq? || k.AndEq? || k.OrEq? || k.XorEq? || k.ShlEq? || k.ShrEq?
  }

  /** Assignments are spelled as in the source. */
  lemma AssignIsSpelled(op: Kind)
    ensures AssignText(op) == if IsAssignOp(op) then Spelling(op) else "="
    ensures op.Assign? ==> AssignText(op) == Spelling(op)
  {}

  // ---- texts of lines ---------------------------------------------------------------------------

  lemma BetweenIs(a: string, x: string, b: string)
    ensures Between(a + x + b, a, b) == Some(x)
  {
    var t := a + x + b;
    assert t[..|a|] == a && t[|t| - |b|..] == b && t[|a|..|t| - |b|] == x;
  }

  /** A line that ends with a semicolon neither opens nor closes a block. */
  lemma SemicolonLine(t: string)
    requires t != "" && t[|t| - 1] == ';'
    ensures !IsClosing(t) && Between(t, "if (", ") {").None? && Between(t, "while (", ") {").None?
  {
    LastOf(t, "if (", ") {");
    LastOf(t, "while (", ") {");
  }

  lemma LastOf(t: string, a: string, b: string)
    requires t != "" && b != ""
    ensures Between(t, a, b).Some? ==> t[|t| - 1] == b[|b| - 1]
  {
    if Between(t, a, b).Some? {
      assert t[|t| - |b|..][|b| - 1] == t[|t| - 1];
    }
  }

  /** A line that opens a block does not close one, and is not taken for another. */
  lemma OpeningLine(x: string)
    ensures var t := "if (" + x + ") {"; !IsClosing(t) && Between(t, "if (", ") {") == Some(x)
    ensures var t := "while (" + x + ") {";
            !IsClosing(t) && Between(t, "while (", ") {") == Some(x) && Between(t, "if (", ") {").None?
  {
    BetweenIs("if (", x, ") {");
    BetweenIs("while (", x, ") {");
    assert ("if (" + x + ") {")[0] == 'i';
    var w := "while (" + x + ") {";
    assert w[0] == 'w' && w[..4][0] == 'w';
  }

  lemma GuardText(x: string)
    ensures "if (!(" + x + ")) {" == "if (" + ("!(" + x + ")") + ") {"
  {}

  // ---- reading back -----------------------------------------------------------------------------

  predicate IsEnd(rest: seq<Line>) {
    rest == [] || IsClosing(rest[0].text)
  }

  /** A line of its own. */
  lemma SimpleReads(t: string, n: nat, rest: seq<Line>)
    requires t != "" && t[|t| - 1] == ';'
    ensures ReadOne([Line(n, t)] + rest, n) == Reading(ReadSimple(t), rest) && !IsClosing(t)
  {
    hide ReadSimple, Between;
    SemicolonLine(t);
    assert ([Line(n, t)] + rest)[1..] == rest;
  }

  /** The lines of a block, and what closes it. */
  lemma BlockReads(body: seq<Stmt>, n: nat, close: Line, rest: seq<Line>)
    requires ReadAll(Render(body, n + 1) + ([close] + rest), n + 1) == Reading(Texts(body), [close] + rest)
    requires Between(close.text, "", "").Some?
    ensures var ls := Render(body, n + 1) + ([close] + rest);
            ReadAll(ls, n + 1).rest[0] == close && ReadAll(ls, n + 1).rest[1..] == rest
  {}

  lemma {:induction false} AllReads(ss: seq<Stmt>, n: nat, rest: seq<Line>)
    requires !UseOf(ss).defer_ && IsEnd(rest)
    ensures ReadAll(Render(ss, n) + rest, n) == Reading(Texts(ss), rest)
    decreases SizeAll(ss), 1
  {
    hide ReadOne, RenderStmt, TextsOf, UseOfStmt;
    if ss == [] {
      assert Render(ss, n) + rest == rest;
    } else {
      var more := Render(ss[1..], n) + rest;
      var first := RenderStmt(ss[0], n);
      NoDefer(ss[0]);
      OneReads(ss[0], n, more);
      AllReads(ss[1..], n, rest);
      assert Render(ss, n) + rest == first + more;
      assert (first + more)[0] == first[0];
      assert TextsOf(ss[0]) == [TextsOf(ss[0])[0]];
    }
  }

  lemma NoDefer(s: Stmt)
    requires !UseOfStmt(s).defer_
    ensures !s.Defer?
  {}

  lemma {:induction false} OneReads(s: Stmt, n: nat, rest: seq<Line>)
    requires !UseOfStmt(s).defer_ && !s.Defer?
    ensures RenderStmt(s, n) != [] && !IsClosing(RenderStmt(s, n)[0].text) && |TextsOf(s)| == 1
    ensures ReadOne(RenderStmt(s, n) + rest, n) == Reading(TextsOf(s)[0], rest)
    decreases Size(s), 2
  {
    hide ReadAll, ReadOne, ReadIf, Render, RenderIf, Texts, TextsOfOther, ReadSimple, Print, Between, UseOf, IsClosing;
    match s
    case If(c, yes, no) =>
      IfReads(c, yes, no, n, rest);
      OpenedByIf(c, yes, no, n, rest);
    case Guard(c, ss) => GuardReads(c, ss, n, rest);
    case While(c, ss) => WhileReads(c, ss, n, rest);
    case Let(decl, name, init) => SimpleReads(LetText(decl, name, init), n, rest);
    case Do(item) =>
      AssignIsSpelled(if item.Store? then item.op else Assign);
      ItemEnds(item);
      SimpleReads(ItemText(item), n, rest);
    case Return(value) =>
      var t := if value.Some? then "return " + Print(value.value) + ";" else "return;";
      ReturnText(value);
      SimpleReads(t, n, rest);
    case Break =>
      JumpTexts();
      SimpleReads("break;", n, rest);
    case Continue =>
      JumpTexts();
      SimpleReads("continue;", n, rest);
  }

  lemma ItemEnds(item: Item)
    ensures var t := ItemText(item); t != "" && t[|t| - 1] == ';'
    ensures item.Value? ==> ItemText(item) == Print(item.e) + ";"
    ensures item.Store? ==> ItemText(item) == Print(item.target) + " " + AssignText(item.op) + " " + Print(item.value) + ";"
  {
    hide Print, AssignText;
  }

  lemma JumpTexts()
    ensures ReadSimple("break;") == Jump(BreakOut) && ReadSimple("continue;") == Jump(GoOn)
  {}

  lemma ReturnText(value: Option<Expr>)
    ensures var t := if value.Some? then "return " + Print(value.value) + ";" else "return;";
            ReadSimple(t) == Jump(GiveBack(if value.Some? then Some(Print(value.value)) else None))
  {
    hide Print;
    if value.Some? {
      var x := Print(value.value);
      BetweenIs("return ", x, ";");
      var t := "return " + x + ";";
      assert t[0] == 'r' && |t| >= 8;
    }
  }

  lemma OpenedByIf(c: Expr, yes: seq<Stmt>, no: Alternative, n: nat, rest: seq<Line>)
    ensures var ls := RenderIf(c, yes, no, n);
            ls != [] && !IsClosing(ls[0].text) && ReadOne(ls + rest, n) == ReadIf(ls + rest, n)
  {
    hide Print, Render, RenderOther, ReadIf, Between, IsClosing;
    OpeningLine(Print(c));
  }

  lemma {:induction false} GuardReads(c: Expr, ss: seq<Stmt>, n: nat, rest: seq<Line>)
    requires !UseOf(ss).defer_
    ensures var ls := RenderStmt(Guard(c, ss), n);
            && ls != [] && !IsClosing(ls[0].text)
            && ReadOne(ls + rest, n) == Reading(Conditional("!(" + Print(c) + ")", Texts(ss), []), rest)
    decreases SizeAll(ss), 2
  {
    hide ReadAll, Render, Texts, Print, Between, UseOf, IsClosing;
    var t := "if (!(" + Print(c) + ")) {";
    var tail := [Line(n, "}")] + rest;
    GuardText(Print(c));
    OpeningLine("!(" + Print(c) + ")");
    ClosingLines(n, rest);
    AllReads(ss, n + 1, tail);
    assert RenderStmt(Guard(c, ss), n) + rest == [Line(n, t)] + (Render(ss, n + 1) + tail);
    var ls := [Line(n, t)] + (Render(ss, n + 1) + tail);
    assert ls[1..] == Render(ss, n + 1) + tail && tail[1..] == rest;
    assert ReadOne(ls, n) == ReadIf(ls, n);
  }

  lemma ClosingLines(n: nat, rest: seq<Line>)
    ensures IsEnd([Line(n, "}")] + rest) && IsEnd([Line(n, "} else {")] + rest) && IsEnd([Line(n, "} else ")] + rest)
  {}

  lemma {:induction false} WhileReads(c: Expr, ss: seq<Stmt>, n: nat, rest: seq<Line>)
    requires !UseOf(ss).defer_
    ensures var ls := RenderStmt(While(c, ss), n);
            && ls != [] && !IsClosing(ls[0].text)
            && ReadOne(ls + rest, n) == Reading(Repeated(Print(c), Texts(ss)), rest)
    decreases SizeAll(ss), 2
  {
    hide ReadAll, ReadIf, Render, Texts, Print, Between, UseOf, IsClosing;
    var t := "while (" + Print(c) + ") {";
    var tail := [Line(n, "}")] + rest;
    OpeningLine(Print(c));
    ClosingLines(n, rest);
    AllReads(ss, n + 1, tail);
    assert RenderStmt(While(c, ss), n) + rest == [Line(n, t)] + (Render(ss, n + 1) + tail);
    var ls := [Line(n, t)] + (Render(ss, n + 1) + tail);
    assert ls[1..] == Render(ss, n + 1) + tail && tail[1..] == rest;
  }

  lemma {:induction false} IfReads(c: Expr, yes: seq<Stmt>, no: Alternative, n: nat, rest: seq<Line>)
    requires !UseOf(yes).defer_ && !UseOfOther(no).defer_
    ensures ReadIf(RenderIf(c, yes, no, n) + rest, n) == Reading(Conditional(Print(c), Texts(yes), TextsOfOther(no)), rest)
    decreases SizeAll(yes) + SizeOther(no), 2
  {
    hide ReadAll, ReadOne, ReadIf, Render, Texts, Print, Between, UseOf, IsClosing;
    var open := Line(n, "if (" + Print(c) + ") {");
    OpeningLine(Print(c));
    var tail := RenderOther(no, n) + rest;
    assert RenderIf(c, yes, no, n) + rest == [open] + (Render(yes, n + 1) + tail);
    match no
    case Nothing =>
      ClosingLines(n, rest);
      AllReads(yes, n + 1, tail);
      IfStep(open, Print(c), Render(yes, n + 1), tail, Texts(yes), [], [], rest, n);
    case Else(ss) =>
      var inner := [Line(n, "}")] + rest;
      var else_ := Render(ss, n + 1) + inner;
      assert tail == [Line(n, "} else {")] + else_;
      ClosingLines(n, rest);
      ClosingLines(n, else_);
      AllReads(yes, n + 1, tail);
      AllReads(ss, n + 1, inner);
      IfStep(open, Print(c), Render(yes, n + 1), tail, Texts(yes), else_, Texts(ss), rest, n);
    case ElseIf(c', yes', no') =>
      var else_ := RenderIf(c', yes', no', n) + rest;
      assert tail == [Line(n, "} else ")] + else_;
      ClosingLines(n, else_);
      AllReads(yes, n + 1, tail);
      IfReads(c', yes', no', n, rest);
      IfStep(open, Print(c), Render(yes, n + 1), tail, Texts(yes), else_, TextsOfOther(no), rest, n);
  }

  /** One step of the reader, for each of the three lines that end the first block. */
  lemma IfStep(open: Line, c: string, block: seq<Line>, tail: seq<Line>, yes: seq<CStmt>, else_: seq<Line>, no: seq<CStmt>, rest: seq<Line>, n: nat)
    requires open.indent == n && Between(open.text, "if (", ") {") == Some(c)
    requires ReadAll(block + tail, n + 1) == Reading(yes, tail)
    requires || (tail == [Line(n, "}")] + rest && no == [])
             || (tail == [Line(n, "} else {")] + else_ && ReadAll(else_, n + 1) == Reading(no, [Line(n, "}")] + rest))
             || (tail == [Line(n, "} else ")] + else_ && else_ != [] && |no| == 1 && ReadIf(else_, n) == Reading(no[0], rest))
    ensures ReadIf([open] + (block + tail), n) == Reading(Conditional(c, yes, no), rest)
  {
    hide ReadAll, Between;
    var ls := [open] + (block + tail);
    assert ls[1..] == block + tail && ([Line(n, "}")] + rest)[1..] == rest;
    if tail[0].text == "}" {
      assert tail[1..] == rest;
    } else {
      assert tail[1..] == else_;
      assert |no| == 1 ==> [no[0]] == no;
    }
  }

  // ---- functions --------------------------------------------------------------------------------

  /** Lowered code has no defers left. */
  lemma {:induction false} LoweredHasNoDefer(ss: seq<Stmt>, stack: DeferStack)
    requires HoldsSimple(ss) && forall body <- stack :: IsSimple(body)
    ensures !UseOf(Lower(ss, stack).0).defer_ && forall body <- Lower(ss, stack).1 :: IsSimple(body)
    decreases ss
  {
    hide UseOfStmt, HoldsSimpleStmt, LowerStmt;
    if ss != [] {
      StmtHasNoDefer(ss[0], stack);
      LoweredHasNoDefer(ss[1..], LowerStmt(ss[0], stack).1);
      UseAppend(LowerStmt(ss[0], stack).0, Lower(ss[1..], LowerStmt(ss[0], stack).1).0);
    }
  }

  lemma {:induction false} StmtHasNoDefer(s: Stmt, stack: DeferStack)
    requires HoldsSimpleStmt(s) && forall body <- stack :: IsSimple(body)
    ensures !UseOf(LowerStmt(s, stack).0).defer_ && forall body <- LowerStmt(s, stack).1 :: IsSimple(body)
    decreases s
  {
    hide Print, HoldsSimple, Lower;
    match s
    case If(c, yes, no) =>
      LoweredHasNoDefer(yes, stack);
      OtherHasNoDefer(no, Lower(yes, stack).1);
    case Guard(c, ss) => LoweredHasNoDefer(ss, stack);
    case While(c, ss) => LoweredHasNoDefer(ss, stack);
    case Return(value) =>
      InlineHasNoDefer(stack);
      UseAppend(Inline(stack), [s]);
      if value.Some? {
        var last := [Return(Some(Expr.Ident(RET_VAL, [])))];
        UseAppend([Temporary(value.value)], Inline(stack));
        UseAppend([Temporary(value.value)] + Inline(stack), last);
      }
    case Let(_, _, _) =>
    case Do(_) =>
    case Break =>
    case Continue =>
    case Defer(body) =>
  }

  lemma {:induction false} OtherHasNoDefer(no: Alternative, stack: DeferStack)
    requires HoldsSimpleOther(no) && forall body <- stack :: IsSimple(body)
    ensures !UseOfOther(LowerOther(no, stack).0).defer_ && forall body <- LowerOther(no, stack).1 :: IsSimple(body)
    decreases no
  {
    hide HoldsSimple, Lower, UseOf;
    match no
    case Nothing =>
    case Else(ss) => LoweredHasNoDefer(ss, stack);
    case ElseIf(c, yes, no') =>
      LoweredHasNoDefer(yes, stack);
      OtherHasNoDefer(no', Lower(yes, stack).1);
  }

  lemma {:induction false} InlineHasNoDefer(stack: DeferStack)
    requires forall body <- stack :: IsSimple(body)
    ensures !UseOf(Inline(stack)).defer_
    decreases |stack|
  {
    hide UseOfStmt;
    if stack != [] {
      assert stack[0] in stack && forall body <- stack[1..] :: body in stack;
      InlineHasNoDefer(stack[1..]);
      UseAppend(stack[0], Inline(stack[1..]));
    }
  }

  /** For every function body: reading the lines written for it gives the header, and the lowered body
      with its expressions as they are printed. */
  lemma FunctionReads(header: string, body: seq<Stmt>, n: nat, rest: seq<Line>)
    requires HoldsSimple(body)
    ensures !UseOf(LowerBody(body)).defer_
    ensures ReadFunction([Line(0, header + " {")] + Render(LowerBody(body), n) + [Line(0, "}"), Line(0, "")] + rest, n)
         == Reading((header, Texts(LowerBody(body))), rest)
  {
    hide Lower, Inline, Render, Texts, ReadAll, HoldsSimple, UseOf;
    LoweredHasNoDefer(body, []);
    InlineHasNoDefer(Lower(body, []).1);
    UseAppend(Lower(body, []).0, Inline(Lower(body, []).1));
    var lines := Render(LowerBody(body), n);
    var end := [Line(0, "}"), Line(0, "")] + rest;
    var ls := [Line(0, header + " {")] + lines + [Line(0, "}"), Line(0, "")] + rest;
    assert ls[1..] == lines + end && end[2..] == rest;
    AllReads(LowerBody(body), n, end);
    BetweenIs("", header, " {");
    assert "" + header + " {" == header + " {";
  }
}
