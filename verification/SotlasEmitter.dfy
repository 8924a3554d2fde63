/** The C emitter for function bodies, writing lines to a buffer, with its stack of defers. */
module SotlasEmitter {
  import opened Options
  import opened SotlasTokens
  import opened SotlasParsing
  import opened SotlasPrinting
  import opened SotlasDefer
  import opened SotlasDeferSound

  datatype Line = Line(indent: nat, text: string)

  function AssignText(op: Kind): string {
    if op.PlusEq? then "+=" else if op.MinusEq? then "-=" else if op.StarEq? then "*=" else if op.SlashEq? then "/="
    else if op.PctEq? then "%=" else if op.AndEq? then "&=" else if op.OrEq? then "|=" else if op.XorEq? then "^="
    else if op.ShlEq? then "<<=" else if op.ShrEq? then ">>=" else "="
  }

  function ItemText(item: Item): string {
    match item
    case Value(e) => Print(e) + ";"
    case Store(target, op, value) => Print(target) + " " + AssignText(op) + " " + Print(value) + ";"
  }

  function LetText(decl: string, name: string, init: Expr): string {
    decl + " " + name + " = " + Print(init) + ";"
  }

  /** The lines of statements without defers, at an indentation. */
  function Render(ss: seq<Stmt>, n: nat): seq<Line>
    decreases SizeAll(ss), 0
  {
    if ss == [] then [] else RenderStmt(ss[0], n) + Render(ss[1..], n)
  }

  function RenderStmt(s: Stmt, n: nat): seq<Line>
    decreases Size(s), 0
  {
    match s
    case Let(decl, name, init) => [Line(n, LetText(decl, name, init))]
    case Do(item) => [Line(n, ItemText(item))]
    case If(c, yes, no) => RenderIf(c, yes, no, n)
    case Guard(c, ss) => [Line(n, "if (!(" + Print(c) + ")) {")] + Render(ss, n + 1) + [Line(n, "}")]
    case While(c, ss) => [Line(n, "while (" + Print(c) + ") {")] + Render(ss, n + 1) + [Line(n, "}")]
    case Return(value) => [Line(n, if value.Some? then "return " + Print(value.value) + ";" else "return;")]
    case Break => [Line(n, "break;")]
    case Continue => [Line(n, "continue;")]
    case Defer(_) => []
  }

  function RenderIf(c: Expr, yes: seq<Stmt>, no: Alternative, n: nat): seq<Line>
    decreases SizeAll(yes) + SizeOther(no), 1
  {
    [Line(n, "if (" + Print(c) + ") {")] + Render(yes, n + 1) + RenderOther(no, n)
  }

  function RenderOther(no: Alternative, n: nat): seq<Line>
    decreases SizeOther(no), 0
  {
    match no
    case Nothing => [Line(n, "}")]
    case Else(ss) => [Line(n, "} else {")] + Render(ss, n + 1) + [Line(n, "}")]
    case ElseIf(c, yes, no') => [Line(n, "} else ")] + RenderIf(c, yes, no', n)
  }

  lemma {:induction false} RenderConcat(a: seq<Stmt>, b: seq<Stmt>, n: nat)
    ensures Render(a + b, n) == Render(a, n) + Render(b, n)
    decreases |a|
  {
    hide RenderStmt;
    if a == [] {
      assert a + b == b;
    } else {
      assert (a + b)[1..] == a[1..] + b;
      RenderConcat(a[1..], b, n);
    }
  }

  lemma RenderNone(n: nat)
    ensures Render([], n) == []
  {}

  lemma RenderOne(s: Stmt, n: nat)
    ensures Render([s], n) == RenderStmt(s, n)
  {
    hide RenderStmt;
    assert Render([], n) == [];
  }

  /** What a defer may hold for the emitter to terminate: no return, which would emit the same defers
      again, and no further defer. */
  predicate IsSimple(ss: seq<Stmt>) {
    !UseOf(ss).defer_ && !UseOf(ss).return_
  }

  predicate HoldsSimple(ss: seq<Stmt>) {
    ss == [] || (HoldsSimpleStmt(ss[0]) && HoldsSimple(ss[1..]))
  }

  predicate HoldsSimpleStmt(s: Stmt) {
    match s
    case If(_, yes, no) => HoldsSimple(yes) && HoldsSimpleOther(no)
    case Guard(_, ss) => HoldsSimple(ss)
    case While(_, ss) => HoldsSimple(ss)
    case Defer(ss) => IsSimple(ss)
    case Let(_, _, _) => true
    case Do(_) => true
    case Return(_) => true
    case Break => true
    case Continue => true
  }

  predicate HoldsSimpleOther(no: Alternative) {
    match no
    case Nothing => true
    case Else(ss) => HoldsSimple(ss)
    case ElseIf(_, yes, no') => HoldsSimple(yes) && HoldsSimpleOther(no')
  }

  /** Simple statements are lowered to themselves, whatever is on the stack. */
  lemma {:induction false} SimpleIsKept(ss: seq<Stmt>, stack: DeferStack)
    requires IsSimple(ss)
    ensures Lower(ss, stack) == (ss, stack) && HoldsSimple(ss)
    decreases ss
  {
    if ss == [] {
    } else {
      SimpleStmtIsKept(ss[0], stack);
      SimpleIsKept(ss[1..], stack);
      assert [ss[0]] + ss[1..] == ss;
    }
  }

  lemma {:induction false} SimpleStmtIsKept(s: Stmt, stack: DeferStack)
    requires !UseOfStmt(s).defer_ && !UseOfStmt(s).return_
    ensures LowerStmt(s, stack) == ([s], stack) && HoldsSimpleStmt(s)
    decreases s
  {
    if s.If? {
      SimpleIsKept(s.yes, stack);
      SimpleOtherIsKept(s.no, stack);
    } else if s.Guard? {
      SimpleIsKept(s.otherwise, stack);
    } else if s.While? {
      SimpleIsKept(s.body, stack);
    }
  }

  lemma {:induction false} SimpleOtherIsKept(no: Alternative, stack: DeferStack)
    requires !UseOfOther(no).defer_ && !UseOfOther(no).return_
    ensures LowerOther(no, stack) == (no, stack) && HoldsSimpleOther(no)
    decreases no
  {
    if no.Else? {
      SimpleIsKept(no.body, stack);
    } else if no.ElseIf? {
      SimpleIsKept(no.yes, stack);
      SimpleOtherIsKept(no.no, stack);
    }
  }

  /** The stack in the order in which it is run, from the list it is kept in. */
  function TopFirst(list: DeferStack): DeferStack {
    if list == [] then [] else [list[|list| - 1]] + TopFirst(list[..|list| - 1])
  }

  lemma TopFirstPush(list: DeferStack, body: seq<Stmt>)
    ensures TopFirst(list + [body]) == [body] + TopFirst(list)
  {
    assert (list + [body])[..|list|] == list;
  }

  lemma PrintName(x: string)
    ensures Print(Expr.Ident(x, [])) == x
  {}

  class CodegenC {
    var out: seq<Line>
    var indent: nat
    var deferStack: seq<seq<Stmt>>

    constructor ()
      ensures out == [] && indent == 0 && deferStack == []
    {
      out, indent, deferStack := [], 0, [];
    }

    predicate Ready()
      reads this
    {
      forall body <- deferStack :: IsSimple(body)
    }

    function Stack(): DeferStack
      reads this
    {
      TopFirst(deferStack)
    }

    method WriteLine(text: string)
      modifies this`out
      ensures out == old(out) + [Line(indent, text)]
    {
      out := out + [Line(indent, text)];
    }

    method Dedent()
      modifies this`indent
      ensures indent == if old(indent) == 0 then 0 else old(indent) - 1
    {
      indent := if indent == 0 then 0 else indent - 1;
    }

    /** Every loop over the statements of a block. */
    method EmitAll(ss: seq<Stmt>)
      requires Ready() && HoldsSimple(ss)
      modifies this
      ensures Ready() && indent == old(indent)
      ensures out == old(out) + Render(Lower(ss, old(Stack())).0, indent)
      ensures Stack() == Lower(ss, old(Stack())).1
      ensures !UseOf(ss).defer_ ==> deferStack == old(deferStack)
      decreases if UseOf(ss).return_ then 2 else 0, SizeAll(ss), 2
    {
      hide LowerStmt, RenderStmt, UseOfStmt, TopFirst, HoldsSimpleStmt, Size;
      var i := 0;
      assert ss[0..] == ss;
      while i < |ss|
        invariant 0 <= i <= |ss|
        invariant Ready() && indent == old(indent) && HoldsSimple(ss[i..])
        invariant old(out) + Render(Lower(ss, old(Stack())).0, indent) == out + Render(Lower(ss[i..], Stack()).0, indent)
        invariant Lower(ss, old(Stack())).1 == Lower(ss[i..], Stack()).1
        invariant !UseOf(ss).defer_ ==> deferStack == old(deferStack)
      {
        Element(ss, i);
        assert ss[i..][1..] == ss[i + 1..];
        RenderConcat(LowerStmt(ss[i], Stack()).0, Lower(ss[i + 1..], LowerStmt(ss[i], Stack()).1).0, indent);
        EmitStmt(ss[i]);
        i := i + 1;
      }
    }

    /** The defers on the stack, last registered first. */
    method EmitDefers()
      requires Ready()
      modifies this
      ensures Ready() && indent == old(indent) && deferStack == old(deferStack)
      ensures out == old(out) + Render(Inline(Stack()), indent)
      decreases 1, 0, 0
    {
      hide RenderStmt, Lower, LowerStmt, UseOf, HoldsSimple, Size;
      var i := |deferStack|;
      assert deferStack[..i] == deferStack;
      while i > 0
        invariant 0 <= i <= |deferStack|
        invariant Ready() && indent == old(indent) && deferStack == old(deferStack)
        invariant old(out) + Render(Inline(Stack()), indent) == out + Render(Inline(TopFirst(deferStack[..i])), indent)
      {
        i := i - 1;
        var body := deferStack[i];
        assert deferStack[..i + 1][..i] == deferStack[..i];
        RenderConcat(body, Inline(TopFirst(deferStack[..i])), indent);
        SimpleIsKept(body, Stack());
        EmitAll(body);
      }
    }

    method EmitStmt(s: Stmt)
      requires Ready() && HoldsSimpleStmt(s)
      modifies this
      ensures Ready() && indent == old(indent)
      ensures out == old(out) + Render(LowerStmt(s, old(Stack())).0, indent)
      ensures Stack() == LowerStmt(s, old(Stack())).1
      ensures !UseOfStmt(s).defer_ ==> deferStack == old(deferStack)
      decreases if UseOfStmt(s).return_ then 2 else 0, Size(s), 1
    {
      hide Print, Lower, Render, RenderOther, UseOf, TopFirst, HoldsSimple, Inline, LetText, ItemText;
      match s
      case Let(decl, name, init) =>
        RenderOne(s, indent);
        WriteLine(LetText(decl, name, init));
      case Do(item) =>
        RenderOne(s, indent);
        WriteLine(ItemText(item));
      case If(c, yes, no) =>
        RenderOne(LowerStmt(s, Stack()).0[0], indent);
        EmitIf(c, yes, no);
      case Guard(c, ss) =>
        RenderOne(LowerStmt(s, Stack()).0[0], indent);
        WriteLine("if (!(" + Print(c) + ")) {");
        EmitIndented(ss);
        WriteLine("}");
      case While(c, ss) =>
        RenderOne(LowerStmt(s, Stack()).0[0], indent);
        WriteLine("while (" + Print(c) + ") {");
        EmitIndented(ss);
        WriteLine("}");
      case Defer(body) =>
        RenderNone(indent);
        TopFirstPush(deferStack, body);
        deferStack := deferStack + [body];
      case Return(value) =>
        EmitReturn(s);
      case Break =>
        RenderOne(s, indent);
        WriteLine("break;");
      case Continue =>
        RenderOne(s, indent);
        WriteLine("continue;");
    }

    method EmitIndented(ss: seq<Stmt>)
      requires Ready() && HoldsSimple(ss)
      modifies this
      ensures Ready() && indent == old(indent)
      ensures out == old(out) + Render(Lower(ss, old(Stack())).0, indent + 1)
      ensures Stack() == Lower(ss, old(Stack())).1
      ensures !UseOf(ss).defer_ ==> deferStack == old(deferStack)
      decreases if UseOf(ss).return_ then 2 else 0, SizeAll(ss), 3
    {
      indent := indent + 1;
      EmitAll(ss);
      Dedent();
    }

    method EmitReturn(s: Stmt)
      requires Ready() && s.Return?
      modifies this
      ensures Ready() && indent == old(indent) && deferStack == old(deferStack)
      ensures out == old(out) + Render(LowerStmt(s, old(Stack())).0, indent)
      decreases 2, 0, 0
    {
      hide Render, Lower, UseOf, HoldsSimple, Inline, JoinPath;
      if s.value.Some? && deferStack != [] {
        var text := Print(s.value.value);
        var last := Return(Some(Expr.Ident(RET_VAL, [])));
        RenderOne(Temporary(s.value.value), indent);
        RenderOne(last, indent);
        RenderConcat([Temporary(s.value.value)] + Inline(Stack()), [last], indent);
        RenderConcat([Temporary(s.value.value)], Inline(Stack()), indent);
        WriteLine(LetText("__typeof__(" + text + ")", RET_VAL, s.value.value));
        EmitDefers();
        PrintName(RET_VAL);
        WriteLine("return " + RET_VAL + ";");
      } else if deferStack != [] {
        RenderOne(s, indent);
        RenderConcat(Inline(Stack()), [s], indent);
        EmitDefers();
        WriteLine("return;");
      } else {
        RenderOne(s, indent);
        if s.value.Some? {
          WriteLine("return " + Print(s.value.value) + ";");
        } else {
          WriteLine("return;");
        }
      }
    }

    method EmitIf(c: Expr, yes: seq<Stmt>, no: Alternative)
      requires Ready() && HoldsSimple(yes) && HoldsSimpleOther(no)
      modifies this
      ensures Ready() && indent == old(indent)
      ensures var (yes1, stack1) := Lower(yes, old(Stack()));
              var (no1, stack2) := LowerOther(no, stack1);
              out == old(out) + RenderIf(c, yes1, no1, indent) && Stack() == stack2
      ensures !UseOf(yes).defer_ && !UseOfOther(no).defer_ ==> deferStack == old(deferStack)
      decreases if UseOf(yes).return_ || UseOfOther(no).return_ then 2 else 0, SizeAll(yes) + SizeOther(no), 4
    {
      hide Print, Lower, LowerStmt, Render, RenderStmt, UseOf, TopFirst, HoldsSimple, Size;
      WriteLine("if (" + Print(c) + ") {");
      EmitIndented(yes);
      match no
      case Nothing =>
        WriteLine("}");
      case ElseIf(c', yes', no') =>
        WriteLine("} else ");
        EmitIf(c', yes', no');
      case Else(ss) =>
        WriteLine("} else {");
        EmitIndented(ss);
        WriteLine("}");
    }

    /** A function: its first and last line are not indented, and the stack is its own while its body
        is emitted. */
    method EmitFn(header: string, body: seq<Stmt>)
      requires Ready() && HoldsSimple(body)
      modifies this
      ensures Ready() && indent == old(indent) && deferStack == old(deferStack)
      ensures out == old(out) + [Line(0, header + " {")] + Render(LowerBody(body), indent + 1) + [Line(0, "}"), Line(0, "")]
    {
      hide Render, Lower, UseOf, HoldsSimple, Inline;
      out := out + [Line(0, header + " {")];
      indent := indent + 1;
      var oldDefers := deferStack;
      deferStack := [];
      EmitAll(body);
      RenderConcat(Lower(body, []).0, Inline(Stack()), indent);
      EmitDefers();
      deferStack := oldDefers;
      Dedent();
      out := out + [Line(0, "}"), Line(0, "")];
    }
  }

  lemma {:induction false} Element(ss: seq<Stmt>, i: nat)
    requires i < |ss|
    ensures Size(ss[i]) < SizeAll(ss)
    ensures UseOfStmt(ss[i]).return_ ==> UseOf(ss).return_
    ensures UseOfStmt(ss[i]).defer_ ==> UseOf(ss).defer_
    decreases i
  {
    if i > 0 {
      Element(ss[1..], i - 1);
    }
  }
}
