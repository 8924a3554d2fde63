/** When lowering `defer` preserves the meaning of a body: exactly if no exit that can be reached
    captures a name. For every capture there is an interpretation that shows it. */
module SotlasDeferExact {
  import opened Options
  import opened SotlasTokens
  import opened SotlasParsing
  import opened SotlasDefer
  import opened SotlasDeferSound
  import opened SotlasDeferTheorem

  // ---- an interpretation that follows a script ------------------------------------

  /** Give: evaluate to this value. Probe: stop the program and leave what x is seen to be. */
  datatype Command = Give(value: int) | Probe(name: string) | Saw(seen: Option<int>)

  type Script = seq<Command>

  function Answer(item: Item, locals: map<string, int>, script: Script): Reply<int, Script> {
    if item == Value(READ_BACK) && RET_VAL in locals then Reply(locals[RET_VAL], map[], script, false)
    else if script == [] then Reply(0, map[], [], true)
    else
      match script[0]
      case Give(v) => Reply(v, map[], script[1..], false)
      case Probe(x) => Reply(0, map[], [Saw(if x in locals then Some(locals[x]) else None)], true)
      case Saw(_) => Reply(0, map[], script, true)
  }

  function Scripted(): Interp<int, Script> {
    Interp(Answer, v => v != 0)
  }

  lemma ScriptedReadsTemporary()
    ensures ReadsTemporary(Scripted())
  {}

  function Seen(env: Env<int>, x: string): Option<int> {
    if x in Scope(env) then Some(Lookup(env, x)) else None
  }

  lemma EvalGive(item: Item, env: Env<int>, v: int, script: Script)
    requires item != Value(READ_BACK)
    ensures Eval(Scripted(), item, env, [Give(v)] + script) == Evaluated(v, env, script, false)
  {
    hide Scope, Lookup, Update, ItemNames;
    var none: map<string, int> := map[];
    UpdateElsewhere(env, none);
    assert ([Give(v)] + script)[1..] == script;
  }

  lemma EvalProbe(item: Item, env: Env<int>, x: string)
    requires item != Value(READ_BACK) && x in ItemNames(item)
    ensures Eval(Scripted(), item, env, [Probe(x)]) == Evaluated(0, env, [Saw(Seen(env, x))], true)
  {
    hide Scope, Lookup, Update, ItemNames;
    var none: map<string, int> := map[];
    UpdateElsewhere(env, none);
    assert x in View(env, ItemNames(item)) <==> x in Scope(env);
  }

  // ---- bodies that do not read the temporary themselves --------------------------

  /** No statement, initial value or condition is the temporary by itself, and no return value
      either if `returns`. */
  predicate Asks(ss: seq<Stmt>, returns_: bool) {
    ss == [] || (AsksStmt(ss[0], returns_) && Asks(ss[1..], returns_))
  }

  predicate AsksStmt(s: Stmt, returns_: bool) {
    match s
    case Let(_, _, init) => init != READ_BACK
    case Do(item) => item != Value(READ_BACK)
    case If(c, yes, no) => c != READ_BACK && Asks(yes, returns_) && AsksOther(no, returns_)
    case Guard(c, ss) => c != READ_BACK && Asks(ss, returns_)
    case While(c, ss) => c != READ_BACK && Asks(ss, returns_)
    case Return(value) => returns_ ==> value != Some(READ_BACK)
    case Break => true
    case Continue => true
    case Defer(ss) => Asks(ss, returns_)
  }

  predicate AsksOther(no: Alternative, returns_: bool) {
    match no
    case Nothing => true
    case Else(ss) => Asks(ss, returns_)
    case ElseIf(c, yes, no') => c != READ_BACK && Asks(yes, returns_) && AsksOther(no', returns_)
  }

  // ---- a way behind a list ----------------------------------------------------------

  /** The answers with which a list ends normally; what it declares becomes 1. */
  function Way(ss: seq<Stmt>): Script
    requires Ends(ss)
  {
    if ss == [] then [] else WayStmt(ss[0]) + Way(ss[1..])
  }

  function WayStmt(s: Stmt): Script
    requires EndsStmt(s)
  {
    match s
    case Let(_, _, _) => [Give(1)]
    case Do(_) => [Give(1)]
    case If(_, yes, no) => if Ends(yes) then [Give(1)] + Way(yes) else [Give(0)] + WayOther(no)
    case Guard(_, _) => [Give(1)]
    case While(_, _) => [Give(0)]
    case Defer(_) => []
  }

  function WayOther(no: Alternative): Script
    requires EndsOther(no)
  {
    match no
    case Nothing => []
    case Else(ss) => Way(ss)
    case ElseIf(_, yes, no') => if Ends(yes) then [Give(1)] + Way(yes) else [Give(0)] + WayOther(no')
  }

  function Filled(names: seq<string>, v: int): (env: Env<int>)
    ensures Scope(env) == names
  {
    if names == [] then [] else [Binding(names[0], v)] + Filled(names[1..], v)
  }

  lemma {:induction false} FilledAppend(a: seq<string>, b: seq<string>, v: int)
    ensures Filled(a + b, v) == Filled(a, v) + Filled(b, v)
    decreases |a|
  {
    if a == [] {
      assert a + b == b;
    } else {
      assert (a + b)[1..] == a[1..] + b;
      FilledAppend(a[1..], b, v);
    }
  }

  lemma {:induction false} FilledSeen(names: seq<string>, v: int, x: string)
    ensures Seen(Filled(names, v), x) == if x in names then Some(v) else None
    decreases |names|
  {
    if names != [] && names[0] != x {
      FilledSeen(names[1..], v, x);
    }
  }

  lemma WayParts(ss: seq<Stmt>)
    requires ss != [] && Ends(ss)
    ensures EndsStmt(ss[0]) && Ends(ss[1..]) && Way(ss) == WayStmt(ss[0]) + Way(ss[1..])
    ensures DeclaredBy(ss) == DeclaredBy(ss[1..]) + NamesAfter(ss[0], [])
  {}

  lemma {:induction false} WayRuns(ss: seq<Stmt>, env: Env<int>, script: Script, limit: nat)
    requires Ends(ss) && !UseOf(ss).defer_ && Asks(ss, false)
    ensures Exec(Scripted(), ss, env, Way(ss) + script, [], limit) == Result(Normal, Filled(DeclaredBy(ss), 1) + env, script)
    decreases SizeAll(ss), 2
  {
    hide Exec, Step, Scope, Way, WayStmt, DeclaredBy, Filled, Scripted, NamesAfter, Ends, EndsStmt;
    if ss == [] {
      NoWay(env, script);
      ExecEmpty(Scripted(), env, script, limit);
    } else {
      WayParts(ss);
      var rest := Way(ss[1..]) + script;
      Assoc3(WayStmt(ss[0]), Way(ss[1..]), script);
      ExecCons(Scripted(), ss, env, Way(ss) + script, limit);
      WayStmtRuns(ss[0], env, rest, limit);
      var own := NamesAfter(ss[0], []);
      WayRuns(ss[1..], Filled(own, 1) + env, script, limit);
      FilledAppend(DeclaredBy(ss[1..]), own, 1);
      Assoc3(Filled(DeclaredBy(ss[1..]), 1), Filled(own, 1), env);
    }
  }

  lemma NoWay(env: Env<int>, script: Script)
    ensures Way([]) + script == script && Filled(DeclaredBy([]), 1) + env == env
  {}

  lemma Assoc3<T>(a: seq<T>, b: seq<T>, c: seq<T>)
    ensures (a + b) + c == a + (b + c)
  {}

  lemma FilledOf(s: Stmt, env: Env<int>)
    ensures s.Let? ==> Filled(NamesAfter(s, []), 1) + env == [Binding(s.name, 1)] + env
    ensures !s.Let? ==> Filled(NamesAfter(s, []), 1) + env == env
  {
    if s.Let? {
      assert [s.name][1..] == [];
      assert Filled([s.name], 1) == [Binding(s.name, 1)];
    }
  }

  lemma {:induction false} WayStmtRuns(s: Stmt, env: Env<int>, script: Script, limit: nat)
    requires EndsStmt(s) && !UseOfStmt(s).defer_ && AsksStmt(s, false)
    ensures Step(Scripted(), s, env, WayStmt(s) + script, limit) == Result(Normal, Filled(NamesAfter(s, []), 1) + env, script)
    decreases Size(s), 4
  {
    hide Eval, Scope, Branch, Loop, Block, Keeps, Trim, Way, Ends;
    FilledOf(s, env);
    if s.If? {
      WayBranchRuns(s.condition, s.yes, s.no, env, script, limit);
    } else if s.Let? {
      EvalGive(Value(s.init), env, 1, script);
    } else if s.Do? {
      EvalGive(s.item, env, 1, script);
    } else if s.Guard? {
      EvalGive(Value(s.condition), env, 1, script);
    } else if s.While? {
      EvalGive(Value(s.condition), env, 0, script);
      LoopEnd(Scripted(), s.condition, s.body, env, [Give(0)] + script, limit, limit);
    }
  }

  lemma {:induction false} WayBlockRuns(ss: seq<Stmt>, env: Env<int>, script: Script, limit: nat)
    requires Ends(ss) && !UseOf(ss).defer_ && Asks(ss, false)
    ensures Block(Scripted(), ss, env, Way(ss) + script, limit) == Result(Normal, env, script)
    decreases SizeAll(ss), 3
  {
    hide Exec, Scope, Way, Ends;
    WayRuns(ss, env, script, limit);
    assert Trim(Filled(DeclaredBy(ss), 1) + env, |env|) == env;
  }

  lemma {:induction false} WayBranchRuns(c: Expr, yes: seq<Stmt>, no: Alternative, env: Env<int>, script: Script, limit: nat)
    requires (Ends(yes) || EndsOther(no)) && !UseOf(yes).defer_ && !UseOfOther(no).defer_
    requires c != READ_BACK && Asks(yes, false) && AsksOther(no, false)
    ensures var way := if Ends(yes) then [Give(1)] + Way(yes) else [Give(0)] + WayOther(no);
            Branch(Scripted(), c, yes, no, env, way + script, limit) == Result(Normal, env, script)
    decreases SizeAll(yes) + SizeOther(no), 4
  {
    hide Eval, Exec, Scope, Block, Keeps, Trim, Way, Ends;
    if Ends(yes) {
      assert ([Give(1)] + Way(yes)) + script == [Give(1)] + (Way(yes) + script);
      EvalGive(Value(c), env, 1, Way(yes) + script);
      WayBlockRuns(yes, env, script, limit);
    } else {
      assert ([Give(0)] + WayOther(no)) + script == [Give(0)] + (WayOther(no) + script);
      EvalGive(Value(c), env, 0, WayOther(no) + script);
      if no.Else? {
        WayBlockRuns(no.body, env, script, limit);
      } else if no.ElseIf? {
        WayBranchRuns(no.condition, no.yes, no.no, env, script, limit);
      } else {
        assert [] + script == script;
      }
    }
  }

  // ---- a probe of a name that a list takes from outside -------------------------------

  function ProbeWay(ss: seq<Stmt>, x: string): Script
    requires x in Free(ss)
  {
    if x in FreeStmt(ss[0]) then ProbeWayStmt(ss[0], x) else WayStmt(ss[0]) + ProbeWay(ss[1..], x)
  }

  function ProbeWayStmt(s: Stmt, x: string): Script
    requires x in FreeStmt(s)
  {
    match s
    case Let(_, _, _) => [Probe(x)]
    case Do(_) => [Probe(x)]
    case Return(_) => [Probe(x)]
    case If(c, yes, no) =>
      if x in Names(c) then [Probe(x)]
      else if x in Free(yes) then [Give(1)] + ProbeWay(yes, x)
      else [Give(0)] + ProbeWayOther(no, x)
    case Guard(c, ss) => if x in Names(c) then [Probe(x)] else [Give(0)] + ProbeWay(ss, x)
    case While(c, ss) => if x in Names(c) then [Probe(x)] else [Give(1)] + ProbeWay(ss, x)
    case Defer(ss) => []
  }

  function ProbeWayOther(no: Alternative, x: string): Script
    requires x in FreeOther(no)
  {
    match no
    case Else(ss) => ProbeWay(ss, x)
    case ElseIf(c, yes, no') =>
      if x in Names(c) then [Probe(x)]
      else if x in Free(yes) then [Give(1)] + ProbeWay(yes, x)
      else [Give(0)] + ProbeWayOther(no', x)
  }

  /** The run stopped with this sight of x. */
  predicate Stopped(r: Result<int, Script>, seen: Option<int>) {
    r.flow == Halted && r.world == [Saw(seen)]
  }

  lemma SeenBelow(names: seq<string>, env: Env<int>, x: string)
    requires x !in names
    ensures Seen(Filled(names, 1) + env, x) == Seen(env, x)
  {
    hide Scope, Lookup;
    LookupAppend(Filled(names, 1), env, x);
  }

  lemma ProbeParts(ss: seq<Stmt>, x: string)
    requires x in Free(ss)
    ensures ss != []
    ensures x in FreeStmt(ss[0]) ==> ProbeWay(ss, x) == ProbeWayStmt(ss[0], x)
    ensures x !in FreeStmt(ss[0]) ==>
              && EndsStmt(ss[0]) && x in Free(ss[1..]) && x !in NamesAfter(ss[0], [])
              && ProbeWay(ss, x) == WayStmt(ss[0]) + ProbeWay(ss[1..], x)
  {}

  lemma {:induction false} ProbeRuns(ss: seq<Stmt>, x: string, env: Env<int>, limit: nat)
    requires x in Free(ss) && !UseOf(ss).defer_ && Asks(ss, true) && limit > 0
    ensures Stopped(Exec(Scripted(), ss, env, ProbeWay(ss, x), [], limit), Seen(env, x))
    decreases SizeAll(ss), 2
  {
    hide Exec, Step, Scope, Scripted, NamesAfter, Ends, EndsStmt, Free, FreeStmt, ProbeWay, ProbeWayStmt, WayStmt, Seen;
    ProbeParts(ss, x);
    ExecCons(Scripted(), ss, env, ProbeWay(ss, x), limit);
    if x in FreeStmt(ss[0]) {
      ProbeStmtRuns(ss[0], x, env, limit);
    } else {
      LessAsked(ss[0]);
      WayStmtRuns(ss[0], env, ProbeWay(ss[1..], x), limit);
      var own := NamesAfter(ss[0], []);
      SeenBelow(own, env, x);
      ProbeRuns(ss[1..], x, Filled(own, 1) + env, limit);
    }
  }

  lemma {:induction false} LessAsked(s: Stmt)
    requires AsksStmt(s, true)
    ensures AsksStmt(s, false)
    decreases s
  {
    if s.If? {
      LessAskedAll(s.yes);
      LessAskedOther(s.no);
    } else if s.Guard? {
      LessAskedAll(s.otherwise);
    } else if s.While? {
      LessAskedAll(s.body);
    } else if s.Defer? {
      LessAskedAll(s.deferred);
    }
  }

  lemma {:induction false} LessAskedAll(ss: seq<Stmt>)
    requires Asks(ss, true)
    ensures Asks(ss, false)
    decreases ss
  {
    if ss != [] {
      LessAsked(ss[0]);
      LessAskedAll(ss[1..]);
    }
  }

  lemma {:induction false} LessAskedOther(no: Alternative)
    requires AsksOther(no, true)
    ensures AsksOther(no, false)
    decreases no
  {
    if no.Else? {
      LessAskedAll(no.body);
    } else if no.ElseIf? {
      LessAskedAll(no.yes);
      LessAskedOther(no.no);
    }
  }

  lemma {:induction false} ProbeStmtRuns(s: Stmt, x: string, env: Env<int>, limit: nat)
    requires x in FreeStmt(s) && !UseOfStmt(s).defer_ && AsksStmt(s, true) && limit > 0
    ensures Stopped(Step(Scripted(), s, env, ProbeWayStmt(s, x), limit), Seen(env, x))
    decreases Size(s), 4
  {
    hide Eval, Scope, Branch, Loop, Block, Keeps, Trim, Free, FreeOther, ProbeWay, ProbeWayOther, Names, ItemNames, Seen;
    if s.If? {
      ProbeBranchRuns(s.condition, s.yes, s.no, x, env, limit);
    } else if s.Let? {
      ProbeValue(s.init, env, x);
    } else if s.Do? {
      EvalProbe(s.item, env, x);
    } else if s.Return? {
      ProbeValue(s.value.value, env, x);
    } else if s.Guard? {
      ProbeGuardRuns(s.condition, s.otherwise, x, env, limit);
    } else if s.While? {
      ProbeLoopRuns(s.condition, s.body, x, env, limit);
    }
  }

  lemma ProbeValue(e: Expr, env: Env<int>, x: string)
    requires e != READ_BACK && x in Names(e)
    ensures Eval(Scripted(), Value(e), env, [Probe(x)]) == Evaluated(0, env, [Saw(Seen(env, x))], true)
  {
    hide Names, Eval;
    EvalProbe(Value(e), env, x);
  }

  lemma {:induction false} ProbeBlockRuns(ss: seq<Stmt>, x: string, env: Env<int>, limit: nat)
    requires x in Free(ss) && !UseOf(ss).defer_ && Asks(ss, true) && limit > 0
    ensures Stopped(Block(Scripted(), ss, env, ProbeWay(ss, x), limit), Seen(env, x))
    decreases SizeAll(ss), 3
  {
    hide Exec, Scope, Free, ProbeWay, Seen;
    ProbeRuns(ss, x, env, limit);
  }

  lemma {:induction false} ProbeGuardRuns(c: Expr, ss: seq<Stmt>, x: string, env: Env<int>, limit: nat)
    requires (x in Names(c) || x in Free(ss)) && !UseOf(ss).defer_ && c != READ_BACK && Asks(ss, true) && limit > 0
    ensures var way := if x in Names(c) then [Probe(x)] else [Give(0)] + ProbeWay(ss, x);
            Stopped(Step(Scripted(), Guard(c, ss), env, way, limit), Seen(env, x))
    decreases SizeAll(ss), 4
  {
    hide Eval, Step, Scope, Block, Keeps, Trim, Free, ProbeWay, Names, Seen;
    if x in Names(c) {
      ProbeValue(c, env, x);
      GuardTurn(Scripted(), c, ss, env, [Probe(x)], limit);
    } else {
      EvalGive(Value(c), env, 0, ProbeWay(ss, x));
      GuardTurn(Scripted(), c, ss, env, [Give(0)] + ProbeWay(ss, x), limit);
      ProbeBlockRuns(ss, x, env, limit);
    }
  }

  lemma {:induction false} ProbeLoopRuns(c: Expr, ss: seq<Stmt>, x: string, env: Env<int>, limit: nat)
    requires (x in Names(c) || x in Free(ss)) && !UseOf(ss).defer_ && c != READ_BACK && Asks(ss, true) && limit > 0
    ensures var way := if x in Names(c) then [Probe(x)] else [Give(1)] + ProbeWay(ss, x);
            Stopped(Loop(Scripted(), c, ss, env, way, limit, limit), Seen(env, x))
    decreases SizeAll(ss), 4
  {
    hide Eval, Loop, Scope, Block, Keeps, Trim, Free, ProbeWay, Names, Seen;
    if x in Names(c) {
      ProbeValue(c, env, x);
      LoopEnd(Scripted(), c, ss, env, [Probe(x)], limit, limit);
    } else {
      EvalGive(Value(c), env, 1, ProbeWay(ss, x));
      LoopTurn(Scripted(), c, ss, env, [Give(1)] + ProbeWay(ss, x), limit, limit);
      ProbeBlockRuns(ss, x, env, limit);
    }
  }

  lemma {:induction false} ProbeBranchRuns(c: Expr, yes: seq<Stmt>, no: Alternative, x: string, env: Env<int>, limit: nat)
    requires (x in Names(c) || x in Free(yes) || x in FreeOther(no)) && !UseOf(yes).defer_ && !UseOfOther(no).defer_
    requires c != READ_BACK && Asks(yes, true) && AsksOther(no, true) && limit > 0
    ensures var way := if x in Names(c) then [Probe(x)]
                       else if x in Free(yes) then [Give(1)] + ProbeWay(yes, x)
                       else [Give(0)] + ProbeWayOther(no, x);
            Stopped(Branch(Scripted(), c, yes, no, env, way, limit), Seen(env, x))
    decreases SizeAll(yes) + SizeOther(no), 4
  {
    hide Eval, Scope, Block, Keeps, Trim, Free, ProbeWay, Names, Seen;
    if x in Names(c) {
      ProbeValue(c, env, x);
    } else if x in Free(yes) {
      EvalGive(Value(c), env, 1, ProbeWay(yes, x));
      ProbeBlockRuns(yes, x, env, limit);
    } else {
      EvalGive(Value(c), env, 0, ProbeWayOther(no, x));
      if no.Else? {
        ProbeBlockRuns(no.body, x, env, limit);
      } else if no.ElseIf? {
        ProbeBranchRuns(no.condition, no.yes, no.no, x, env, limit);
      }
    }
  }

  // ---- a captured name shows --------------------------------------------------------

  predicate AllAsk(ds: seq<Registered>) {
    ds == [] || (Asks(ds[0].body, true) && AllAsk(ds[1..]))
  }

  /** The defers and their copy, run with names of the gap in the way, leave different sights. */
  ghost predicate CopyDiffers(ds: seq<Registered>, gap: seq<string>, flow: Flow<int>, env: Env<int>, script: Script)
    requires Stacked(ds, |env|)
  {
    var r := RunDefers(Scripted(), ds, flow, env, script, 1);
    var t := Exec(Scripted(), Inline(Bodies(ds)), Filled(gap, 1) + env, script, [], 1);
    r.flow.Halted? && t.flow.Halted? && r.world != t.world
  }

  lemma {:induction false} PlainEnds(ss: seq<Stmt>)
    requires !UseOf(ss).return_ && !UseOf(ss).jump
    ensures Ends(ss)
    decreases ss
  {
    if ss != [] {
      PlainStmtEnds(ss[0]);
      PlainEnds(ss[1..]);
    }
  }

  lemma {:induction false} PlainStmtEnds(s: Stmt)
    requires !UseOfStmt(s).return_ && !UseOfStmt(s).jump
    ensures EndsStmt(s)
    decreases s
  {
    if s.If? {
      PlainEnds(s.yes);
    }
  }

  lemma SeenTwice(a: Env<int>, b: Env<int>, x: string)
    ensures Seen(a + b, x) == if Seen(a, x).Some? then Seen(a, x) else Seen(b, x)
  {
    hide Scope, Lookup;
    LookupAppend(a, b, x);
  }

  /** Values with which a name that is found above the outermost h bindings shows. */
  lemma ShadowSeen(gap: seq<string>, above: seq<string>, below: seq<string>, x: string)
    requires x in gap || x in above
    ensures Seen(Filled(gap, 1) + (Filled(above, 1) + Filled(below, 0)), x) != Seen(Filled(below, 0), x)
  {
    hide Seen, Filled;
    FilledSeen(gap, 1, x);
    FilledSeen(above, 1, x);
    FilledSeen(below, 0, x);
    SeenTwice(Filled(above, 1), Filled(below, 0), x);
    SeenTwice(Filled(gap, 1), Filled(above, 1) + Filled(below, 0), x);
  }

  lemma ScopeTwice(a: Env<int>, b: Env<int>)
    ensures Scope(a + b) == Scope(a) + Scope(b)
    ensures Trim(a + b, |b|) == b
  {
    LookupAppend(a, b, "");
  }

  lemma ProbeCopyRuns(ds: seq<Registered>, x: string, env: Env<int>)
    requires ds != [] && AllPlain(ds) && AllAsk(ds) && x in Free(ds[0].body)
    ensures Stopped(Exec(Scripted(), Inline(Bodies(ds)), env, ProbeWay(ds[0].body, x), [], 1), Seen(env, x))
  {
    hide Exec, Scope, Free, Scripted, ProbeWay, Seen, Asks, UseOf;
    var body, rest := ds[0].body, Inline(Bodies(ds[1..]));
    assert Inline(Bodies(ds)) == body + rest;
    PlainHasNoDefer(body);
    ExecConcat(Scripted(), body, rest, env, ProbeWay(body, x), 1);
    ProbeRuns(body, x, env, 1);
  }

  lemma ProbeDefersRuns(ds: seq<Registered>, x: string, flow: Flow<int>, env: Env<int>)
    requires ds != [] && Stacked(ds, |env|) && AllPlain(ds) && AllAsk(ds) && x in Free(ds[0].body)
    ensures Stopped(RunDefers(Scripted(), ds, flow, env, ProbeWay(ds[0].body, x), 1), Seen(Trim(env, ds[0].height), x))
  {
    hide Exec, Scope, Free, RunDefers, Scripted, ProbeWay, Seen, Asks, UseOf, Keeps, Base;
    RunDefersFirst(Scripted(), ds, flow, env, ProbeWay(ds[0].body, x), 1);
    ProbeRuns(ds[0].body, x, Trim(env, ds[0].height), 1);
  }

  lemma PaintedScope(names: seq<string>, h: nat)
    requires h <= |names|
    ensures var above, below := Filled(names[..|names| - h], 1), Filled(Trim(names, h), 0);
            Scope(above + below) == names && |above + below| == |names| && Trim(above + below, h) == below
  {
    hide Filled;
    var a, b := names[..|names| - h], Trim(names, h);
    ScopeTwice(Filled(a, 1), Filled(b, 0));
    assert a + b == names;
    assert |Scope(Filled(a, 1))| == |a| && |Scope(Filled(b, 0))| == h;
  }

  lemma CaptureNow(ds: seq<Registered>, names: seq<string>, gap: seq<string>, flow: Flow<int>, x: string)
      returns (env: Env<int>, script: Script)
    requires ds != [] && Stacked(ds, |names|) && AllPlain(ds) && AllAsk(ds)
    requires x in Free(ds[0].body) && (x in gap || x in names[..|names| - ds[0].height])
    ensures Scope(env) == names && Stacked(ds, |env|) && CopyDiffers(ds, gap, flow, env, script)
  {
    hide Exec, Scope, Free, RunDefers, Scripted, ProbeWay, Seen, Filled, AllPlain, AllAsk, Inline, Trim, Lookup;
    var h := ds[0].height;
    var above, below := names[..|names| - h], Trim(names, h);
    env, script := Filled(above, 1) + Filled(below, 0), ProbeWay(ds[0].body, x);
    PaintedScope(names, h);
    ProbeDefersRuns(ds, x, flow, env);
    ProbeCopyRuns(ds, x, Filled(gap, 1) + env);
    ShadowSeen(gap, above, below, x);
  }

  lemma {:induction false} CaptureShows(ds: seq<Registered>, names: seq<string>, gap: seq<string>, flow: Flow<int>)
      returns (env: Env<int>, script: Script)
    requires Stacked(ds, |names|) && AllPlain(ds) && AllAsk(ds) && !Clear(names, ds, Elems(gap))
    ensures Scope(env) == names && Stacked(ds, |env|) && CopyDiffers(ds, gap, flow, env, script)
    decreases |ds|
  {
    hide Exec, Scope, Free, RunDefers, Scripted, CopyDiffers, DeclaredBy, Asks;
    var body, h := ds[0].body, ds[0].height;
    var above, below := names[..|names| - h], Trim(names, h);
    if x :| x in Free(body) && (x in gap || x in above) {
      env, script := CaptureNow(ds, names, gap, flow, x);
    } else {
      var gap' := DeclaredBy(body) + (gap + above);
      ElemsAppend(gap, above);
      ElemsAppend(DeclaredBy(body), gap + above);
      env, script := CaptureShows(ds[1..], below, gap', flow);
      env, script := CaptureLater(ds, above, gap, flow, env, script);
    }
  }

  lemma CaptureLater(ds: seq<Registered>, above: seq<string>, gap: seq<string>, flow: Flow<int>, inner: Env<int>, later: Script)
      returns (env: Env<int>, script: Script)
    requires ds != [] && AllPlain(ds) && AllAsk(ds) && |inner| == ds[0].height && Stacked(ds[1..], |inner|)
    requires CopyDiffers(ds[1..], DeclaredBy(ds[0].body) + (gap + above), flow, inner, later)
    ensures Scope(env) == above + Scope(inner) && Stacked(ds, |env|) && CopyDiffers(ds, gap, flow, env, script)
  {
    hide Exec, Scope, Free, RunDefers, Scripted, Way, Filled, DeclaredBy, Keeps, Base;
    var body, h := ds[0].body, ds[0].height;
    PlainEnds(body);
    env, script := Filled(above, 1) + inner, Way(body) + later;
    var own := Filled(DeclaredBy(body), 1);
    LessAskedAll(body);
    ScopeTwice(Filled(above, 1), inner);
    ScopeTwice(own, inner);
    RunDefersFirst(Scripted(), ds, flow, env, script, 1);
    WayRuns(body, inner, later, 1);
    RunDefersTrim(Scripted(), ds[1..], flow, own + inner, later, 1, h);
    var rest := Inline(Bodies(ds[1..]));
    assert Inline(Bodies(ds)) == body + rest;
    PlainHasNoDefer(body);
    ExecConcat(Scripted(), body, rest, Filled(gap, 1) + env, script, 1);
    WayRuns(body, Filled(gap, 1) + env, later, 1);
    FilledAppend(gap, above, 1);
    FilledAppend(DeclaredBy(body), gap + above, 1);
    Assoc3(Filled(gap, 1), Filled(above, 1), inner);
    Assoc3(own, Filled(gap + above, 1), inner);
  }

  // ---- a return that captures shows -----------------------------------------------------

  /** The source returns, its defers still to run, and comes to something else than the lowered code. */
  ghost predicate Differs(r: Result<int, Script>, t: Result<int, Script>, ds: seq<Registered>) {
    && r.flow.Returned? && Stacked(ds, |r.env|) && (t.flow.Halted? || t.flow.Returned?)
    && !SameOutcome(RunDefers(Scripted(), ds, r.flow, r.env, r.world, 1), t)
  }

  lemma ReturnNoneDiffers(names: seq<string>, ds: seq<Registered>) returns (env: Env<int>, script: Script)
    requires ds != [] && Stacked(ds, |names|) && AllPlain(ds) && AllAsk(ds) && !ClearReturn(names, ds, false)
    ensures Scope(env) == names
    ensures Differs(Step(Scripted(), Return(None), env, script, 1),
                    Exec(Scripted(), LowerStmt(Return(None), Bodies(ds)).0, env, script, [], 1), ds)
  {
    hide Exec, Scope, RunDefers, Scripted, Clear, Inline, AllPlain, AllAsk;
    NoneElems();
    env, script := CaptureShows(ds, names, [], Returned(None));
    assert Filled([], 1) + env == env;
    RestHasNoDefer(ds);
    ExecConcat(Scripted(), Inline(Bodies(ds)), [Return(None)], env, script, 1);
  }

  lemma NoneElems()
    ensures Elems([]) == {} && Elems([RET_VAL]) == {RET_VAL}
  {}

  lemma OneFilled(x: string, v: int)
    ensures Filled([x], v) == [Binding(x, v)]
  {
    assert [x][1..] == [];
  }

  lemma ReturnsGiven(e: Expr, v: int, env: Env<int>, script: Script)
    requires e != READ_BACK
    ensures Step(Scripted(), Return(Some(e)), env, [Give(v)] + script, 1) == Result(Returned(Some(v)), env, script)
  {
    hide Eval, Scope;
    EvalGive(Value(e), env, v, script);
  }

  /** The copy after its temporary has its value. */
  lemma CopyAfterTemporary(e: Expr, v: int, ds: seq<Registered>, env: Env<int>, script: Script)
    requires e != READ_BACK && ds != [] && AllPlain(ds)
    ensures var t := Exec(Scripted(), Inline(Bodies(ds)), [Binding(RET_VAL, v)] + env, script, [], 1);
            Exec(Scripted(), LowerStmt(Return(Some(e)), Bodies(ds)).0, env, [Give(v)] + script, [], 1)
              == if t.flow.Normal? then Exec(Scripted(), [Return(Some(READ_BACK))], t.env, t.world, [], 1) else t
  {
    hide Exec, Eval, Scope, Scripted, Inline, AllPlain;
    var inlined, last := Inline(Bodies(ds)), [Return(Some(READ_BACK))];
    var code := [Temporary(e)] + inlined + last;
    assert Bodies(ds) != [] && code[1..] == inlined + last;
    EvalGive(Value(e), env, v, script);
    ExecCons(Scripted(), code, env, [Give(v)] + script, 1);
    RestHasNoDefer(ds);
    ExecConcat(Scripted(), inlined, last, [Binding(RET_VAL, v)] + env, script, 1);
  }

  lemma TemporaryCaptured(e: Expr, names: seq<string>, ds: seq<Registered>) returns (env: Env<int>, script: Script)
    requires ds != [] && Stacked(ds, |names|) && AllPlain(ds) && AllAsk(ds) && e != READ_BACK && !Clear(names, ds, {RET_VAL})
    ensures Scope(env) == names
    ensures Differs(Step(Scripted(), Return(Some(e)), env, script, 1),
                    Exec(Scripted(), LowerStmt(Return(Some(e)), Bodies(ds)).0, env, script, [], 1), ds)
  {
    hide Exec, Step, Scope, RunDefers, Scripted, Clear, Inline, AllPlain, AllAsk, LowerStmt;
    NoneElems();
    var later;
    env, later := CaptureShows(ds, names, [RET_VAL], Returned(Some(1)));
    script := [Give(1)] + later;
    OneFilled(RET_VAL, 1);
    ReturnsGiven(e, 1, env, later);
    CopyAfterTemporary(e, 1, ds, env, later);
  }

  lemma {:induction false} WayAppend(a: seq<Stmt>, b: seq<Stmt>)
    ensures Ends(a + b) <==> Ends(a) && Ends(b)
    ensures Ends(a + b) ==> Way(a + b) == Way(a) + Way(b)
    ensures DeclaredBy(a + b) == DeclaredBy(b) + DeclaredBy(a)
    decreases |a|
  {
    if a == [] {
      assert a + b == b;
    } else {
      assert (a + b)[1..] == a[1..] + b && (a + b)[0] == a[0];
      WayAppend(a[1..], b);
    }
  }

  /** Defers that end normally have no effect but the answers they take. */
  lemma {:induction false} DefersRun(ds: seq<Registered>, flow: Flow<int>, env: Env<int>, script: Script)
    requires Stacked(ds, |env|) && AllPlain(ds) && AllAsk(ds)
    ensures Ends(Inline(Bodies(ds))) && !UseOf(Inline(Bodies(ds))).defer_ && Asks(Inline(Bodies(ds)), false)
    ensures var r := RunDefers(Scripted(), ds, flow, env, Way(Inline(Bodies(ds))) + script, 1);
            r.flow == flow && r.world == script
    decreases |ds|
  {
    hide Exec, Scope, RunDefers, Scripted, Way, WayStmt, Ends, UseOf, Asks, DeclaredBy, Filled, Keeps, Base;
    if ds == [] {
      NothingToRun(script);
      NoDefers(Scripted(), flow, env, script, 1);
    } else {
      var body, rest := ds[0].body, Inline(Bodies(ds[1..]));
      var inner := Trim(env, ds[0].height);
      assert Inline(Bodies(ds)) == body + rest;
      PlainEnds(body);
      LessAskedAll(body);
      DefersRun(ds[1..], flow, inner, script);
      WayAppend(body, rest);
      RunDefersFirst(Scripted(), ds, flow, env, Way(body + rest) + script, 1);
      AsksAppend(body, rest);
      var later := Way(rest) + script;
      Assoc3(Way(body), Way(rest), script);
      WayRuns(body, inner, later, 1);
      var own := Filled(DeclaredBy(body), 1);
      ScopeTwice(own, inner);
      RunDefersTrim(Scripted(), ds[1..], flow, own + inner, later, 1, |inner|);
    }
  }

  lemma NothingToRun(script: Script)
    ensures Ends([]) && !UseOf([]).defer_ && Asks([], false) && Way([]) + script == script
  {}

  lemma {:induction false} AsksAppend(a: seq<Stmt>, b: seq<Stmt>)
    ensures UseOf(a + b) == Both(UseOf(a), UseOf(b))
    ensures Asks(a + b, false) <==> Asks(a, false) && Asks(b, false)
    decreases |a|
  {
    UseAppend(a, b);
    if a == [] {
      assert a + b == b;
    } else {
      assert (a + b)[1..] == a[1..] + b && (a + b)[0] == a[0];
      AsksAppend(a[1..], b);
    }
  }

  lemma TemporaryRedeclared(e: Expr, names: seq<string>, ds: seq<Registered>) returns (env: Env<int>, script: Script)
    requires ds != [] && Stacked(ds, |names|) && AllPlain(ds) && AllAsk(ds) && e != READ_BACK
    requires exists d <- ds :: RET_VAL in DeclaredBy(d.body)
    ensures Scope(env) == names
    ensures Differs(Step(Scripted(), Return(Some(e)), env, script, 1),
                    Exec(Scripted(), LowerStmt(Return(Some(e)), Bodies(ds)).0, env, script, [], 1), ds)
  {
    hide Exec, Step, Scope, RunDefers, Scripted, Inline, AllPlain, AllAsk, LowerStmt, Way, Filled, DeclaredBy, Lookup;
    env := Filled(names, 0);
    var inlined := Inline(Bodies(ds));
    assert |Scope(env)| == |env|;
    DefersRun(ds, Returned(Some(0)), env, []);
    var later := Way(inlined) + [];
    script := [Give(0)] + later;
    ReturnsGiven(e, 0, env, later);
    CopyAfterTemporary(e, 0, ds, env, later);
    var below := [Binding(RET_VAL, 0)] + env;
    WayRuns(inlined, below, [], 1);
    DeclaredByCopies(ds, RET_VAL);
    var own := DeclaredBy(inlined);
    FilledSeen(own, 1, RET_VAL);
    SeenTwice(Filled(own, 1), below, RET_VAL);
    ScriptedReadsTemporary();
    EvalReadBack(Scripted(), Filled(own, 1) + below, []);
    ReturnsReadBack(Filled(own, 1) + below);
  }

  lemma ReturnsReadBack(env: Env<int>)
    requires RET_VAL in Scope(env)
    ensures var t := Exec(Scripted(), [Return(Some(READ_BACK))], env, [], [], 1);
            t.flow == Returned(Some(Lookup(env, RET_VAL))) && t.world == []
  {
    hide Eval, Scope, Lookup, Scripted, Exec, ReadsTemporary, Branch, Loop, Block, Keeps, Trim;
    ScriptedReadsTemporary();
    EvalReadBack(Scripted(), env, []);
    ExecOne(Scripted(), Return(Some(READ_BACK)), env, [], 1);
  }

  lemma {:induction false} DeclaredByCopies(ds: seq<Registered>, x: string)
    requires exists d <- ds :: x in DeclaredBy(d.body)
    ensures x in DeclaredBy(Inline(Bodies(ds)))
    decreases |ds|
  {
    hide DeclaredBy;
    var d :| d in ds && x in DeclaredBy(d.body);
    WayAppend(ds[0].body, Inline(Bodies(ds[1..])));
    if d != ds[0] {
      assert d in ds[1..];
      DeclaredByCopies(ds[1..], x);
    }
  }

  lemma ReturnDiffers(value: Option<Expr>, names: seq<string>, ds: seq<Registered>) returns (env: Env<int>, script: Script)
    requires ds != [] && Stacked(ds, |names|) && AllPlain(ds) && AllAsk(ds) && value != Some(READ_BACK)
    requires !ClearReturn(names, ds, value.Some?)
    ensures Scope(env) == names
    ensures Differs(Step(Scripted(), Return(value), env, script, 1),
                    Exec(Scripted(), LowerStmt(Return(value), Bodies(ds)).0, env, script, [], 1), ds)
  {
    hide Exec, Step, Scope, Scripted, Clear, AllPlain, AllAsk, LowerStmt, Differs, DeclaredBy;
    if value.None? {
      env, script := ReturnNoneDiffers(names, ds);
    } else if !Clear(names, ds, {RET_VAL}) {
      env, script := TemporaryCaptured(value.value, names, ds);
    } else {
      env, script := TemporaryRedeclared(value.value, names, ds);
    }
  }

  // ---- the way behind a statement is the way behind its code --------------------------

  /** The code ends if the source does, on the same answers. */
  ghost predicate SameWay(ss: seq<Stmt>, code: seq<Stmt>) {
    && !UseOf(code).defer_ && Asks(code, false)
    && (Ends(code) <==> Ends(ss))
    && (Ends(ss) ==> Way(code) == Way(ss) && DeclaredBy(code) == DeclaredBy(ss))
  }

  lemma SameWayCons(s: Stmt, ss: seq<Stmt>, code: seq<Stmt>, rest: seq<Stmt>)
    requires SameWay([s], code) && SameWay(ss, rest)
    ensures SameWay([s] + ss, code + rest)
  {
    hide EndsStmt, WayStmt, UseOf, Asks, AsksStmt, Ends, Way, DeclaredBy;
    AsksAppend(code, rest);
    WayAppend(code, rest);
    WayAppend([s], ss);
  }

  lemma SameWayOne(s: Stmt, s': Stmt)
    requires !UseOfStmt(s').defer_ && AsksStmt(s', false) && NamesAfter(s', []) == NamesAfter(s, [])
    requires (EndsStmt(s') <==> EndsStmt(s)) && (EndsStmt(s) ==> WayStmt(s') == WayStmt(s))
    ensures SameWay([s], [s'])
  {
    hide EndsStmt, WayStmt, AsksStmt, NamesAfter, UseOfStmt;
    assert [s][1..] == [] && [s'][1..] == [];
    if EndsStmt(s) {
      OneWay(s);
      OneWay(s');
    }
    assert UseOf([s']) == Both(UseOfStmt(s'), UseOf([]));
    assert Asks([s'], false);
    assert Ends([s']) <==> EndsStmt(s');
    assert Ends([s]) <==> EndsStmt(s);
    if EndsStmt(s) {
      assert Way([s']) == Way([s]);
      assert DeclaredBy([s']) == DeclaredBy([s]);
    }
  }

  lemma {:induction false} LowerKeepsWay(ss: seq<Stmt>, ds: seq<Registered>)
    requires !UseOf(ss).defer_ && Asks(ss, true) && AllPlain(ds) && AllAsk(ds)
    ensures SameWay(ss, Lower(ss, Bodies(ds)).0)
    decreases ss
  {
    hide SameWay, LowerStmt, EndsStmt, WayStmt, AsksStmt, AllPlain, AllAsk;
    if ss == [] {
      SameWayNothing();
    } else {
      assert ss == [ss[0]] + ss[1..];
      StepShape(ss[0], ds);
      LowerStmtKeepsWay(ss[0], ds);
      LowerKeepsWay(ss[1..], ds);
      SameWayCons(ss[0], ss[1..], LowerStmt(ss[0], Bodies(ds)).0, Lower(ss[1..], Bodies(ds)).0);
    }
  }

  lemma SameWayNothing()
    ensures SameWay([], [])
  {}

  lemma {:induction false} LowerStmtKeepsWay(s: Stmt, ds: seq<Registered>)
    requires !UseOfStmt(s).defer_ && AsksStmt(s, true) && AllPlain(ds) && AllAsk(ds)
    ensures SameWay([s], LowerStmt(s, Bodies(ds)).0)
    decreases s
  {
    hide SameWay, Ends, Way, Asks, UseOf, AllPlain, AllAsk;
    if s.If? {
      LowerKeepsWay(s.yes, ds);
      ListShape(s.yes, ds);
      LowerOtherKeepsWay(s.no, ds);
      SameWayParts(s.yes, Lower(s.yes, Bodies(ds)).0);
      SameWayOne(s, If(s.condition, Lower(s.yes, Bodies(ds)).0, LowerOther(s.no, Bodies(ds)).0));
    } else if s.Guard? {
      LowerKeepsWay(s.otherwise, ds);
      SameWayParts(s.otherwise, Lower(s.otherwise, Bodies(ds)).0);
      SameWayOne(s, Guard(s.condition, Lower(s.otherwise, Bodies(ds)).0));
    } else if s.While? {
      LowerKeepsWay(s.body, ds);
      SameWayParts(s.body, Lower(s.body, Bodies(ds)).0);
      SameWayOne(s, While(s.condition, Lower(s.body, Bodies(ds)).0));
    } else if s.Return? && ds != [] {
      ReturnKeepsWay(s, ds);
    } else {
      SameWayOne(s, s);
    }
  }

  lemma SameWayParts(ss: seq<Stmt>, code: seq<Stmt>)
    requires SameWay(ss, code)
    ensures !UseOf(code).defer_ && Asks(code, false) && (Ends(code) <==> Ends(ss)) && (Ends(ss) ==> Way(code) == Way(ss))
  {}

  lemma ReturnKeepsWay(s: Stmt, ds: seq<Registered>)
    requires s.Return? && ds != [] && AsksStmt(s, true) && AllPlain(ds) && AllAsk(ds)
    ensures SameWay([s], LowerStmt(s, Bodies(ds)).0)
  {
    hide Inline, AllPlain, AllAsk, Way;
    var inlined := Inline(Bodies(ds));
    InlineAsks(ds);
    var last := if s.value.None? then s else Return(Some(READ_BACK));
    OnlyReturn(last);
    OnlyReturn(s);
    WayAppend(inlined, [last]);
    AsksAppend(inlined, [last]);
    if s.value.Some? {
      var tail := inlined + [last];
      var first := [Temporary(s.value.value)];
      assert first + inlined + [last] == first + tail;
      assert first[1..] == [];
      WayAppend(first, tail);
      AsksAppend(first, tail);
    }
  }

  lemma OnlyReturn(s: Stmt)
    requires s.Return?
    ensures !Ends([s]) && !UseOf([s]).defer_ && Asks([s], false)
  {
    var ss := [s];
    assert ss[0] == s && ss[1..] == [];
    assert UseOf(ss) == Both(UseOfStmt(s), UseOf([]));
    assert Asks(ss, false) <==> AsksStmt(s, false) && Asks([], false);
  }

  lemma {:induction false} InlineAsks(ds: seq<Registered>)
    requires AllPlain(ds) && AllAsk(ds)
    ensures !UseOf(Inline(Bodies(ds))).defer_ && Asks(Inline(Bodies(ds)), false)
    decreases |ds|
  {
    if ds != [] {
      LessAskedAll(ds[0].body);
      AsksAppend(ds[0].body, Inline(Bodies(ds[1..])));
      InlineAsks(ds[1..]);
    }
  }

  lemma {:induction false} LowerOtherKeepsWay(no: Alternative, ds: seq<Registered>)
    requires !UseOfOther(no).defer_ && AsksOther(no, true) && AllPlain(ds) && AllAsk(ds)
    ensures var no' := LowerOther(no, Bodies(ds)).0;
            && !UseOfOther(no').defer_ && AsksOther(no', false) && (EndsOther(no') <==> EndsOther(no))
            && (EndsOther(no) ==> WayOther(no') == WayOther(no))
    decreases no
  {
    hide SameWay, Ends, Way, Asks, UseOf, AllPlain, AllAsk;
    if no.Else? {
      LowerKeepsWay(no.body, ds);
      SameWayParts(no.body, Lower(no.body, Bodies(ds)).0);
    } else if no.ElseIf? {
      LowerKeepsWay(no.yes, ds);
      ListShape(no.yes, ds);
      SameWayParts(no.yes, Lower(no.yes, Bodies(ds)).0);
      LowerOtherKeepsWay(no.no, ds);
    }
  }

  // ---- statements ---------------------------------------------------------------------

  lemma DiffersTrimmed(r: Result<int, Script>, t: Result<int, Script>, ds: seq<Registered>, n: nat)
    requires Differs(r, t, ds) && n <= |r.env| && n <= |t.env| && Stacked(ds, n)
    ensures Differs(Result(r.flow, Trim(r.env, n), r.world), Result(t.flow, Trim(t.env, n), t.world), ds)
  {
    hide RunDefers, Scripted;
    RunDefersTrim(Scripted(), ds, r.flow, r.env, r.world, 1, n);
  }

  /** What the first statement of a list and its code come to, the list and its code come to. */
  lemma DiffersFirst(ss: seq<Stmt>, env: Env<int>, script: Script, ds: seq<Registered>)
    requires ss != [] && AllPlain(ds) && !UseOf(ss).defer_ && !ss[0].Defer?
    requires Differs(Step(Scripted(), ss[0], env, script, 1),
                     Exec(Scripted(), LowerStmt(ss[0], Bodies(ds)).0, env, script, [], 1), ds)
    ensures Differs(Exec(Scripted(), ss, env, script, [], 1), Exec(Scripted(), Lower(ss, Bodies(ds)).0, env, script, [], 1), ds)
  {
    hide Exec, Step, Scope, Scripted, RunDefers, LowerStmt, AllPlain;
    StepShape(ss[0], ds);
    ExecCons(Scripted(), ss, env, script, 1);
    ExecConcat(Scripted(), LowerStmt(ss[0], Bodies(ds)).0, Lower(ss[1..], Bodies(ds)).0, env, script, 1);
  }

  /** How to get behind a statement into an environment with the names of its scope. */
  lemma Behind(s: Stmt, names: seq<string>, ds: seq<Registered>, later: Env<int>, rest: Script)
      returns (env: Env<int>, script: Script)
    requires EndsStmt(s) && !s.Defer? && !UseOfStmt(s).defer_ && AsksStmt(s, true) && AllPlain(ds) && AllAsk(ds)
    requires Scope(later) == NamesAfter(s, names)
    ensures Scope(env) == names
    ensures Step(Scripted(), s, env, script, 1) == Result(Normal, later, rest)
    ensures Exec(Scripted(), LowerStmt(s, Bodies(ds)).0, env, script, [], 1) == Result(Normal, later, rest)
  {
    hide *;
    if s.Let? {
      env, script := BehindLet(s, names, ds, later, rest);
    } else {
      env, script := later, WayStmt(s) + rest;
      BehindSame(s, ds, env, rest);
      SameNames(s, names);
    }
  }

  lemma SameNames(s: Stmt, names: seq<string>)
    requires !s.Let?
    ensures NamesAfter(s, names) == names
  {}

  lemma BehindLet(s: Stmt, names: seq<string>, ds: seq<Registered>, later: Env<int>, rest: Script)
      returns (env: Env<int>, script: Script)
    requires s.Let? && AsksStmt(s, true) && Scope(later) == NamesAfter(s, names)
    ensures Scope(env) == names
    ensures Step(Scripted(), s, env, script, 1) == Result(Normal, later, rest)
    ensures Exec(Scripted(), LowerStmt(s, Bodies(ds)).0, env, script, [], 1) == Result(Normal, later, rest)
  {
    hide Exec, Step, Scripted, AsksStmt, LowerStmt;
    env, script := later[1..], [Give(later[0].value)] + rest;
    LetAsks(s, ds);
    LetGives(s, later, rest);
    ExecOne(Scripted(), s, env, script, 1);
  }

  lemma BehindSame(s: Stmt, ds: seq<Registered>, env: Env<int>, rest: Script)
    requires EndsStmt(s) && !s.Defer? && !s.Let? && !UseOfStmt(s).defer_ && AsksStmt(s, true) && AllPlain(ds) && AllAsk(ds)
    ensures Step(Scripted(), s, env, WayStmt(s) + rest, 1) == Result(Normal, env, rest)
    ensures Exec(Scripted(), LowerStmt(s, Bodies(ds)).0, env, WayStmt(s) + rest, [], 1) == Result(Normal, env, rest)
  {
    hide Exec, Step, Scripted, Way, WayStmt, EndsStmt, Ends, AllPlain, AllAsk, Scope, UseOf, Asks, DeclaredBy, Filled, LowerStmt, UseOfStmt, AsksStmt;
    LessAsked(s);
    WayStmtRuns(s, env, rest, 1);
    FilledOf(s, env);
    LowerStmtKeepsWay(s, ds);
    OneWay(s);
    WayRuns(LowerStmt(s, Bodies(ds)).0, env, rest, 1);
  }

  lemma LetAsks(s: Stmt, ds: seq<Registered>)
    requires s.Let? && AsksStmt(s, true)
    ensures s.init != READ_BACK && LowerStmt(s, Bodies(ds)).0 == [s]
  {}

  lemma OneWay(s: Stmt)
    requires EndsStmt(s)
    ensures Ends([s]) && Way([s]) == WayStmt(s) && DeclaredBy([s]) == NamesAfter(s, [])
  {
    hide EndsStmt, WayStmt;
    assert [s][1..] == [];
  }

  lemma LetGives(s: Stmt, later: Env<int>, rest: Script)
    requires s.Let? && s.init != READ_BACK && later != [] && later[0].name == s.name
    ensures Step(Scripted(), s, later[1..], [Give(later[0].value)] + rest, 1) == Result(Normal, later, rest)
  {
    hide Eval, Scope;
    EvalGive(Value(s.init), later[1..], later[0].value, rest);
    assert later == [Binding(s.name, later[0].value)] + later[1..];
  }

  lemma {:induction false} ListDiffers(ss: seq<Stmt>, names: seq<string>, ds: seq<Registered>) returns (env: Env<int>, script: Script)
    requires Stacked(ds, |names|) && AllPlain(ds) && AllAsk(ds) && !UseOf(ss).defer_ && Asks(ss, true) && !SafeAll(ss, names, ds)
    ensures Scope(env) == names
    ensures Differs(Exec(Scripted(), ss, env, script, [], 1), Exec(Scripted(), Lower(ss, Bodies(ds)).0, env, script, [], 1), ds)
    decreases SizeAll(ss), 2
  {
    hide Exec, Step, Scope, Scripted, SafeStmt, Differs, LowerStmt, EndsStmt, AsksStmt, NamesAfter, AllPlain, AllAsk;
    var s := ss[0];
    StepShape(s, ds);
    if !SafeStmt(s, names, ds) {
      env, script := StmtDiffers(s, names, ds);
      DiffersFirst(ss, env, script, ds);
    } else {
      StackedDeeper(ds, |names|, |NamesAfter(s, names)|);
      var later, rest := ListDiffers(ss[1..], NamesAfter(s, names), ds);
      env, script := Behind(s, names, ds, later, rest);
      ExecCons(Scripted(), ss, env, script, 1);
      ExecConcat(Scripted(), LowerStmt(s, Bodies(ds)).0, Lower(ss[1..], Bodies(ds)).0, env, script, 1);
    }
  }

  lemma {:induction false} BlockDiffers(ss: seq<Stmt>, names: seq<string>, ds: seq<Registered>) returns (env: Env<int>, script: Script)
    requires Stacked(ds, |names|) && AllPlain(ds) && AllAsk(ds) && !UseOf(ss).defer_ && Asks(ss, true) && !SafeAll(ss, names, ds)
    ensures Scope(env) == names
    ensures Differs(Block(Scripted(), ss, env, script, 1), Block(Scripted(), Lower(ss, Bodies(ds)).0, env, script, 1), ds)
    decreases SizeAll(ss), 3
  {
    hide Exec, Scope, Scripted, Differs, SafeAll, Lower, Keeps, Base, AllPlain, AllAsk;
    env, script := ListDiffers(ss, names, ds);
    assert |Scope(env)| == |env|;
    ExecGrows(Scripted(), ss, env, script, 1);
    ExecGrows(Scripted(), Lower(ss, Bodies(ds)).0, env, script, 1);
    DiffersTrimmed(Exec(Scripted(), ss, env, script, [], 1),
                   Exec(Scripted(), Lower(ss, Bodies(ds)).0, env, script, [], 1), ds, |env|);
  }

  lemma {:induction false} StmtDiffers(s: Stmt, names: seq<string>, ds: seq<Registered>) returns (env: Env<int>, script: Script)
    requires Stacked(ds, |names|) && AllPlain(ds) && AllAsk(ds) && !UseOfStmt(s).defer_ && AsksStmt(s, true)
    requires !s.Defer? && !SafeStmt(s, names, ds)
    ensures Scope(env) == names
    ensures Differs(Step(Scripted(), s, env, script, 1), Exec(Scripted(), LowerStmt(s, Bodies(ds)).0, env, script, [], 1), ds)
    decreases Size(s), 4
  {
    hide Exec, Scope, Scripted, Differs, SafeAll, Lower, Eval, Branch, Loop, Block, ClearReturn, AllPlain, AllAsk, Asks;
    if s.If? {
      env, script := BranchDiffers(s.condition, s.yes, s.no, names, ds);
      ListShape(s.yes, ds);
      ExecOne(Scripted(), If(s.condition, Lower(s.yes, Bodies(ds)).0, LowerOther(s.no, Bodies(ds)).0), env, script, 1);
    } else if s.Guard? {
      var code := Lower(s.otherwise, Bodies(ds)).0;
      var rest;
      env, rest := BlockDiffers(s.otherwise, names, ds);
      script := [Give(0)] + rest;
      EvalGive(Value(s.condition), env, 0, rest);
      GuardTurn(Scripted(), s.condition, s.otherwise, env, script, 1);
      GuardTurn(Scripted(), s.condition, code, env, script, 1);
      ScriptedTruth(0);
      ExecOne(Scripted(), Guard(s.condition, code), env, script, 1);
    } else if s.While? {
      var code := Lower(s.body, Bodies(ds)).0;
      var rest;
      env, rest := BlockDiffers(s.body, names, ds);
      script := [Give(1)] + rest;
      EvalGive(Value(s.condition), env, 1, rest);
      ScriptedTruth(1);
      LoopTurn(Scripted(), s.condition, s.body, env, script, 1, 1);
      LoopTurn(Scripted(), s.condition, code, env, script, 1, 1);
      DiffersLeaves(Block(Scripted(), s.body, env, rest, 1), Block(Scripted(), code, env, rest, 1), ds);
      ExecOne(Scripted(), While(s.condition, code), env, script, 1);
    } else {
      env, script := ReturnDiffers(s.value, names, ds);
    }
  }

  lemma ScriptedTruth(v: int)
    ensures Scripted().truth(v) <==> v != 0
  {}

  lemma DiffersLeaves(r: Result<int, Script>, t: Result<int, Script>, ds: seq<Registered>)
    requires Differs(r, t, ds)
    ensures r.flow.Returned? && (t.flow.Halted? || t.flow.Returned?)
  {}

  lemma {:induction false} BranchDiffers(c: Expr, yes: seq<Stmt>, no: Alternative, names: seq<string>, ds: seq<Registered>)
      returns (env: Env<int>, script: Script)
    requires Stacked(ds, |names|) && AllPlain(ds) && AllAsk(ds) && !UseOf(yes).defer_ && !UseOfOther(no).defer_
    requires c != READ_BACK && Asks(yes, true) && AsksOther(no, true)
    requires !SafeAll(yes, names, ds) || !SafeOther(no, names, ds)
    ensures Scope(env) == names
    ensures Differs(Branch(Scripted(), c, yes, no, env, script, 1),
                    Branch(Scripted(), c, Lower(yes, Bodies(ds)).0, LowerOther(no, Bodies(ds)).0, env, script, 1), ds)
    decreases SizeAll(yes) + SizeOther(no), 4
  {
    hide Exec, Scope, Scripted, Differs, SafeAll, Lower, Eval, Block, AllPlain, AllAsk, Asks, Keeps, Trim;
    var rest;
    if !SafeAll(yes, names, ds) {
      env, rest := BlockDiffers(yes, names, ds);
      script := [Give(1)] + rest;
      EvalGive(Value(c), env, 1, rest);
      ScriptedTruth(1);
    } else {
      ListShape(yes, ds);
      if no.Else? {
        env, rest := BlockDiffers(no.body, names, ds);
      } else {
        ListShape(no.yes, ds);
        env, rest := BranchDiffers(no.condition, no.yes, no.no, names, ds);
      }
      script := [Give(0)] + rest;
      EvalGive(Value(c), env, 0, rest);
      ScriptedTruth(0);
    }
  }

  // ---- bodies -------------------------------------------------------------------------

  lemma {:induction false} BodyDiffers(ss: seq<Stmt>, names: seq<string>, ds: seq<Registered>) returns (env: Env<int>, script: Script)
    requires Stacked(ds, |names|) && AllPlain(ds) && AllAsk(ds) && TopLevel(ss) && Asks(ss, true) && !SafeBody(ss, names, ds)
    ensures Scope(env) == names && Stacked(ds, |env|)
    ensures !SameOutcome(Exec(Scripted(), ss, env, script, ds, 1), Exec(Scripted(), Finish(ss, Bodies(ds)), env, script, [], 1))
    decreases |ss|, 1
  {
    hide Exec, Step, Scope, Scripted, SafeStmt, LowerStmt, EndsStmt, AsksStmt, NamesAfter, Finish, Inline, RunDefers, Clear, Elems;
    if ss == [] {
      env, script := EndDiffers(names, ds);
    } else if ss[0].Defer? {
      var ds' := [Registered(ss[0].deferred, |names|)] + ds;
      assert ds'[1..] == ds && ss == [Defer(ss[0].deferred)] + ss[1..];
      DeferAsks(ss[0]);
      env, script := BodyDiffers(ss[1..], names, ds');
      assert |Scope(env)| == |env|;
      FinishDefer(ss[0].deferred, ss[1..], ds, |env|);
      ExecDefer(Scripted(), ss, env, script, ds, 1);
    } else {
      env, script := StepDiffers(ss, names, ds);
    }
  }

  lemma DeferAsks(s: Stmt)
    requires s.Defer? && AsksStmt(s, true)
    ensures Asks(s.deferred, true)
  {}

  lemma EndDiffers(names: seq<string>, ds: seq<Registered>) returns (env: Env<int>, script: Script)
    requires Stacked(ds, |names|) && AllPlain(ds) && AllAsk(ds) && !Clear(names, ds, {})
    ensures Scope(env) == names && Stacked(ds, |env|)
    ensures !SameOutcome(Exec(Scripted(), [], env, script, ds, 1), Exec(Scripted(), Finish([], Bodies(ds)), env, script, [], 1))
  {
    hide Scope, Scripted, Inline, RunDefers, Clear, AllPlain, AllAsk, Step;
    NoneElems();
    env, script := CaptureShows(ds, names, [], Normal);
    assert Filled([], 1) + env == env && [] + Inline(Bodies(ds)) == Inline(Bodies(ds));
  }

  lemma {:induction false} StepDiffers(ss: seq<Stmt>, names: seq<string>, ds: seq<Registered>) returns (env: Env<int>, script: Script)
    requires ss != [] && !ss[0].Defer? && Stacked(ds, |names|) && AllPlain(ds) && AllAsk(ds) && TopLevel(ss) && Asks(ss, true)
    requires !SafeBody(ss, names, ds)
    ensures Scope(env) == names && Stacked(ds, |env|)
    ensures !SameOutcome(Exec(Scripted(), ss, env, script, ds, 1), Exec(Scripted(), Finish(ss, Bodies(ds)), env, script, [], 1))
    decreases |ss|, 0
  {
    hide Exec, Step, Scope, Scripted, SafeStmt, LowerStmt, EndsStmt, AsksStmt, NamesAfter, Finish, Inline, RunDefers, AllPlain, AllAsk, UseOfStmt;
    var s, tail := ss[0], ss[1..];
    assert ss == [s] + tail;
    StepShape(s, ds);
    FinishStep(s, tail, ds);
    var code := LowerStmt(s, Bodies(ds)).0;
    if !SafeStmt(s, names, ds) {
      env, script := StmtDiffers(s, names, ds);
    } else {
      StackedDeeper(ds, |names|, |NamesAfter(s, names)|);
      var later, rest := BodyDiffers(tail, NamesAfter(s, names), ds);
      env, script := Behind(s, names, ds, later, rest);
    }
    assert |Scope(env)| == |env|;
    ExecStep(Scripted(), ss, env, script, ds, 1);
    ExecConcat(Scripted(), code, Finish(tail, Bodies(ds)), env, script, 1);
  }

  // ---- the theorem --------------------------------------------------------------------

  /** No caller can tell the emitted body from the source, whatever expressions mean. */
  ghost predicate Agrees(body: seq<Stmt>, names: seq<string>) {
    forall I: Interp<int, Script>, params: Env<int>, script: Script, limit: nat
      | ReadsTemporary(I) && Scope(params) == names ::
      Observe(I, LowerBody(body), params, script, limit) == Observe(I, body, params, script, limit)
  }

  /** For bodies with defers at the top level only, lowering preserves the meaning exactly if every
      exit that can be reached is clear. */
  lemma DeferLoweringExact(body: seq<Stmt>, names: seq<string>)
    requires TopLevel(body) && Asks(body, true)
    ensures Agrees(body, names) <==> SafeBody(body, names, [])
  {
    hide Exec, SafeBody, TopLevel, Asks, Scripted, LowerBody, ReadsTemporary, Observe;
    if SafeBody(body, names, []) {
      forall I: Interp<int, Script>, params: Env<int>, script: Script, limit: nat
        | ReadsTemporary(I) && Scope(params) == names
        ensures Observe(I, LowerBody(body), params, script, limit) == Observe(I, body, params, script, limit)
      {
        DeferLoweringSound(I, body, params, script, limit);
      }
    } else {
      var params, script := BodyDiffers(body, names, []);
      ScriptedReadsTemporary();
      ObservedApart(body, params, script);
    }
  }

  lemma ObservedApart(body: seq<Stmt>, params: Env<int>, script: Script)
    requires !SameOutcome(Exec(Scripted(), body, params, script, [], 1), Exec(Scripted(), Finish(body, Bodies([])), params, script, [], 1))
    ensures Observe(Scripted(), LowerBody(body), params, script, 1) != Observe(Scripted(), body, params, script, 1)
  {
    hide Exec, Scripted, Lower;
  }
}
