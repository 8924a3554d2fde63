/** What a function does when it runs, under any machine, and that it only depends on what its names
    stand for. */
module RenameRuns {
  import opened Options
  import opened RenameTrees
  import opened RenameMeaning

  /** Values and memory are left open. A local is a place in memory; a machine says what places and
      outside names are worth, which operands an operator looks at, and what every operation does. */
  datatype Machine<!V, !W> = Machine(
    outside: string -> V,
    wants: (Shape, Option<V>, seq<Option<V>>, W) -> bool,
    node: (Shape, Option<V>, seq<Option<V>>, W) -> Got<V, W>,
    declare: (seq<V>, W) -> (V, W),
    act: (Kind, seq<V>, W) -> (bool, W),
    truth: (seq<V>, W) -> bool,
    next: (seq<V>, nat, W) -> (Option<V>, W))

  datatype Got<+T, +W> = Got(value: T, world: W) | Stopped(world: W)

  datatype Flow<+V> = Normal | Broke | Continued | Returned(values: seq<V>) | Halted | OutOfSteps

  datatype Outcome<+V, +W> = Outcome(flow: Flow<V>, world: W)

  datatype Local<+V> = Local(name: string, place: V)

  /** Innermost local first. */
  type Env<+V> = seq<Local<V>>

  function Scope<V>(env: Env<V>): (r: seq<string>)
    ensures |r| == |env|
  {
    if env == [] then [] else [env[0].name] + Scope(env[1..])
  }

  function Places<V>(env: Env<V>): (r: seq<V>)
    ensures |r| == |env|
  {
    if env == [] then [] else [env[0].place] + Places(env[1..])
  }

  // ---- programs with names ------------------------------------------------------------

  function Meaning<V, W>(I: Machine<V, W>, env: Env<V>, x: string): V {
    if env == [] then I.outside(x) else if env[0].name == x then env[0].place else Meaning(I, env[1..], x)
  }

  function Eval<V, W>(I: Machine<V, W>, t: Tree, env: Env<V>, w: W): Got<V, W>
    decreases t, 1
  {
    var name := if UsesName(t.shape) then Some(Meaning(I, env, t.name)) else None;
    match EvalKids(I, t.shape, name, t.kids, env, [], w)
    case Stopped(w') => Stopped(w')
    case Got(vs, w') => I.node(t.shape, name, vs, w')
  }

  /** From left to right; an operand that is not wanted is not evaluated. */
  function EvalKids<V, W>(I: Machine<V, W>, shape: Shape, name: Option<V>, ts: seq<Tree>, env: Env<V>, sofar: seq<Option<V>>, w: W)
      : Got<seq<Option<V>>, W>
    decreases ts
  {
    if ts == [] then Got(sofar, w)
    else if !I.wants(shape, name, sofar, w) then EvalKids(I, shape, name, ts[1..], env, sofar + [None], w)
    else
      assert ts decreases to ts[0];
      match Eval(I, ts[0], env, w)
      case Stopped(w') => Stopped(w')
      case Got(v, w') => EvalKids(I, shape, name, ts[1..], env, sofar + [Some(v)], w')
  }

  function EvalAll<V, W>(I: Machine<V, W>, ts: seq<Tree>, env: Env<V>, w: W): Got<seq<V>, W> {
    if ts == [] then Got([], w)
    else
      match Eval(I, ts[0], env, w)
      case Stopped(w') => Stopped(w')
      case Got(v, w') =>
        match EvalAll(I, ts[1..], env, w')
        case Stopped(w2) => Stopped(w2)
        case Got(vs, w2) => Got([v] + vs, w2)
  }

  /** A statement list; a defer runs, in its own scope, when control leaves what follows it. */
  function RunBlock<V, W>(I: Machine<V, W>, ss: seq<Stmt>, env: Env<V>, w: W, limit: nat): Outcome<V, W>
    decreases ss
  {
    if ss == [] then Outcome(Normal, w)
    else
      assert ss decreases to ss[0];
      var s := ss[0];
      if s.kind.LetStmt? then
        match EvalAll(I, s.exprs, env, w)
        case Stopped(w') => Outcome(Halted, w')
        case Got(vs, w') =>
          var (place, w2) := I.declare(vs, w');
          RunBlock(I, ss[1..], [Local(s.name, place)] + env, w2, limit)
      else if s.kind.DeferStmt? then
        var r := RunBlock(I, ss[1..], env, w, limit);
        if r.flow.Halted? || r.flow.OutOfSteps? then r
        else
          var d := RunStmt(I, s, env, r.world, limit);
          if d.flow.Normal? then Outcome(r.flow, d.world) else d
      else
        var r := RunStmt(I, s, env, w, limit);
        if r.flow.Normal? then RunBlock(I, ss[1..], env, r.world, limit) else r
  }

  function RunStmt<V, W>(I: Machine<V, W>, s: Stmt, env: Env<V>, w: W, limit: nat): Outcome<V, W>
    decreases s, 2
  {
    if s.kind.WhileStmt? || s.kind.LoopStmt? then RunWhile(I, s, env, w, limit, limit)
    else
      match EvalAll(I, s.exprs, env, w)
      case Stopped(w') => Outcome(Halted, w')
      case Got(vs, w') =>
        match s.kind
        case ReturnStmt => Outcome(Returned(vs), w')
        case BreakStmt => Outcome(Broke, w')
        case ContinueStmt => Outcome(Continued, w')
        case IfStmt => RunPart(I, s, if I.truth(vs, w') then 0 else 1, env, w', limit)
        case ForStmt => RunFor(I, s, vs, 0, env, w', limit, limit)
        case UnsafeStmt => RunPart(I, s, 0, env, w', limit)
        case LetStmt => Outcome(Normal, w')
        case AssignStmt => Act(I, s.kind, vs, w')
        case ExpressionStmt => Act(I, s.kind, vs, w')
        case DeferStmt =>
          var a := Act(I, s.kind, vs, w');
          if a.flow.Normal? then RunPart(I, s, 0, env, a.world, limit) else a
  }

  /** The i-th block of a statement, if it has one. */
  function RunPart<V, W>(I: Machine<V, W>, s: Stmt, i: nat, env: Env<V>, w: W, limit: nat): Outcome<V, W>
    decreases s, 0
  {
    if i < |s.blocks| then
      assert s.blocks decreases to s.blocks[i];
      RunBlock(I, s.blocks[i].stmts, env, w, limit)
    else Outcome(Normal, w)
  }

  function Act<V, W>(I: Machine<V, W>, kind: Kind, vs: seq<V>, w: W): Outcome<V, W> {
    var (goes, w') := I.act(kind, vs, w);
    Outcome(if goes then Normal else Halted, w')
  }

  /** At most k more turns. */
  function RunWhile<V, W>(I: Machine<V, W>, s: Stmt, env: Env<V>, w: W, limit: nat, k: nat): Outcome<V, W>
    decreases s, 1, k
  {
    match EvalAll(I, s.exprs, env, w)
    case Stopped(w') => Outcome(Halted, w')
    case Got(vs, w') =>
      if s.kind.WhileStmt? && !I.truth(vs, w') then Outcome(Normal, w')
      else if k == 0 then Outcome(OutOfSteps, w')
      else
        var r := RunPart(I, s, 0, env, w', limit);
        if r.flow.Normal? || r.flow.Continued? then RunWhile(I, s, env, r.world, limit, k - 1)
        else if r.flow.Broke? then Outcome(Normal, r.world)
        else r
  }

  function RunFor<V, W>(I: Machine<V, W>, s: Stmt, range: seq<V>, i: nat, env: Env<V>, w: W, limit: nat, k: nat): Outcome<V, W>
    decreases s, 1, k
  {
    var (place, w') := I.next(range, i, w);
    if place.None? then Outcome(Normal, w')
    else if k == 0 then Outcome(OutOfSteps, w')
    else
      var r := RunPart(I, s, 0, [Local(s.name, place.value)] + env, w', limit);
      if r.flow.Normal? || r.flow.Continued? then RunFor(I, s, range, i + 1, env, r.world, limit, k - 1)
      else if r.flow.Broke? then Outcome(Normal, r.world)
      else r
  }

  function Bind<V>(params: seq<string>, args: seq<V>): (env: Env<V>)
    requires |params| == |args|
    ensures Scope(env) == params && Places(env) == args
  {
    if params == [] then [] else [Local(params[0], args[0])] + Bind(params[1..], args[1..])
  }

  function Run<V, W>(I: Machine<V, W>, f: Function_, args: seq<V>, w: W, limit: nat): Outcome<V, W>
    requires |args| == |f.params|
  {
    RunBlock(I, f.body, Bind(f.params, args), w, limit)
  }

  // ---- programs without names -----------------------------------------------------------

  function Stands<V, W>(I: Machine<V, W>, places: seq<V>, r: Ref): V {
    if r.Slot? && r.index < |places| then places[r.index] else I.outside(if r.Outside? then r.name else "")
  }

  function EvalR<V, W>(I: Machine<V, W>, t: Resolved, places: seq<V>, w: W): Got<V, W>
    decreases t, 1
  {
    var name := if UsesName(t.shape) then Some(Stands(I, places, t.ref)) else None;
    match EvalKidsR(I, t.shape, name, t.kids, places, [], w)
    case Stopped(w') => Stopped(w')
    case Got(vs, w') => I.node(t.shape, name, vs, w')
  }

  function EvalKidsR<V, W>(I: Machine<V, W>, shape: Shape, name: Option<V>, ts: seq<Resolved>, places: seq<V>, sofar: seq<Option<V>>, w: W)
      : Got<seq<Option<V>>, W>
    decreases ts
  {
    if ts == [] then Got(sofar, w)
    else if !I.wants(shape, name, sofar, w) then EvalKidsR(I, shape, name, ts[1..], places, sofar + [None], w)
    else
      assert ts decreases to ts[0];
      match EvalR(I, ts[0], places, w)
      case Stopped(w') => Stopped(w')
      case Got(v, w') => EvalKidsR(I, shape, name, ts[1..], places, sofar + [Some(v)], w')
  }

  function EvalAllR<V, W>(I: Machine<V, W>, ts: seq<Resolved>, places: seq<V>, w: W): Got<seq<V>, W> {
    if ts == [] then Got([], w)
    else
      match EvalR(I, ts[0], places, w)
      case Stopped(w') => Stopped(w')
      case Got(v, w') =>
        match EvalAllR(I, ts[1..], places, w')
        case Stopped(w2) => Stopped(w2)
        case Got(vs, w2) => Got([v] + vs, w2)
  }

  function RunBlockR<V, W>(I: Machine<V, W>, ss: seq<ResolvedStmt>, places: seq<V>, w: W, limit: nat): Outcome<V, W>
    decreases ss
  {
    if ss == [] then Outcome(Normal, w)
    else
      assert ss decreases to ss[0];
      var s := ss[0];
      if s.kind.LetStmt? then
        match EvalAllR(I, s.exprs, places, w)
        case Stopped(w') => Outcome(Halted, w')
        case Got(vs, w') =>
          var (place, w2) := I.declare(vs, w');
          RunBlockR(I, ss[1..], [place] + places, w2, limit)
      else if s.kind.DeferStmt? then
        var r := RunBlockR(I, ss[1..], places, w, limit);
        if r.flow.Halted? || r.flow.OutOfSteps? then r
        else
          var d := RunStmtR(I, s, places, r.world, limit);
          if d.flow.Normal? then Outcome(r.flow, d.world) else d
      else
        var r := RunStmtR(I, s, places, w, limit);
        if r.flow.Normal? then RunBlockR(I, ss[1..], places, r.world, limit) else r
  }

  function RunStmtR<V, W>(I: Machine<V, W>, s: ResolvedStmt, places: seq<V>, w: W, limit: nat): Outcome<V, W>
    decreases s, 2
  {
    if s.kind.WhileStmt? || s.kind.LoopStmt? then RunWhileR(I, s, places, w, limit, limit)
    else
      match EvalAllR(I, s.exprs, places, w)
      case Stopped(w') => Outcome(Halted, w')
      case Got(vs, w') =>
        match s.kind
        case ReturnStmt => Outcome(Returned(vs), w')
        case BreakStmt => Outcome(Broke, w')
        case ContinueStmt => Outcome(Continued, w')
        case IfStmt => RunPartR(I, s, if I.truth(vs, w') then 0 else 1, places, w', limit)
        case ForStmt => RunForR(I, s, vs, 0, places, w', limit, limit)
        case UnsafeStmt => RunPartR(I, s, 0, places, w', limit)
        case LetStmt => Outcome(Normal, w')
        case AssignStmt => Act(I, s.kind, vs, w')
        case ExpressionStmt => Act(I, s.kind, vs, w')
        case DeferStmt =>
          var a := Act(I, s.kind, vs, w');
          if a.flow.Normal? then RunPartR(I, s, 0, places, a.world, limit) else a
  }

  function RunPartR<V, W>(I: Machine<V, W>, s: ResolvedStmt, i: nat, places: seq<V>, w: W, limit: nat): Outcome<V, W>
    decreases s, 0
  {
    if i < |s.blocks| then
      assert s.blocks decreases to s.blocks[i];
      RunBlockR(I, s.blocks[i].stmts, places, w, limit)
    else Outcome(Normal, w)
  }

  function RunWhileR<V, W>(I: Machine<V, W>, s: ResolvedStmt, places: seq<V>, w: W, limit: nat, k: nat): Outcome<V, W>
    decreases s, 1, k
  {
    match EvalAllR(I, s.exprs, places, w)
    case Stopped(w') => Outcome(Halted, w')
    case Got(vs, w') =>
      if s.kind.WhileStmt? && !I.truth(vs, w') then Outcome(Normal, w')
      else if k == 0 then Outcome(OutOfSteps, w')
      else
        var r := RunPartR(I, s, 0, places, w', limit);
        if r.flow.Normal? || r.flow.Continued? then RunWhileR(I, s, places, r.world, limit, k - 1)
        else if r.flow.Broke? then Outcome(Normal, r.world)
        else r
  }

  function RunForR<V, W>(I: Machine<V, W>, s: ResolvedStmt, range: seq<V>, i: nat, places: seq<V>, w: W, limit: nat, k: nat): Outcome<V, W>
    decreases s, 1, k
  {
    var (place, w') := I.next(range, i, w);
    if place.None? then Outcome(Normal, w')
    else if k == 0 then Outcome(OutOfSteps, w')
    else
      var r := RunPartR(I, s, 0, [place.value] + places, w', limit);
      if r.flow.Normal? || r.flow.Continued? then RunForR(I, s, range, i + 1, places, r.world, limit, k - 1)
      else if r.flow.Broke? then Outcome(Normal, r.world)
      else r
  }

  // ---- a run depends on what names stand for, not on the names --------------------------------

  lemma {:induction false} MeaningFactors<V, W>(I: Machine<V, W>, env: Env<V>, x: string)
    ensures Meaning(I, env, x) == Stands(I, Places(env), Find(Scope(env), x))
    decreases |env|
  {
    if env != [] {
      MeaningFactors(I, env[1..], x);
      assert Scope(env)[1..] == Scope(env[1..]) && Places(env)[1..] == Places(env[1..]);
    }
  }

  lemma {:induction false} EvalFactors<V, W>(I: Machine<V, W>, t: Tree, env: Env<V>, w: W)
    ensures Eval(I, t, env, w) == EvalR(I, Resolve(t, Scope(env)), Places(env), w)
    decreases t, 1
  {
    hide EvalKids, EvalKidsR, Scope, Places, Meaning, Stands, Find, ResolveAll;
    MeaningFactors(I, env, t.name);
    var name := if UsesName(t.shape) then Some(Meaning(I, env, t.name)) else None;
    KidsFactor(I, t.shape, name, t.kids, env, [], w);
  }

  lemma {:induction false} KidsFactor<V, W>(I: Machine<V, W>, shape: Shape, name: Option<V>, ts: seq<Tree>, env: Env<V>, sofar: seq<Option<V>>, w: W)
    ensures EvalKids(I, shape, name, ts, env, sofar, w)
         == EvalKidsR(I, shape, name, ResolveAll(ts, Scope(env)), Places(env), sofar, w)
    decreases ts
  {
    hide Eval, EvalR, Scope, Places, Resolve;
    if ts != [] {
      assert ts decreases to ts[0];
      assert ResolveAll(ts, Scope(env))[1..] == ResolveAll(ts[1..], Scope(env));
      if !I.wants(shape, name, sofar, w) {
        KidsFactor(I, shape, name, ts[1..], env, sofar + [None], w);
      } else {
        EvalFactors(I, ts[0], env, w);
        var r := Eval(I, ts[0], env, w);
        if r.Got? {
          KidsFactor(I, shape, name, ts[1..], env, sofar + [Some(r.value)], r.world);
        }
      }
    }
  }

  lemma {:induction false} AllFactor<V, W>(I: Machine<V, W>, ts: seq<Tree>, env: Env<V>, w: W)
    ensures EvalAll(I, ts, env, w) == EvalAllR(I, ResolveAll(ts, Scope(env)), Places(env), w)
    decreases ts
  {
    hide Eval, EvalR, Scope, Places, Resolve;
    if ts != [] {
      assert ResolveAll(ts, Scope(env))[1..] == ResolveAll(ts[1..], Scope(env));
      EvalFactors(I, ts[0], env, w);
      var r := Eval(I, ts[0], env, w);
      if r.Got? {
        AllFactor(I, ts[1..], env, r.world);
      }
    }
  }

  lemma Pushed<V>(x: string, place: V, env: Env<V>)
    ensures Scope([Local(x, place)] + env) == [x] + Scope(env)
    ensures Places([Local(x, place)] + env) == [place] + Places(env)
  {
    assert ([Local(x, place)] + env)[1..] == env;
  }

  lemma {:induction false} BlockAt(bs: seq<Block>, i: nat, scope: seq<string>)
    requires i < |bs|
    ensures ResolveBlocks(bs, scope)[i].stmts == ResolveBlock(bs[i].stmts, scope)
    decreases i
  {
    hide ResolveBlock;
    if i > 0 {
      BlockAt(bs[1..], i - 1, scope);
    }
  }

  lemma ResolvedParts(ss: seq<Stmt>, scope: seq<string>)
    requires ss != []
    ensures var rs := ResolveBlock(ss, scope);
            rs != [] && rs[0] == ResolveStmt(ss[0], scope) && rs[1..] == ResolveBlock(ss[1..], After(ss[0], scope))
  {
    hide ResolveStmt, After;
  }

  lemma {:induction false} BlockFactors<V, W>(I: Machine<V, W>, ss: seq<Stmt>, env: Env<V>, w: W, limit: nat)
    ensures RunBlock(I, ss, env, w, limit) == RunBlockR(I, ResolveBlock(ss, Scope(env)), Places(env), w, limit)
    decreases ss
  {
    hide RunStmt, RunStmtR, EvalAll, EvalAllR, ResolveBlock, ResolveAll, ResolveBlocks, Scope, Places;
    if ss == [] {
      NoBlock(Scope(env));
    } else {
      assert ss decreases to ss[0];
      var s := ss[0];
      ResolvedParts(ss, Scope(env));
      AllFactor(I, s.exprs, env, w);
      if s.kind.LetStmt? {
        var r := EvalAll(I, s.exprs, env, w);
        if r.Got? {
          var (place, w') := I.declare(r.value, r.world);
          Pushed(s.name, place, env);
          BlockFactors(I, ss[1..], [Local(s.name, place)] + env, w', limit);
        }
      } else if s.kind.DeferStmt? {
        BlockFactors(I, ss[1..], env, w, limit);
        StmtFactors(I, s, env, RunBlock(I, ss[1..], env, w, limit).world, limit);
      } else {
        StmtFactors(I, s, env, w, limit);
        var r := RunStmt(I, s, env, w, limit);
        BlockFactors(I, ss[1..], env, r.world, limit);
      }
    }
  }

  lemma NoBlock(scope: seq<string>)
    ensures ResolveBlock([], scope) == []
  {}

  lemma {:induction false} StmtFactors<V, W>(I: Machine<V, W>, s: Stmt, env: Env<V>, w: W, limit: nat)
    ensures RunStmt(I, s, env, w, limit) == RunStmtR(I, ResolveStmt(s, Scope(env)), Places(env), w, limit)
    decreases s, 2
  {
    hide RunBlock, RunBlockR, RunWhile, RunWhileR, RunFor, RunForR, EvalAll, EvalAllR, ResolveBlock, ResolveAll, ResolveBlocks, Scope, Places, RunPart, RunPartR, Act;
    var scope := Scope(env);
    if s.kind.WhileStmt? || s.kind.LoopStmt? {
      WhileFactors(I, s, env, w, limit, limit);
    } else {
      AllFactor(I, s.exprs, env, w);
      var r := EvalAll(I, s.exprs, env, w);
      if r.Got? {
        if s.kind.IfStmt? {
          var i := if I.truth(r.value, r.world) then 0 else 1;
          PartFactors(I, s, i, env, scope, r.world, limit);
        } else if s.kind.ForStmt? {
          ForFactors(I, s, r.value, 0, env, r.world, limit, limit);
        } else if s.kind.UnsafeStmt? {
          PartFactors(I, s, 0, env, scope, r.world, limit);
        } else if s.kind.DeferStmt? {
          PartFactors(I, s, 0, env, scope, Act(I, s.kind, r.value, r.world).world, limit);
        }
      }
    }
  }

  lemma {:induction false} PartFactors<V, W>(I: Machine<V, W>, s: Stmt, i: nat, env: Env<V>, scope: seq<string>, w: W, limit: nat)
    requires Scope(env) == Inner(s, scope)
    ensures RunPart(I, s, i, env, w, limit) == RunPartR(I, ResolveStmt(s, scope), i, Places(env), w, limit)
    decreases s, 0
  {
    hide RunBlock, RunBlockR, ResolveBlock, ResolveAll, ResolveBlocks, Scope, Places, Inner;
    if i < |s.blocks| {
      assert s.blocks decreases to s.blocks[i];
      BlockAt(s.blocks, i, Inner(s, scope));
      BlockFactors(I, s.blocks[i].stmts, env, w, limit);
    }
  }

  lemma {:induction false} WhileFactors<V, W>(I: Machine<V, W>, s: Stmt, env: Env<V>, w: W, limit: nat, k: nat)
    requires s.kind.WhileStmt? || s.kind.LoopStmt?
    ensures RunWhile(I, s, env, w, limit, k) == RunWhileR(I, ResolveStmt(s, Scope(env)), Places(env), w, limit, k)
    decreases s, 1, k
  {
    hide RunBlock, RunBlockR, EvalAll, EvalAllR, ResolveBlock, ResolveAll, ResolveBlocks, Scope, Places, RunPart, RunPartR;
    AllFactor(I, s.exprs, env, w);
    var c := EvalAll(I, s.exprs, env, w);
    if c.Got? && (s.kind.LoopStmt? || I.truth(c.value, c.world)) && k > 0 {
      PartFactors(I, s, 0, env, Scope(env), c.world, limit);
      var r := RunPart(I, s, 0, env, c.world, limit);
      WhileFactors(I, s, env, r.world, limit, k - 1);
    }
  }

  lemma {:induction false} ForFactors<V, W>(I: Machine<V, W>, s: Stmt, range: seq<V>, i: nat, env: Env<V>, w: W, limit: nat, k: nat)
    requires s.kind.ForStmt?
    ensures RunFor(I, s, range, i, env, w, limit, k) == RunForR(I, ResolveStmt(s, Scope(env)), range, i, Places(env), w, limit, k)
    decreases s, 1, k
  {
    hide RunBlock, RunBlockR, ResolveBlock, ResolveAll, ResolveBlocks, Scope, Places, RunPart, RunPartR;
    var (place, w') := I.next(range, i, w);
    if place.Some? && k > 0 {
      var inner := [Local(s.name, place.value)] + env;
      Pushed(s.name, place.value, env);
      PartFactors(I, s, 0, inner, Scope(env), w', limit);
      var r := RunPart(I, s, 0, inner, w', limit);
      ForFactors(I, s, range, i + 1, env, r.world, limit, k - 1);
    }
  }

  function RunResolved<V, W>(I: Machine<V, W>, f: ResolvedFunction, args: seq<V>, w: W, limit: nat): Outcome<V, W> {
    RunBlockR(I, f.body, args, w, limit)
  }

  /** What a function does is determined by its resolved form. */
  lemma RunFactors<V, W>(I: Machine<V, W>, f: Function_, args: seq<V>, w: W, limit: nat)
    requires |args| == |f.params|
    ensures Run(I, f, args, w, limit) == RunResolved(I, ResolveFunction(f), args, w, limit)
  {
    hide RunBlock, RunBlockR, ResolveBlock;
    BlockFactors(I, f.body, Bind(f.params, args), w, limit);
  }

  /** On every machine, from any arguments and memory, the sanitized function does what the function
      did, if no keyword that names a local is also used outside that local's scope. */
  lemma SanitizeKeepsRuns<V, W>(I: Machine<V, W>, f: Function_, args: seq<V>, w: W, limit: nat)
    requires |args| == |f.params| && NewNamesUnused(f) && FreeNames(f) !! (Locals(f) * C_RESERVED)
    ensures |Sanitize(f).params| == |f.params|
    ensures Run(I, Sanitize(f), args, w, limit) == Run(I, f, args, w, limit)
  {
    hide ResolveFunction, RunResolved, Run, NewNamesUnused, FreeNames, Locals;
    SanitizeKeepsMeaning(f);
    RunFactors(I, f, args, w, limit);
    RunFactors(I, Sanitize(f), args, w, limit);
  }

  // ---- a keyword inside and outside the scope of a local -----------------------------------------

  /** fn () { unsafe { let <x> = ...; } return <x>; } */
  function Sharing(x: string): Function_ {
    Function_([], [Stmt(UnsafeStmt, "", [], [Block([Stmt(LetStmt, x, [], [])])]), Stmt(ReturnStmt, "", [Tree(NameExpr, x, [])], [])])
  }

  /** Names from outside are worth themselves. */
  function Naming(): Machine<string, ()> {
    Machine(x => x,
            (shape, name, vs, w) => true,
            (shape, name: Option<string>, vs, w) => Got(if name.Some? then name.value else "", w),
            (vs, w) => ("", w),
            (kind, vs, w) => (true, w),
            (vs, w) => false,
            (vs, i, w) => (None, w))
  }

  lemma SharingReturns(x: string, limit: nat)
    ensures Run(Naming(), Sharing(x), [], (), limit) == Outcome(Returned([x]), ())
  {
    var I := Naming();
    var none: Env<string> := [];
    var use := Tree(NameExpr, x, []);
    var let_ := Stmt(LetStmt, x, [], []);
    var first, ret := Sharing(x).body[0], Stmt(ReturnStmt, "", [use], []);
    assert Sharing(x).body[1..] == [ret] && [ret][1..] == [] && [let_][1..] == [] && [use][1..] == [];
    assert Eval(I, use, none, ()) == Got(x, ());
    assert EvalAll(I, [use], none, ()) == Got([x] + [], ());
    assert [x] + [] == [x];
    assert RunBlock(I, [let_], none, (), limit) == Outcome(Normal, ());
    assert RunPart(I, first, 0, none, (), limit) == Outcome(Normal, ());
    assert RunStmt(I, first, none, (), limit) == Outcome(Normal, ());
    assert RunStmt(I, ret, none, (), limit) == Outcome(Returned([x]), ());
    assert RunBlock(I, [ret], none, (), limit) == Outcome(Returned([x]), ());
  }

  lemma SharingSanitized()
    ensures Sanitize(Sharing("int")) == Sharing(PREFIX + "int")
    ensures "int" in FreeNames(Sharing("int")) && "int" in Locals(Sharing("int"))
  {
    var f := Sharing("int");
    var let_, use := Stmt(LetStmt, "int", [], []), Tree(NameExpr, "int", []);
    var inner := [let_];
    var blocks := [Block(inner)];
    var first, ret := f.body[0], f.body[1];
    assert inner[1..] == [] && blocks[1..] == [] && f.body[1..] == [ret] && [ret][1..] == [] && [use][1..] == [];
    assert "int" in LocalsOf(let_) && "int" in LocalsOfBlock(inner) && "int" in LocalsOfBlocks(blocks);
    assert "int" in LocalsOf(first);
    assert "int" in Free(use, []) && "int" in FreeInAll([use], []) && "int" in FreeInStmt(ret, []);
    assert "int" in FreeInBlock([ret], []);
    var m := MappingFor(Locals(f));
    assert m["int"] == PREFIX + "int";
    SharingRenamed(m);
  }

  lemma SharingRenamed(m: Mapping)
    requires "int" in m && m["int"] == PREFIX + "int"
    ensures RenameFunction(Sharing("int"), m) == Sharing(PREFIX + "int")
  {
    var f, g := Sharing("int"), Sharing(PREFIX + "int");
    var inner, inner' := f.body[0].blocks[0].stmts, g.body[0].blocks[0].stmts;
    var use, use' := f.body[1].exprs, g.body[1].exprs;
    assert inner[1..] == [] && use[1..] == [] && f.body[1..] == [f.body[1]] && [f.body[1]][1..] == [];
    assert f.body[0].blocks[1..] == [];
    assert RenameAll(use, m) == [Rename(use[0], m)] + RenameAll([], m) == use';
    assert RenameBlock(inner, m) == [RenameStmt(inner[0], m)] + RenameBlock([], m) == inner';
    assert RenameBlocks(f.body[0].blocks, m) == [Block(inner')] + RenameBlocks([], m) == g.body[0].blocks;
    assert RenameStmt(f.body[0], m) == g.body[0] && RenameStmt(f.body[1], m) == g.body[1];
    assert RenameBlock([f.body[1]], m) == [g.body[1]] + RenameBlock([], m) == [g.body[1]];
    assert RenameBlock(f.body, m) == [g.body[0]] + [g.body[1]] == g.body;
    assert RenameNames([], m) == [];
  }

  /** There the renaming changes what the function returns: the use outside the scope is renamed too. */
  lemma SharedKeywordMatters(limit: nat)
    ensures var f := Sharing("int");
            && Run(Naming(), f, [], (), limit) == Outcome(Returned(["int"]), ())
            && Run(Naming(), Sanitize(f), [], (), limit) == Outcome(Returned(["sotlas_c_kw_int"]), ())
  {
    hide Run, Sharing, Sanitize, Naming;
    SharingReturns("int", limit);
    SharingReturns(PREFIX + "int", limit);
    SharingSanitized();
    assert PREFIX + "int" == "sotlas_c_kw_int";
  }
}
