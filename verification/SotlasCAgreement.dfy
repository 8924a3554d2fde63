/** The printed C has the value of the expression, where no slit is 64 bits wide and no slice names what
    its own block declares. */
module SotlasCAgreement {
  import opened Options
  import opened SotlasTokens
  import S = SotlasParsing
  import opened SotlasPrinting
  import opened SotlasCTrees
  import opened SotlasCMeaning
  import opened SotlasCText
  import opened SotlasCValues

  // ---- arithmetic on 64 bits -----------------------------------------------------------------------

  /** Bit by bit. */
  function And(a: nat, b: nat): nat {
    if a == 0 || b == 0 then 0 else a % 2 * (b % 2) + 2 * And(a / 2, b / 2)
  }

  predicate IsArithmetic(op: COp) {
    op.ShiftRight? || op.ShiftLeft? || op.Plus? || op.Minus? || op.BitAnd?
  }

  /** A shift by 64 or more is not defined. */
  function Arithmetic(op: COp, a: nat, b: nat): Option<Val>
    requires IsArithmetic(op) && a < W && b < W
  {
    match op
    case ShiftRight => if b < 64 then Some(Num(a / Power(2, b))) else None
    case ShiftLeft => if b < 64 then Some(Num(a * Power(2, b) % W)) else None
    case Plus => Some(Num((a + b) % W))
    case Minus => Some(Num((a + W - b) % W))
    case BitAnd => Some(Num(And(a, b)))
  }

  /** The machine computes with unsigned numbers of 64 bits. */
  ghost predicate Is64(m: Machine) {
    forall op: COp, a: nat, b: nat | IsArithmetic(op) && a < W && b < W ::
      m.binary(OpText(op), Num(a), Num(b)) == Arithmetic(op, a, b)
  }

  lemma Halves(a: nat, p: nat)
    requires p > 0
    ensures a % (2 * p) == a % 2 + 2 * (a / 2 % p)
  {
    var q, r := a / 2 / p, a / 2 % p;
    assert a == 2 * (p * q + r) + a % 2;
    Remainder(a, 2 * p, q, 2 * r + a % 2);
  }

  lemma Remainder(a: nat, d: nat, q: nat, r: nat)
    requires a == d * q + r && r < d
    ensures a % d == r && a / d == q
  {
    var k: int := a / d - q;
    assert d * (a / d) + a % d == d * q + r;
    assert d * k == r - a % d;
    Multiple(d, k);
  }

  lemma Multiple(d: nat, k: int)
    ensures (k >= 1 ==> d * k >= d) && (k <= -1 ==> d * k + d <= 0)
  {}

  lemma {:induction false} AndMask(a: nat, k: nat)
    ensures And(a, Power(2, k) - 1) == a % Power(2, k)
    decreases k
  {
    if k > 0 {
      var p := Power(2, k - 1);
      AndMask(a / 2, k - 1);
      Halves(a, p);
      assert (2 * p - 1) % 2 == 1 && (2 * p - 1) / 2 == p - 1;
      if a != 0 {
        assert And(a, 2 * p - 1) == a % 2 + 2 * And(a / 2, p - 1);
      }
    }
  }

  lemma {:induction false} PowersGrow(k: nat, n: nat)
    requires k <= n
    ensures Power(2, k) <= Power(2, n)
    decreases n
  {
    if k < n {
      PowersGrow(k, n - 1);
    }
  }

  lemma PowersFit(k: nat)
    ensures k < 64 ==> Power(2, k) <= W / 2
    ensures Power(2, 64) == W
  {
    SmallPowers();
    hide Power;
    Power2Adds(8, 8);
    Power2Adds(8, 7);
    assert Power(2, 16) == 0x1_0000 && Power(2, 15) == 0x8000;
    Power2Adds(16, 16);
    Power2Adds(16, 15);
    assert Power(2, 32) == 0x1_0000_0000 && Power(2, 31) == 0x8000_0000;
    Power2Adds(32, 32);
    Power2Adds(32, 31);
    if k < 64 {
      PowersGrow(k, 63);
    }
  }

  lemma SmallPowers()
    ensures Power(2, 7) == 128 && Power(2, 8) == 256
  {
    assert Power(2, 4) == 16;
  }

  lemma {:induction false} Power2Adds(a: nat, b: nat)
    ensures Power(2, a + b) == Power(2, a) * Power(2, b)
    decreases a
  {
    if a > 0 {
      Power2Adds(a - 1, b);
    }
  }

  // ---- slits and notches ---------------------------------------------------------------------------

  /** What three trees are worth as numbers. */
  ghost predicate AreNumbers(b: C, lo: C, hi: C, env: Env, m: Machine, v: nat, l: nat, h: nat) {
    EvalC(b, env, m) == Some(Num(v)) && EvalC(lo, env, m) == Some(Num(l)) && EvalC(hi, env, m) == Some(Num(h))
  }

  lemma BinIs(l: C, op: COp, wide: bool, r: C, env: Env, m: Machine, a: nat, b: nat)
    requires Is64(m) && IsArithmetic(op) && a < W && b < W
    requires EvalC(l, env, m) == Some(Num(a)) && EvalC(r, env, m) == Some(Num(b))
    ensures EvalC(Bin(l, op, wide, r), env, m) == EvalC(Paren(Bin(l, op, wide, r)), env, m) == Arithmetic(op, a, b)
  {}

  lemma ParenIs(x: C, env: Env, m: Machine)
    ensures EvalC(Paren(x), env, m) == EvalC(x, env, m)
  {}

  lemma OnesAre(env: Env, m: Machine)
    ensures EvalC(Number("0"), env, m) == Some(Num(0)) && EvalC(Number("1"), env, m) == Some(Num(1))
    ensures EvalC(Number("1ULL"), env, m) == Some(Num(1))
  {
    SmallNumbers();
  }

  /** The mask of a slit: as many ones as it is wide, unless it is all 64 bits wide. */
  lemma MaskIs(lo: C, hi: C, env: Env, m: Machine, l: nat, h: nat)
    requires Is64(m) && l <= h < 64 && EvalC(lo, env, m) == Some(Num(l)) && EvalC(hi, env, m) == Some(Num(h))
    ensures var mask := Paren(Bin(Paren(Bin(Number("1ULL"), ShiftLeft, true, Paren(Width(lo, hi)))), COp.Minus, true, Number("1")));
            EvalC(mask, env, m) == if h - l == 63 then None else Some(Num(Power(2, h - l + 1) - 1))
  {
    hide EvalC, Is64;
    OnesAre(env, m);
    ParenIs(lo, env, m);
    ParenIs(hi, env, m);
    BinIs(Paren(hi), COp.Minus, false, Paren(lo), env, m, h, l);
    assert (h + W - l) % W == h - l;
    BinIs(Bin(Paren(hi), COp.Minus, false, Paren(lo)), COp.Plus, false, Number("1"), env, m, h - l, 1);
    var n := h - l + 1;
    ParenIs(Width(lo, hi), env, m);
    var shift := Paren(Bin(Number("1ULL"), ShiftLeft, true, Paren(Width(lo, hi))));
    BinIs(Number("1ULL"), ShiftLeft, true, Paren(Width(lo, hi)), env, m, 1, n);
    if n < 64 {
      PowersFit(n);
      var p := Power(2, n);
      assert 1 * p % W == p;
      BinIs(shift, COp.Minus, true, Number("1"), env, m, p, 1);
      assert (p + W - 1) % W == p - 1;
    } else {
      NoneIs(shift, COp.Minus, Number("1"), env, m);
    }
  }

  lemma NoneIs(l: C, op: COp, r: C, env: Env, m: Machine)
    requires EvalC(l, env, m) == None || (EvalC(r, env, m) == None && !op.AndAlso? && !op.OrElse?)
    ensures EvalC(Paren(Bin(l, op, true, r)), env, m) == None
  {}

  lemma ShiftIs(b: C, n: C, env: Env, m: Machine, v: nat, k: nat)
    requires Is64(m) && v < W && k < 64 && EvalC(b, env, m) == Some(Num(v)) && EvalC(n, env, m) == Some(Num(k))
    ensures EvalC(Paren(Bin(Paren(b), ShiftRight, true, Paren(n))), env, m) == Some(Num(v / Power(2, k))) && v / Power(2, k) < W
  {
    hide EvalC, Is64;
    ParenIs(b, env, m);
    ParenIs(n, env, m);
    BinIs(Paren(b), ShiftRight, true, Paren(n), env, m, v, k);
  }

  /** For every 64-bit number and any bits of it: the C text gives the bits from the low to the high one,
      exactly unless they are all 64; then it shifts by 64, which is not defined. */
  lemma SlitExact(b: C, lo: C, hi: C, env: Env, m: Machine, v: nat, l: nat, h: nat)
    requires Is64(m) && v < W && l <= h < 64 && AreNumbers(b, lo, hi, env, m, v, l, h)
    ensures EvalC(SlitTree(b, lo, hi), env, m) == if h - l == 63 then None else Some(Num(Bits(v, l, h)))
    ensures EvalC(SlitTree(b, lo, hi), env, m) == Some(Num(Bits(v, l, h))) <==> !(l == 0 && h == 63)
  {
    hide EvalC, Is64;
    var shifted := Paren(Bin(Paren(b), ShiftRight, true, Paren(lo)));
    var mask := Paren(Bin(Paren(Bin(Number("1ULL"), ShiftLeft, true, Paren(Width(lo, hi)))), COp.Minus, true, Number("1")));
    ShiftIs(b, lo, env, m, v, l);
    MaskIs(lo, hi, env, m, l, h);
    if h - l == 63 {
      NoneIs(shifted, BitAnd, mask, env, m);
    } else {
      var n := h - l + 1;
      PowersFit(n);
      BinIs(shifted, BitAnd, true, mask, env, m, v / Power(2, l), Power(2, n) - 1);
      AndMask(v / Power(2, l), n);
    }
  }

  lemma NotchIs(b: C, bit: C, env: Env, m: Machine, v: nat, k: nat)
    requires Is64(m) && v < W && k < 64 && EvalC(b, env, m) == Some(Num(v)) && EvalC(bit, env, m) == Some(Num(k))
    ensures EvalC(NotchTree(b, bit), env, m) == Some(Num(Bits(v, k, k)))
  {
    hide EvalC, Is64;
    var shifted := Paren(Bin(Paren(b), ShiftRight, true, Paren(bit)));
    ShiftIs(b, bit, env, m, v, k);
    OnesAre(env, m);
    BinIs(shifted, BitAnd, true, Number("1ULL"), env, m, v / Power(2, k), 1);
    AndMask(v / Power(2, k), 1);
    assert Power(2, 1) == 2;
  }

  // ---- names -----------------------------------------------------------------------------------------

  /** The name of a path in C. */
  function Joined(path: seq<string>): string
    requires path != []
  {
    if |path| == 1 then path[0] else Joined(path[..|path| - 1]) + "__" + path[|path| - 1]
  }

  lemma {:induction false} JoinPathIs(path: seq<string>, name: string)
    ensures JoinPath(path, name) == Joined(path + [name])
    decreases |path|
  {
    if path != [] {
      JoinPathIs(path[1..], name);
      assert path == [path[0]] + path[1..];
      JoinedFront(path[0], path[1..] + [name]);
      assert path + [name] == [path[0]] + (path[1..] + [name]);
    }
  }

  lemma {:induction false} JoinedFront(first: string, rest: seq<string>)
    requires rest != []
    ensures Joined([first] + rest) == first + "__" + Joined(rest)
    decreases |rest|
  {
    var all, n := [first] + rest, |rest|;
    assert all[..n] == [first] + rest[..n - 1];
    if n > 1 {
      JoinedFront(first, rest[..n - 1]);
    } else {
      assert Joined(all[..1]) == first;
    }
  }

  /** Paths that occur in an expression. */
  function Names(e: S.Expr): set<seq<string>>
    decreases e
  {
    match e
    case Literal(_, _) => {}
    case Ident(name, path) => {path + [name]}
    case Binary(_, l, r) => Names(l) + Names(r)
    case Unary(_, x) => Names(x)
    case Call(f, args) => Names(f) + set i, p | 0 <= i < |args| && p in Names(args[i].value) :: p
    case Index(b, i) => Names(b) + Names(i)
    case Field(b, _) => Names(b)
    case BitSlice(b, lo, hi) => Names(b) + Names(lo) + Names(hi)
    case BitNotch(b, bit) => Names(b) + Names(bit)
    case BitStrand(b) => Names(b)
    case TupleIndex(b, _) => Names(b)
    case Slice(b, from, to) => Names(b) + (if from.Some? then Names(from.value) else {}) + if to.Some? then Names(to.value) else {}
    case OptionalChain(x) => Names(x)
    case ForceUnwrap(x) => Names(x)
    case StructLit(_, _, fields) => set i, p | 0 <= i < |fields| && p in Names(fields[i].value) :: p
    case TupleLit(es) => set i, p | 0 <= i < |es| && p in Names(es[i]) :: p
    case ArrayLit(es) => set i, p | 0 <= i < |es| && p in Names(es[i]) :: p
    case IfExpr(c, t, f) => Names(c) + Names(t) + Names(f)
  }

  predicate Avoids(e: S.Expr, name: string) {
    forall p <- Names(e) :: p != [] && Joined(p) != name
  }

  /** No slice names _b or _s where its block declares them, and nothing calls the builtin by its name. */
  predicate IsClear(e: S.Expr)
    decreases e
  {
    match e
    case Literal(_, _) => true
    case Ident(_, _) => true
    case Binary(_, l, r) => IsClear(l) && IsClear(r)
    case Unary(_, x) => IsClear(x)
    case Call(f, args) => IsClear(f) && AsC(f) != Name("__builtin_bswap64") && forall i :: 0 <= i < |args| ==> IsClear(args[i].value)
    case Index(b, i) => IsClear(b) && IsClear(i)
    case Field(b, _) => IsClear(b)
    case BitSlice(b, lo, hi) => IsClear(b) && IsClear(lo) && IsClear(hi)
    case BitNotch(b, bit) => IsClear(b) && IsClear(bit)
    case BitStrand(b) => IsClear(b)
    case TupleIndex(b, _) => IsClear(b)
    case Slice(b, from, to) =>
      && IsClear(b) && Avoids(b, "_b") && (to.None? ==> Avoids(b, "_s"))
      && (from.Some? ==> IsClear(from.value) && Avoids(from.value, "_b") && Avoids(from.value, "_s"))
      && (to.Some? ==> IsClear(to.value) && Avoids(to.value, "_b") && Avoids(to.value, "_s"))
    case OptionalChain(x) => IsClear(x)
    case ForceUnwrap(x) => IsClear(x)
    case StructLit(_, _, fields) => forall i :: 0 <= i < |fields| ==> IsClear(fields[i].value)
    case TupleLit(es) => forall i :: 0 <= i < |es| ==> IsClear(es[i])
    case ArrayLit(es) => forall i :: 0 <= i < |es| ==> IsClear(es[i])
    case IfExpr(c, t, f) => IsClear(c) && IsClear(t) && IsClear(f)
  }

  /** The names of C stand for what the paths stand for. */
  ghost predicate Agree(names: set<seq<string>>, env: Scope, cenv: Env) {
    forall p :: p in names && p in env && p != [] ==> Joined(p) in cenv && cenv[Joined(p)] == env[p]
  }

  /** Other names may come and go. */
  lemma StillAgree(e: S.Expr, env: Scope, cenv: Env, name: string, v: Val)
    requires Agree(Names(e), env, cenv) && Avoids(e, name)
    ensures Agree(Names(e), env, cenv - {name}) && Agree(Names(e), env, cenv[name := v])
  {}

  // ---- the value -------------------------------------------------------------------------------------

  ghost predicate IsGiven(e: S.Expr, env: Scope, cenv: Env, m: Machine) {
    IsWhole(e) && IsClear(e) && Is64(m) && Agree(Names(e), env, cenv) && Eval(e, env, m).Some?
  }

  lemma LiteralAgrees(k: Kind, t: string, env: Env, m: Machine)
    requires LiteralIsC(k, t) && LiteralValue(k, t, m).Some?
    ensures EvalC(LiteralTree(k, t), env, m) == LiteralValue(k, t, m)
  {
    OnesAre(env, m);
    if k.IntLit? {
      LiteralKeepsValue(t);
    }
    TextKeepsContents('\"', t);
    TextKeepsContents('\'', t);
    hide CNumber, IntegerValue, ValueIn;
  }

  lemma NameAgrees(e: S.Expr, env: Scope, cenv: Env, m: Machine)
    requires e.Ident? && Agree(Names(e), env, cenv) && Eval(e, env, m).Some?
    ensures EvalC(AsC(e), cenv, m) == Eval(e, env, m)
  {
    JoinPathIs(e.path, e.name);
  }

  lemma OperateIs(op: Kind, v: Val, w: Option<Val>, w': Option<Val>, m: Machine)
    requires IsCBinaryOp(op) && Operate(op, v, w, m).Some? && (w.Some? ==> w' == w)
    ensures Lazy(BinaryOp(op), v, w', m) == Operate(op, v, w, m)
  {
    BinarySpelled(op);
    hide Spelling, OpText;
  }

  lemma BinEval(l: C, op: COp, r: C, env: Env, m: Machine)
    ensures EvalC(Paren(Bin(l, op, true, r)), env, m)
         == if EvalC(l, env, m).None? then None else Lazy(op, EvalC(l, env, m).value, EvalC(r, env, m), m)
  {
    hide Lazy, ValuesOf, Swapped, CNumber, Contents, Member, Fields;
    ParenIs(Bin(l, op, true, r), env, m);
  }

  lemma OperationAgrees(e: S.Expr, env: Scope, cenv: Env, m: Machine)
    requires e.Binary? && IsCBinaryOp(e.op) && Eval(e, env, m).Some?
    requires EvalC(AsC(e.left), cenv, m) == Eval(e.left, env, m)
    requires Eval(e.right, env, m).Some? ==> EvalC(AsC(e.right), cenv, m) == Eval(e.right, env, m)
    ensures EvalC(AsC(e), cenv, m) == Eval(e, env, m)
  {
    hide EvalC, Operate, Lazy, IsCBinaryOp;
    BinEval(AsC(e.left), BinaryOp(e.op), AsC(e.right), cenv, m);
    OperateIs(e.op, Eval(e.left, env, m).value, Eval(e.right, env, m), EvalC(AsC(e.right), cenv, m), m);
  }

  /** The values of a list, when each of its trees has the value that is wanted. */
  lemma ListAgrees(xs: seq<C>, vs: seq<Option<Val>>, env: Env, m: Machine)
    requires |xs| == |vs| && All(vs).Some? && forall i :: 0 <= i < |xs| && vs[i].Some? ==> EvalC(xs[i], env, m) == vs[i]
    ensures ValuesOf(xs, env, m) == All(vs)
  {
    hide EvalC;
    var r := All(vs).value;
    forall i | 0 <= i < |xs| ensures EvalC(xs[i], env, m) == Some(r[i]) {
      assert vs[i] == Some(r[i]);
    }
    assert ValuesOf(xs, env, m).value == r;
  }

  lemma ChoiceAgrees(c: C, t: C, f: C, env: Env, m: Machine)
    requires EvalC(c, env, m).Some?
    ensures EvalC(Paren(Cond(Paren(c), Paren(t), Paren(f))), env, m)
         == if IsTrue(EvalC(c, env, m).value) then EvalC(t, env, m) else EvalC(f, env, m)
  {
    ParenIs(c, env, m);
    ParenIs(t, env, m);
    ParenIs(f, env, m);
    CondIs(Paren(c), Paren(t), Paren(f), env, m);
    ParenIs(Cond(Paren(c), Paren(t), Paren(f)), env, m);
  }

  lemma CondIs(c: C, t: C, f: C, env: Env, m: Machine)
    ensures var v := EvalC(c, env, m);
            EvalC(Cond(c, t, f), env, m) == if v.None? then None else if IsTrue(v.value) then EvalC(t, env, m) else EvalC(f, env, m)
  {}

  /** The number of elements, in any environment in which the base has its value. */
  lemma CountAgrees(b: C, env: Env, m: Machine, v: Val)
    requires EvalC(b, env, m) == Some(v) && Count(v, m).Some?
    ensures EvalC(CountTree(b), env, m) == Count(v, m)
  {
    var star := Pre(Times, Paren(b));
    ParenIs(b, env, m);
    assert EvalC(star, env, m) == m.unary("*", v);
    assert EvalC(SizeOf(b), env, m) == Some(m.size(v));
    assert EvalC(SizeOf(star), env, m) == Some(m.size(m.unary("*", v).value));
    var x := Bin(SizeOf(b), Over, false, SizeOf(star));
    ParenIs(x, env, m);
    assert EvalC(x, env, m) == Lazy(Over, m.size(v), Some(m.size(m.unary("*", v).value)), m);
  }

  /** The environment in which the ends of a slice are computed. */
  function Inside(env: Env, v: Val): Env {
    env["_b" := v] - {"_s"}
  }

  lemma StartIs(lo: C, env: Env, m: Machine, v: Val, l: Val)
    requires "_b" in env && env["_b"] == v && EvalC(lo, env, m) == Some(l)
    ensures EvalC(Bin(Name("_b"), COp.Plus, true, Paren(lo)), env, m) == m.binary("+", v, l)
  {
    assert EvalC(Name("_b"), env, m) == Some(v);
    ParenIs(lo, env, m);
  }

  lemma LengthIs(lo: C, hi: C, env: Env, m: Machine, l: Val, h: Val)
    requires EvalC(lo, env, m) == Some(l) && EvalC(hi, env, m) == Some(h) && m.binary("-", h, l).Some?
    ensures EvalC(Cast("size_t", Paren(Bin(Paren(hi), COp.Minus, true, Paren(lo)))), env, m) == m.cast("size_t", m.binary("-", h, l).value)
  {
    ParenIs(lo, env, m);
    ParenIs(hi, env, m);
    BinEval(Paren(hi), COp.Minus, Paren(lo), env, m);
  }

  lemma TaggedIs(tags: seq<string>, xs: seq<C>, env: Env, m: Machine, vs: seq<Val>)
    requires |tags| == |xs| == |vs| && forall i :: 0 <= i < |xs| ==> EvalC(xs[i], env, m) == Some(vs[i])
    ensures EvalC(Tagged(tags, xs), env, m) == Some(Record("", Fields(tags, vs)))
  {
    assert ValuesOf(xs, env, m) == Some(vs) by {
      hide EvalC;
      assert ValuesOf(xs, env, m).value == vs;
    }
  }

  lemma PartsAgree(lo: C, hi: C, env: Env, m: Machine, v: Val, l: Val, h: Val)
    requires "_b" in env && env["_b"] == v && EvalC(lo, env, m) == Some(l) && EvalC(hi, env, m) == Some(h) && View(v, l, h, m).Some?
    ensures EvalC(Tagged(["data", "len"], ViewParts(lo, hi)), env, m) == View(v, l, h, m)
  {
    hide EvalC;
    StartIs(lo, env, m, v, l);
    LengthIs(lo, hi, env, m, l, h);
    var data, size := m.binary("+", v, l).value, m.cast("size_t", m.binary("-", h, l).value).value;
    TaggedIs(["data", "len"], ViewParts(lo, hi), env, m, [data, size]);
    TwoFields(data, size);
  }

  lemma TwoFields(a: Val, b: Val)
    ensures Fields(["data", "len"], [a, b]) == map["data" := a, "len" := b]
  {
    var tags, vs := ["data", "len"], [a, b];
    assert tags[..1] == ["data"] && vs[..1] == [a];
    assert Fields(["data"], [a]) == map["data" := a] by {
      assert ["data"][..0] == [] && [a][..0] == [];
    }
    assert Fields(tags, vs) == Fields(["data"], [a])["len" := b];
  }

  /** The block of a slice: the base outside, the ends inside. */
  lemma ViewAgrees(b: C, lo: C, hi: C, env: Env, m: Machine, v: Val, l: Val, h: Val)
    requires EvalC(b, env - {"_b"}, m) == Some(v) && View(v, l, h, m).Some?
    requires EvalC(lo, Inside(env, v), m) == Some(l) && EvalC(hi, Inside(env, v), m) == Some(h)
    ensures EvalC(SliceTree(b, lo, hi), env, m) == View(v, l, h, m)
  {
    hide ViewParts, CText, EvalC, View;
    PartsAgree(lo, hi, Inside(env, v), m, v, l, h);
    var tags := Tagged(["data", "len"], ViewParts(lo, hi));
    var inner, r := env["_b" := v], View(v, l, h, m).value;
    LetIs(VIEW, "_s", tags, Name("_s"), inner, m);
    NameIs("_s", inner["_s" := r], m);
    ParenIs(b, env - {"_b"}, m);
    LetIs("__typeof__(" + CText(b) + ")", "_b", Paren(b), ViewLet(lo, hi), env, m);
    BlockIs(Let("__typeof__(" + CText(b) + ")", "_b", Paren(b), ViewLet(lo, hi)), env, m);
  }

  lemma NameIs(name: string, env: Env, m: Machine)
    requires name in env
    ensures EvalC(Name(name), env, m) == Some(env[name])
  {}

  lemma BlockIs(x: C, env: Env, m: Machine)
    ensures EvalC(Block(x), env, m) == EvalC(x, env, m)
  {}

  lemma LetIs(kind: string, name: string, init: C, rest: C, env: Env, m: Machine)
    ensures var v := EvalC(init, env - {name}, m);
            EvalC(Let(kind, name, init, rest), env, m) == if v.None? then None else EvalC(rest, env[name := v.value], m)
  {}

  // ---- the whole expression --------------------------------------------------------------------------

  lemma {:induction false} SlitAgrees(e: S.Expr, env: Scope, cenv: Env, m: Machine)
    requires e.BitSlice? && Is64(m) && Eval(e, env, m).Some?
    requires EvalC(AsC(e.base), cenv, m) == Eval(e.base, env, m)
    requires EvalC(AsC(e.lo), cenv, m) == Eval(e.lo, env, m) && EvalC(AsC(e.hi), cenv, m) == Eval(e.hi, env, m)
    ensures EvalC(AsC(e), cenv, m) == Eval(e, env, m)
  {
    hide EvalC, Is64, SlitTree;
    var v, l, h := Eval(e.base, env, m).value, Eval(e.lo, env, m).value, Eval(e.hi, env, m).value;
    SlitExact(AsC(e.base), AsC(e.lo), AsC(e.hi), cenv, m, v.n, l.n, h.n);
  }

  lemma NotchAgrees(e: S.Expr, env: Scope, cenv: Env, m: Machine)
    requires e.BitNotch? && Is64(m) && Eval(e, env, m).Some?
    requires EvalC(AsC(e.base), cenv, m) == Eval(e.base, env, m) && EvalC(AsC(e.bit), cenv, m) == Eval(e.bit, env, m)
    ensures EvalC(AsC(e), cenv, m) == Eval(e, env, m)
  {
    hide EvalC, Is64, NotchTree;
    NotchIs(AsC(e.base), AsC(e.bit), cenv, m, Eval(e.base, env, m).value.n, Eval(e.bit, env, m).value.n);
  }

  lemma BuiltinIs(x: C, env: Env, m: Machine, n: nat)
    requires ValuesOf([x], env, m) == Some([Num(n)])
    ensures EvalC(App(Name("__builtin_bswap64"), [x]), env, m) == Some(Num(Swapped(n, 8)))
  {
    hide Swapped, ValuesOf;
  }

  lemma AppIs(f: C, xs: seq<C>, env: Env, m: Machine)
    requires f != Name("__builtin_bswap64") && ValuesOf(xs, env, m).Some? && EvalC(f, env, m).Some?
    ensures EvalC(App(f, xs), env, m) == m.call(EvalC(f, env, m).value, ValuesOf(xs, env, m).value)
  {
    hide Swapped, ValuesOf;
  }

  lemma BracesAre(tags: seq<string>, xs: seq<C>, kind: string, env: Env, m: Machine)
    requires ValuesOf(xs, env, m).Some? && |tags| == |xs|
    ensures var vs := ValuesOf(xs, env, m).value;
            && EvalC(Braces(xs), env, m) == Some(Row(vs)) && EvalC(Tagged(tags, xs), env, m) == Some(Record("", Fields(tags, vs)))
            && EvalC(Compound(kind, Tagged(tags, xs)), env, m) == Some(Record(kind, Fields(tags, vs)))
  {
    hide Fields;
    assert EvalC(Tagged(tags, xs), env, m) == Some(Record("", Fields(tags, ValuesOf(xs, env, m).value)));
  }

  lemma StrandAgrees(e: S.Expr, env: Scope, cenv: Env, m: Machine)
    requires e.BitStrand? && Eval(e, env, m).Some? && EvalC(AsC(e.base), cenv, m) == Eval(e.base, env, m)
    ensures EvalC(AsC(e), cenv, m) == Eval(e, env, m)
  {
    hide EvalC, Swapped;
    var xs, v := [AsC(e.base)], Eval(e.base, env, m).value;
    assert EvalC(xs[0], cenv, m) == Some(v);
    assert ValuesOf(xs, cenv, m).value == [v];
    BuiltinIs(AsC(e.base), cenv, m, v.n);
  }

  lemma CallAgrees(e: S.Expr, env: Scope, cenv: Env, m: Machine)
    requires e.Call? && Eval(e, env, m).Some? && AsC(e.callee) != Name("__builtin_bswap64")
    requires EvalC(AsC(e.callee), cenv, m) == Eval(e.callee, env, m)
    requires forall i :: 0 <= i < |e.args| && Eval(e.args[i].value, env, m).Some? ==>
               EvalC(AsC(e.args[i].value), cenv, m) == Eval(e.args[i].value, env, m)
    ensures EvalC(AsC(e), cenv, m) == Eval(e, env, m)
  {
    hide EvalC, ValuesOf, All;
    var args := e.args;
    var xs := seq(|args|, i requires 0 <= i < |args| => AsC(args[i].value));
    var vs := seq(|args|, i requires 0 <= i < |args| => Eval(args[i].value, env, m));
    ListAgrees(xs, vs, cenv, m);
    AppIs(AsC(e.callee), xs, cenv, m);
  }

  lemma StructAgrees(e: S.Expr, env: Scope, cenv: Env, m: Machine)
    requires e.StructLit? && Eval(e, env, m).Some?
    requires forall i :: 0 <= i < |e.fields| && Eval(e.fields[i].value, env, m).Some? ==>
               EvalC(AsC(e.fields[i].value), cenv, m) == Eval(e.fields[i].value, env, m)
    ensures EvalC(AsC(e), cenv, m) == Eval(e, env, m)
  {
    hide EvalC, ValuesOf, All, Fields, Tags;
    var fields := e.fields;
    var xs := seq(|fields|, i requires 0 <= i < |fields| => AsC(fields[i].value));
    var vs := seq(|fields|, i requires 0 <= i < |fields| => Eval(fields[i].value, env, m));
    ListAgrees(xs, vs, cenv, m);
    BracesAre(Tags(fields), xs, e.name, cenv, m);
  }

  lemma ElementsAgree(e: S.Expr, es: seq<S.Expr>, env: Scope, cenv: Env, m: Machine)
    requires (e == S.TupleLit(es) || e == S.ArrayLit(es)) && Eval(e, env, m).Some?
    requires forall i :: 0 <= i < |es| && Eval(es[i], env, m).Some? ==> EvalC(AsC(es[i]), cenv, m) == Eval(es[i], env, m)
    ensures EvalC(AsC(e), cenv, m) == Eval(e, env, m)
  {
    hide EvalC, ValuesOf, All, Fields, Places;
    OnesAre(cenv, m);
    var xs := seq(|es|, i requires 0 <= i < |es| => AsC(es[i]));
    var vs := seq(|es|, i requires 0 <= i < |es| => Eval(es[i], env, m));
    if es != [] || e.ArrayLit? {
      ListAgrees(xs, vs, cenv, m);
      BracesAre(Places(|es|), xs, "", cenv, m);
    }
  }

  lemma EnvAgree(e: S.Expr, env: Scope, cenv: Env, v: Val)
    requires Agree(Names(e), env, cenv) && Avoids(e, "_b")
    ensures Agree(Names(e), env, cenv - {"_b"}) && (Avoids(e, "_s") ==> Agree(Names(e), env, Inside(cenv, v)))
  {
    StillAgree(e, env, cenv, "_b", v);
    if Avoids(e, "_s") {
      StillAgree(e, env, cenv["_b" := v], "_s", v);
    }
  }

  predicate IsPart(x: S.Expr, e: S.Expr) {
    IsWhole(x) && IsClear(x) && Names(x) <= Names(e)
  }

  predicate IsSound(e: S.Expr) {
    IsWhole(e) && IsClear(e)
  }

  lemma SimpleParts(e: S.Expr)
    requires IsSound(e)
    ensures e.Literal? ==> LiteralIsC(e.kind, e.text)
    ensures e.Binary? ==> IsCBinaryOp(e.op) && IsPart(e.left, e) && IsPart(e.right, e)
    ensures e.Unary? ==> (e.op.KwAwait? || IsCUnaryOp(e.op)) && IsPart(e.operand, e)
    ensures e.ForceUnwrap? ==> IsPart(e.inner, e)
    ensures e.Field? || e.TupleIndex? || e.BitStrand? ==> IsPart(e.base, e)
    ensures !e.OptionalChain?
  {
    hide LiteralIsC, IsCBinaryOp, IsCUnaryOp;
    assert IsOperand(e) || e.TupleLit? || e.ArrayLit?;
  }

  lemma BitParts(e: S.Expr)
    requires IsSound(e)
    ensures e.Index? ==> IsPart(e.base, e) && IsPart(e.index, e)
    ensures e.BitSlice? ==> IsPart(e.base, e) && IsPart(e.lo, e) && IsPart(e.hi, e)
    ensures e.BitNotch? ==> IsPart(e.base, e) && IsPart(e.bit, e)
    ensures e.IfExpr? ==> IsPart(e.condition, e) && IsPart(e.thenExpr, e) && IsPart(e.elseExpr, e)
  {
    hide LiteralIsC, IsCBinaryOp, IsCUnaryOp;
    assert IsOperand(e) || e.TupleLit? || e.ArrayLit?;
  }

  lemma SliceParts(e: S.Expr)
    requires IsSound(e) && e.Slice?
    ensures IsPart(e.base, e) && (e.from.Some? ==> IsPart(e.from.value, e)) && (e.to.Some? ==> IsPart(e.to.value, e))
  {
    hide LiteralIsC, IsCBinaryOp, IsCUnaryOp, Avoids;
    assert IsOperand(e);
  }

  lemma ListParts(e: S.Expr)
    requires IsSound(e)
    ensures e.Call? ==> IsPart(e.callee, e) && forall i :: 0 <= i < |e.args| ==> IsPart(e.args[i].value, e)
    ensures e.StructLit? ==> forall i :: 0 <= i < |e.fields| ==> IsPart(e.fields[i].value, e)
    ensures e.TupleLit? || e.ArrayLit? ==> forall i :: 0 <= i < |e.elements| ==> IsPart(e.elements[i], e)
  {
    hide LiteralIsC, IsCBinaryOp, IsCUnaryOp;
    assert IsOperand(e) || e.TupleLit? || e.ArrayLit?;
  }

  lemma PartIsGiven(x: S.Expr, e: S.Expr, env: Scope, cenv: Env, m: Machine)
    requires IsPart(x, e) && Is64(m) && Agree(Names(e), env, cenv) && Eval(x, env, m).Some?
    ensures IsGiven(x, env, cenv, m)
  {}

  /** For every expression that can be C, machine of 64 bits and scope: when the expression has a value,
      the C text has the same. */
  lemma {:induction false} ValuesAgree(e: S.Expr, env: Scope, cenv: Env, m: Machine)
    requires IsGiven(e, env, cenv, m)
    ensures EvalC(AsC(e), cenv, m) == Eval(e, env, m)
    decreases e, 2
  {
    hide EvalC, Is64, LiteralTree, Agree, Names, IsClear, IsWhole, IsPart, Operate, IsCBinaryOp, IsCUnaryOp;
    SimpleParts(e);
    match e
    case Literal(k, t) => LiteralAgrees(k, t, cenv, m);
    case Ident(_, _) => NameAgrees(e, env, cenv, m);
    case Binary(op, l, r) =>
      PartAgrees(l, e, env, cenv, m);
      if Eval(r, env, m).Some? {
        PartAgrees(r, e, env, cenv, m);
      }
      OperationAgrees(e, env, cenv, m);
    case Unary(op, x) =>
      PartAgrees(x, e, env, cenv, m);
      PrefixAgrees(e, env, cenv, m);
    case ForceUnwrap(x) => PartAgrees(x, e, env, cenv, m);
    case Field(b, field) =>
      PartAgrees(b, e, env, cenv, m);
      PartIs(AsC(b), field, cenv, m);
    case TupleIndex(b, n) =>
      PartAgrees(b, e, env, cenv, m);
      PartIs(AsC(b), "_" + PrintNat(n), cenv, m);
    case BitStrand(b) =>
      PartAgrees(b, e, env, cenv, m);
      StrandAgrees(e, env, cenv, m);
    case Index(_, _) => BitsAgree(e, env, cenv, m);
    case BitSlice(_, _, _) => BitsAgree(e, env, cenv, m);
    case BitNotch(_, _) => BitsAgree(e, env, cenv, m);
    case IfExpr(_, _, _) => BitsAgree(e, env, cenv, m);
    case Slice(_, _, _) => SliceAgrees(e, env, cenv, m);
    case Call(_, _) => ListsAgree(e, env, cenv, m);
    case StructLit(_, _, _) => ListsAgree(e, env, cenv, m);
    case TupleLit(_) => ListsAgree(e, env, cenv, m);
    case ArrayLit(_) => ListsAgree(e, env, cenv, m);
  }

  lemma {:induction false} PartAgrees(x: S.Expr, e: S.Expr, env: Scope, cenv: Env, m: Machine)
    requires IsPart(x, e) && IsGiven(e, env, cenv, m) && Eval(x, env, m).Some?
    ensures EvalC(AsC(x), cenv, m) == Eval(x, env, m)
    decreases x, 3
  {
    hide EvalC, Eval, AsC, Is64, IsPart;
    PartIsGiven(x, e, env, cenv, m);
    ValuesAgree(x, env, cenv, m);
  }

  lemma {:induction false} BitsAgree(e: S.Expr, env: Scope, cenv: Env, m: Machine)
    requires (e.Index? || e.BitSlice? || e.BitNotch? || e.IfExpr?) && IsGiven(e, env, cenv, m)
    ensures EvalC(AsC(e), cenv, m) == Eval(e, env, m)
    decreases e, 1
  {
    hide EvalC, Is64, Agree, Names, IsClear, IsWhole, IsPart, SlitTree, NotchTree;
    BitParts(e);
    match e
    case Index(b, i) =>
      PartAgrees(b, e, env, cenv, m);
      PartAgrees(i, e, env, cenv, m);
      ElementIs(AsC(b), AsC(i), cenv, m);
    case BitSlice(b, lo, hi) =>
      PartAgrees(b, e, env, cenv, m);
      PartAgrees(lo, e, env, cenv, m);
      PartAgrees(hi, e, env, cenv, m);
      SlitAgrees(e, env, cenv, m);
    case BitNotch(b, bit) =>
      PartAgrees(b, e, env, cenv, m);
      PartAgrees(bit, e, env, cenv, m);
      NotchAgrees(e, env, cenv, m);
    case IfExpr(c, t, f) =>
      PartAgrees(c, e, env, cenv, m);
      if IsTrue(Eval(c, env, m).value) {
        PartAgrees(t, e, env, cenv, m);
      } else {
        PartAgrees(f, e, env, cenv, m);
      }
      ChoiceAgrees(AsC(c), AsC(t), AsC(f), cenv, m);
  }

  lemma PrefixAgrees(e: S.Expr, env: Scope, cenv: Env, m: Machine)
    requires e.Unary? && (e.op.KwAwait? || IsCUnaryOp(e.op)) && Eval(e, env, m).Some?
    requires EvalC(AsC(e.operand), cenv, m) == Eval(e.operand, env, m)
    ensures EvalC(AsC(e), cenv, m) == Eval(e, env, m)
  {
    if IsCUnaryOp(e.op) {
      UnarySpelled(e.op);
      hide Spelling, OpText;
      assert EvalC(Pre(UnaryOp(e.op), AsC(e.operand)), cenv, m) == Eval(e, env, m);
    }
  }

  lemma ElementIs(b: C, i: C, env: Env, m: Machine)
    ensures var v, w := EvalC(b, env, m), EvalC(i, env, m);
            EvalC(Element(b, i), env, m) == if v.None? || w.None? then None else m.index(v.value, w.value)
  {}

  lemma PartIs(b: C, field: string, env: Env, m: Machine)
    ensures var v := EvalC(b, env, m); EvalC(Part(b, field), env, m) == if v.None? then None else Member(m, v.value, field)
  {}

  /** An end of a slice, inside its block. */
  lemma {:induction false} InsideAgrees(x: S.Expr, e: S.Expr, env: Scope, cenv: Env, m: Machine, v: Val)
    requires IsPart(x, e) && IsGiven(e, env, cenv, m) && Eval(x, env, m).Some? && Avoids(x, "_b") && Avoids(x, "_s")
    ensures EvalC(AsC(x), Inside(cenv, v), m) == Eval(x, env, m)
    decreases x, 3
  {
    hide EvalC, Eval, AsC, Is64, Avoids, Inside;
    PartIsGiven(x, e, env, cenv, m);
    EnvAgree(x, env, cenv, v);
    ValuesAgree(x, env, Inside(cenv, v), m);
  }

  lemma {:induction false} OutsideAgrees(x: S.Expr, e: S.Expr, env: Scope, cenv: Env, m: Machine)
    requires IsPart(x, e) && IsGiven(e, env, cenv, m) && Eval(x, env, m).Some? && Avoids(x, "_b")
    ensures EvalC(AsC(x), cenv - {"_b"}, m) == Eval(x, env, m)
    decreases x, 3
  {
    hide EvalC, Eval, AsC, Is64, Avoids, Inside;
    PartIsGiven(x, e, env, cenv, m);
    EnvAgree(x, env, cenv, Num(0));
    ValuesAgree(x, env, cenv - {"_b"}, m);
  }

  lemma SliceAvoids(e: S.Expr)
    requires IsClear(e) && e.Slice?
    ensures Avoids(e.base, "_b") && (e.to.None? ==> Avoids(e.base, "_s"))
    ensures e.from.Some? ==> Avoids(e.from.value, "_b") && Avoids(e.from.value, "_s")
    ensures e.to.Some? ==> Avoids(e.to.value, "_b") && Avoids(e.to.value, "_s")
  {}

  lemma {:induction false} SliceAgrees(e: S.Expr, env: Scope, cenv: Env, m: Machine)
    requires e.Slice? && IsGiven(e, env, cenv, m)
    ensures EvalC(AsC(e), cenv, m) == Eval(e, env, m)
    decreases e, 0
  {
    hide EvalC, Is64, Agree, Names, IsClear, IsWhole, IsPart, Avoids, View, Count, CountTree, SliceTree, Inside;
    SliceParts(e);
    SliceAvoids(e);
    var b := e.base;
    var v := Eval(b, env, m).value;
    OutsideAgrees(b, e, env, cenv, m);
    var lo, l := Number("0"), Num(0);
    OnesAre(Inside(cenv, v), m);
    if e.from.Some? {
      InsideAgrees(e.from.value, e, env, cenv, m, v);
      lo, l := AsC(e.from.value), Eval(e.from.value, env, m).value;
    }
    var hi, h := CountTree(AsC(b)), Num(0);
    if e.to.Some? {
      InsideAgrees(e.to.value, e, env, cenv, m, v);
      hi, h := AsC(e.to.value), Eval(e.to.value, env, m).value;
    } else {
      InsideAgrees(b, e, env, cenv, m, v);
      CountAgrees(AsC(b), Inside(cenv, v), m, v);
      h := Count(v, m).value;
    }
    ViewAgrees(AsC(b), lo, hi, cenv, m, v, l, h);
  }

  lemma {:induction false} ListsAgree(e: S.Expr, env: Scope, cenv: Env, m: Machine)
    requires (e.Call? || e.StructLit? || e.TupleLit? || e.ArrayLit?) && IsGiven(e, env, cenv, m)
    ensures EvalC(AsC(e), cenv, m) == Eval(e, env, m)
    decreases e, 0
  {
    hide EvalC, Is64, Agree, Names, IsWhole, IsPart;
    ListParts(e);
    match e
    case Call(f, args) =>
      PartAgrees(f, e, env, cenv, m);
      forall i | 0 <= i < |args| && Eval(args[i].value, env, m).Some?
        ensures EvalC(AsC(args[i].value), cenv, m) == Eval(args[i].value, env, m) {
        PartAgrees(args[i].value, e, env, cenv, m);
      }
      CallAgrees(e, env, cenv, m);
    case StructLit(_, _, fields) =>
      forall i | 0 <= i < |fields| && Eval(fields[i].value, env, m).Some?
        ensures EvalC(AsC(fields[i].value), cenv, m) == Eval(fields[i].value, env, m) {
        PartAgrees(fields[i].value, e, env, cenv, m);
      }
      StructAgrees(e, env, cenv, m);
    case TupleLit(es) =>
      forall i | 0 <= i < |es| && Eval(es[i], env, m).Some? ensures EvalC(AsC(es[i]), cenv, m) == Eval(es[i], env, m) {
        PartAgrees(es[i], e, env, cenv, m);
      }
      ElementsAgree(e, es, env, cenv, m);
    case ArrayLit(es) =>
      forall i | 0 <= i < |es| && Eval(es[i], env, m).Some? ensures EvalC(AsC(es[i]), cenv, m) == Eval(es[i], env, m) {
        PartAgrees(es[i], e, env, cenv, m);
      }
      ElementsAgree(e, es, env, cenv, m);
  }

  /** What is printed is the text of a tree that keeps the rules of C, and whenever the expression has a
      value and is clear, the tree has that value. */
  lemma PrintedIsC(e: S.Expr, env: Scope, cenv: Env, m: Machine)
    requires IsWhole(e)
    ensures CText(AsC(e)) == Print(e) && IsInitializer(AsC(e)) && (IsOperand(e) ==> IsPrimary(AsC(e)))
    ensures IsGiven(e, env, cenv, m) ==> EvalC(AsC(e), cenv, m) == Eval(e, env, m)
  {
    hide *;
    PrintIs(e);
    TreesAreC(e);
    if IsGiven(e, env, cenv, m) {
      ValuesAgree(e, env, cenv, m);
    }
  }

  // ---- where it is not clear ---------------------------------------------------------------------------

  /** The block of a slice does not see what _b is outside. */
  lemma SliceCaptures(b: C, lo: C, hi: C, env: Env, m: Machine, w: Val)
    ensures EvalC(SliceTree(b, lo, hi), env["_b" := w], m) == EvalC(SliceTree(b, lo, hi), env, m)
  {
    hide EvalC, ViewLet, CText;
    var outer := env["_b" := w];
    var x := Let("__typeof__(" + CText(b) + ")", "_b", Paren(b), ViewLet(lo, hi));
    BlockIs(x, env, m);
    BlockIs(x, outer, m);
    LetIs("__typeof__(" + CText(b) + ")", "_b", Paren(b), ViewLet(lo, hi), env, m);
    LetIs("__typeof__(" + CText(b) + ")", "_b", Paren(b), ViewLet(lo, hi), outer, m);
    assert outer - {"_b"} == env - {"_b"};
    var v := EvalC(Paren(b), env - {"_b"}, m);
    if v.Some? {
      assert outer["_b" := v.value] == env["_b" := v.value];
    }
  }

  /** So a slice of a local _b has no value in C, whatever _b is. */
  lemma SliceOfB(from: Option<S.Expr>, to: Option<S.Expr>, env: Env, m: Machine)
    ensures EvalC(AsC(S.Slice(S.Ident("_b", []), from, to)), env, m) == None
  {
    var lo, hi := if from.None? then Number("0") else AsC(from.value), if to.None? then CountTree(Name("_b")) else AsC(to.value);
    assert AsC(S.Slice(S.Ident("_b", []), from, to)) == SliceTree(Name("_b"), lo, hi) by {
      assert AsC(S.Ident("_b", [])) == Name("_b");
    }
    assert EvalC(Paren(Name("_b")), env - {"_b"}, m) == None;
    hide EvalC, CText, AsC, ViewLet, CountTree;
    var kind := "__typeof__(" + CText(Name("_b")) + ")";
    BlockIs(Let(kind, "_b", Paren(Name("_b")), ViewLet(lo, hi)), env, m);
    LetIs(kind, "_b", Paren(Name("_b")), ViewLet(lo, hi), env, m);
  }
}
