/** Whatever the expression parser reads is a way to write the tree that it yields. */
module SotlasFormYields {
  import opened Options
  import opened SotlasTokens
  import opened SotlasParsing
  import opened SotlasForms
  import opened SotlasSteps
  import opened SotlasFormParses

  // ---- putting tokens together -----------------------------------------------------------

  /** From p up to q stands a form of the tree e. */
  ghost predicate IsRead(ws: seq<Word>, p: nat, f: Form, e: Expr, q: nat) {
    IsForm(f) && Tree(f) == e && Fit(ws, p, Spell(f), q)
  }

  lemma ReadParts(ws: seq<Word>, p: nat, f: Form, e: Expr, q: nat)
    requires IsRead(ws, p, f, e, q)
    ensures IsForm(f) && Tree(f) == e && Fit(ws, p, Spell(f), q) && Ended(ws) && p <= q < |ws|
  {
    hide IsForm, Tree, Spell;
  }

  lemma MakeBase(ws: seq<Word>, p: nat, f: Form, e: Expr, q: nat)
    requires IsForm(f) && Tree(f) == e && Fit(ws, p, Spell(f), q) && IsOperand(f) && !f.Dotted?
    ensures IsRead(ws, p, f, e, q) && IsBase(ws, p, f, e, q)
  {
    hide IsForm, Tree, Spell, IsOperand;
  }

  /** A form made of others: that it is one, its tree and its tokens. */
  lemma MarkedMade(b: Form)
    requires IsForm(b) && IsOperand(b)
    ensures IsForm(Asked(b)) && Tree(Asked(b)) == OptionalChain(Tree(b)) && Spell(Asked(b)) == Spell(b) + [Mark(QMark)] && IsOperand(Asked(b))
    ensures IsForm(Forced(b)) && Tree(Forced(b)) == ForceUnwrap(Tree(b)) && Spell(Forced(b)) == Spell(b) + [Mark(Not)] && IsOperand(Forced(b))
  {}

  lemma BitMade(b: Form, i: Form)
    requires IsForm(b) && IsOperand(b) && IsForm(i)
    ensures var f := Bit(b, i);
            && IsForm(f) && Tree(f) == BitNotch(Tree(b), Tree(i)) && IsOperand(f)
            && Spell(f) == Spell(b) + ([Mark(Dot)] + ([Mark(KwNotch)] + ([Mark(LBracket)] + (Spell(i) + [Mark(RBracket)]))))
  {}

  lemma BitsMade(b: Form, lo: Form, hi: Form)
    requires IsForm(b) && IsOperand(b) && IsForm(lo) && IsForm(hi)
    ensures var f := Bits(b, lo, hi);
            && IsForm(f) && Tree(f) == BitSlice(Tree(b), Tree(lo), Tree(hi)) && IsOperand(f)
            && Spell(f) == Spell(b)
                 + ([Mark(Dot)] + ([Mark(KwSlit)] + ([Mark(LBracket)] + (Spell(lo) + ([Mark(DotDot)] + (Spell(hi) + [Mark(RBracket)]))))))
  {}

  lemma CutMade(b: Form, lo: Option<Form>, hi: Option<Form>)
    requires IsForm(b) && IsOperand(b) && (lo.Some? ==> IsForm(lo.value)) && (hi.Some? ==> IsForm(hi.value))
    ensures var f := Cut(b, lo, hi);
            && IsForm(f) && Tree(f) == Slice(Tree(b), MaybeTree(lo), MaybeTree(hi)) && IsOperand(f)
            && Spell(f) == Spell(b) + ([Mark(LBracket)] + (Maybe(lo) + ([Mark(DotDot)] + (Maybe(hi) + [Mark(RBracket)]))))
  {}

  lemma Cons(ws: seq<Word>, p: nat, k: Kind, b: seq<Tok>, q: nat)
    requires p < |ws| && ws[p].kind == k && Fit(ws, p + 1, b, q)
    ensures Fit(ws, p, [Mark(k)] + b, q)
  {
    hide Fit;
    FitInside(ws, p + 1, b, q);
    FitOne(ws, p, Mark(k));
    Joined(ws, p, [Mark(k)], p + 1, b, q);
  }

  lemma ConsName(ws: seq<Word>, p: nat, b: seq<Tok>, q: nat)
    requires p < |ws| && ws[p].kind == Kind.Ident && Fit(ws, p + 1, b, q)
    ensures Fit(ws, p, [Named(ws[p].text)] + b, q)
  {
    hide Fit;
    FitInside(ws, p + 1, b, q);
    FitOne(ws, p, Named(ws[p].text));
    Joined(ws, p, [Named(ws[p].text)], p + 1, b, q);
  }

  lemma End(ws: seq<Word>, p: nat, k: Kind)
    requires Ended(ws) && p + 1 < |ws| && ws[p].kind == k
    ensures Fit(ws, p, [Mark(k)], p + 1)
  {
    FitOne(ws, p, Mark(k));
  }

  // ---- operators -----------------------------------------------------------------------------

  lemma {:induction false} ExprForm(ws: seq<Word>, p: nat) returns (f: Form)
    requires Ended(ws) && p < |ws| && ParseExpr(ws, p).Parsed?
    ensures IsRead(ws, p, f, ParseExpr(ws, p).value, ParseExpr(ws, p).next)
    decreases |ws| - p, 6
  {
    hide Clean, IsRead, ParseUnary, BinaryLoop;
    var r := ParseUnary(ws, p);
    var left := UnaryForm(ws, p);
    f := LoopForm(ws, p, left, r.value, r.next);
  }

  lemma {:induction false} LoopForm(ws: seq<Word>, p0: nat, left: Form, e: Expr, p: nat) returns (f: Form)
    requires Ended(ws) && p < |ws| && IsRead(ws, p0, left, e, p) && BinaryLoop(ws, e, p).Parsed?
    ensures IsRead(ws, p0, f, BinaryLoop(ws, e, p).value, BinaryLoop(ws, e, p).next)
    decreases |ws| - p, 5
  {
    hide Clean, IsRead, ParseUnary;
    if IsBinaryOp(ws[p].kind) {
      var r := ParseUnary(ws, p + 1);
      var right := UnaryForm(ws, p + 1);
      PairIsRead(ws, p0, left, e, p, right, r.value, r.next);
      f := LoopForm(ws, p0, Pair(left, ws[p].kind, right), Binary(ws[p].kind, e, r.value), r.next);
    } else {
      f := left;
    }
  }

  lemma PairIsRead(ws: seq<Word>, p: nat, l: Form, a: Expr, m: nat, r: Form, b: Expr, q: nat)
    requires IsRead(ws, p, l, a, m) && m < |ws| && IsBinaryOp(ws[m].kind) && IsRead(ws, m + 1, r, b, q) && !r.Pair?
    ensures IsRead(ws, p, Pair(l, ws[m].kind, r), Binary(ws[m].kind, a, b), q)
  {
    hide Fit;
    Cons(ws, m, ws[m].kind, Spell(r), q);
    Joined(ws, p, Spell(l), m, [Mark(ws[m].kind)] + Spell(r), q);
  }

  lemma {:induction false} UnaryForm(ws: seq<Word>, p: nat) returns (f: Form)
    requires Ended(ws) && p < |ws| && ParseUnary(ws, p).Parsed?
    ensures IsRead(ws, p, f, ParseUnary(ws, p).value, ParseUnary(ws, p).next) && !f.Pair?
    decreases |ws| - p, 4
  {
    hide Clean, IsRead, ParsePostfix;
    if IsUnaryOp(ws[p].kind) {
      var mut := ws[p].kind == LAnd && ws[p + 1].kind == KwMut;
      var n := if mut then p + 2 else p + 1;
      var r := ParseUnary(ws, n);
      var x := UnaryForm(ws, n);
      SignedIsRead(ws, p, mut, x, r.value, r.next);
      f := Signed(ws[p].kind, mut, x);
    } else {
      f := PostfixForm(ws, p);
    }
  }

  lemma SignedIsRead(ws: seq<Word>, p: nat, mut: bool, x: Form, e: Expr, q: nat)
    requires p + 1 < |ws| && IsUnaryOp(ws[p].kind) && (mut ==> ws[p].kind == LAnd && ws[p + 1].kind == KwMut)
    requires IsRead(ws, if mut then p + 2 else p + 1, x, e, q) && !x.Pair?
    ensures IsRead(ws, p, Signed(ws[p].kind, mut, x), Unary(ws[p].kind, e), q)
  {
    hide Fit;
    if mut {
      Cons(ws, p + 1, KwMut, Spell(x), q);
      Cons(ws, p, LAnd, [Mark(KwMut)] + Spell(x), q);
    } else {
      Cons(ws, p, ws[p].kind, Spell(x), q);
    }
  }

  lemma {:induction false} PostfixForm(ws: seq<Word>, p: nat) returns (f: Form)
    requires Ended(ws) && p < |ws| && ParsePostfix(ws, p).Parsed?
    ensures IsRead(ws, p, f, ParsePostfix(ws, p).value, ParsePostfix(ws, p).next) && !f.Pair?
    decreases |ws| - p, 3
  {
    hide Clean, IsRead, ParsePrimary, PostfixLoop;
    var r := ParsePrimary(ws, p);
    var b := PrimaryForm(ws, p);
    PrimaryIsOperand(b);
    f := SuffixForm(ws, p, b, r.value, r.next);
  }

  lemma PrimaryIsOperand(f: Form)
    ensures IsPrimary(f) ==> IsOperand(f) && !f.Dotted?
    ensures IsOperand(f) ==> !f.Pair?
  {}

  // ---- suffixes ----------------------------------------------------------------------------------

  /** A form with suffixes; a call behind a name that stands behind a point belongs to the name. */
  ghost predicate IsBase(ws: seq<Word>, p: nat, f: Form, e: Expr, q: nat) {
    IsRead(ws, p, f, e, q) && IsOperand(f) && q < |ws| && (f.Dotted? ==> !ws[q].kind.LParen?)
  }

  lemma {:induction false} SuffixForm(ws: seq<Word>, p0: nat, b: Form, e: Expr, p: nat) returns (f: Form)
    requires Ended(ws) && p < |ws| && IsBase(ws, p0, b, e, p) && PostfixLoop(ws, e, p).Parsed?
    ensures IsRead(ws, p0, f, PostfixLoop(ws, e, p).value, PostfixLoop(ws, e, p).next) && !f.Pair?
    decreases |ws| - p, 4
  {
    hide Clean, IsRead, PostfixLoop, IsOperand;
    PrimaryIsOperand(b);
    if EndsPostfix(ws[p].kind) {
      PostfixStops(ws, e, p);
      f := b;
    } else {
      var g, x, n := OneSuffix(ws, p0, b, e, p);
      f := SuffixForm(ws, p0, g, x, n);
    }
  }

  lemma {:induction false} OneSuffix(ws: seq<Word>, p0: nat, b: Form, e: Expr, p: nat) returns (g: Form, x: Expr, n: nat)
    requires Ended(ws) && p < |ws| && IsBase(ws, p0, b, e, p) && PostfixLoop(ws, e, p).Parsed? && !EndsPostfix(ws[p].kind)
    ensures p < n < |ws| && IsBase(ws, p0, g, x, n) && PostfixLoop(ws, e, p) == PostfixLoop(ws, x, n)
    decreases |ws| - p, 3
  {
    hide Clean, IsRead, ParseDot, ParseBracket, ParseCallArgs, IsOperand;
    var k := ws[p].kind;
    if k.Dot? {
      x, n := ParseDot(ws, e, p + 1).value, ParseDot(ws, e, p + 1).next;
      g := DotForm(ws, p0, b, e, p);
    } else if k.LBracket? {
      x, n := ParseBracket(ws, e, p + 1).value, ParseBracket(ws, e, p + 1).next;
      g := BracketForm(ws, p0, b, e, p);
    } else if k.LParen? {
      var r := ParseCallArgs(ws, p + 1);
      var args, comma := CallForm(ws, p + 1);
      AppliedIsRead(ws, p0, b, e, p, args, r.value, comma, r.next);
      g, x, n := Applied(b, args, comma), Call(e, r.value), r.next;
    } else {
      MarkedIsRead(ws, p0, b, e, p);
      g, x, n := if k.QMark? then Asked(b) else Forced(b), if k.QMark? then OptionalChain(e) else ForceUnwrap(e), p + 1;
    }
  }

  lemma MarkedIsRead(ws: seq<Word>, p: nat, b: Form, e: Expr, m: nat)
    requires IsRead(ws, p, b, e, m) && IsOperand(b) && m + 1 < |ws| && (ws[m].kind.QMark? || ws[m].kind.Not?)
    ensures ws[m].kind.QMark? ==> IsBase(ws, p, Asked(b), OptionalChain(e), m + 1)
    ensures ws[m].kind.Not? ==> IsBase(ws, p, Forced(b), ForceUnwrap(e), m + 1)
  {
    hide *;
    ReadParts(ws, p, b, e, m);
    MarkedMade(b);
    if ws[m].kind.QMark? {
      Closed(ws, p, Spell(b), m, QMark);
      MakeBase(ws, p, Asked(b), OptionalChain(e), m + 1);
    } else {
      Closed(ws, p, Spell(b), m, Not);
      MakeBase(ws, p, Forced(b), ForceUnwrap(e), m + 1);
    }
  }

  lemma {:induction false} DotForm(ws: seq<Word>, p0: nat, b: Form, e: Expr, p: nat) returns (f: Form)
    requires Ended(ws) && p + 1 < |ws| && ws[p].kind.Dot? && IsRead(ws, p0, b, e, p) && IsOperand(b) && ParseDot(ws, e, p + 1).Parsed?
    ensures IsBase(ws, p0, f, ParseDot(ws, e, p + 1).value, ParseDot(ws, e, p + 1).next)
    decreases |ws| - p, 2
  {
    hide Clean, IsRead, ParseBitSlice, ParseBitNotch, ParseMember, DecimalValue, IsOperand;
    var k := ws[p + 1].kind;
    if k.KwSlit? {
      f := BitsForm(ws, p0, b, e, p);
    } else if k.KwNotch? {
      f := BitForm(ws, p0, b, e, p);
    } else if k.KwStrand? {
      OrderIsRead(ws, p0, b, e, p);
      f := Order(b);
    } else if k.IntLit? {
      PlaceIsRead(ws, p0, b, e, p);
      f := Place(b, ws[p + 1].text);
    } else {
      f := MemberForm(ws, p0, b, e, p);
    }
  }

  lemma OrderIsRead(ws: seq<Word>, p: nat, b: Form, e: Expr, m: nat)
    requires IsRead(ws, p, b, e, m) && IsOperand(b) && m + 2 < |ws| && ws[m].kind.Dot? && ws[m + 1].kind.KwStrand?
    ensures IsBase(ws, p, Order(b), BitStrand(e), m + 2)
  {
    hide Fit, StopsName, IsLiteral;
    ReadParts(ws, p, b, e, m);
    End(ws, m + 1, KwStrand);
    Cons(ws, m, Dot, [Mark(KwStrand)], m + 2);
    Joined(ws, p, Spell(b), m, [Mark(Dot)] + [Mark(KwStrand)], m + 2);
  }

  lemma PlaceIsRead(ws: seq<Word>, p: nat, b: Form, e: Expr, m: nat)
    requires IsRead(ws, p, b, e, m) && IsOperand(b) && m + 2 < |ws| && ws[m].kind.Dot? && ws[m + 1].kind.IntLit?
    requires DecimalValue(ws[m + 1].text).Some?
    ensures IsBase(ws, p, Place(b, ws[m + 1].text), TupleIndex(e, DecimalValue(ws[m + 1].text).value), m + 2)
  {
    hide Fit, DecimalValue;
    ReadParts(ws, p, b, e, m);
    var t := Exact(Word(IntLit, ws[m + 1].text));
    FitOne(ws, m + 1, t);
    Cons(ws, m, Dot, [t], m + 2);
    Joined(ws, p, Spell(b), m, [Mark(Dot)] + [t], m + 2);
  }

  /** What was read behind a keyword in a suffix. */
  lemma BitsRead(ws: seq<Word>, e: Expr, p: nat) returns (a: nat, c: nat)
    requires Ended(ws) && p < |ws| && ParseBitSlice(ws, e, p).Parsed?
    ensures ws[p].kind == LBracket && p + 1 < a < |ws| - 1 && ws[a].kind == DotDot && a + 1 < c < |ws| - 1 && ws[c].kind == RBracket
    ensures ParseExpr(ws, p + 1).Parsed? && ParseExpr(ws, p + 1).next == a
    ensures ParseExpr(ws, a + 1).Parsed? && ParseExpr(ws, a + 1).next == c
    ensures ParseBitSlice(ws, e, p) == Parsed(BitSlice(e, ParseExpr(ws, p + 1).value, ParseExpr(ws, a + 1).value), c + 1)
  {
    hide Clean, ParseExpr;
    a := ParseExpr(ws, p + 1).next;
    c := ParseExpr(ws, a + 1).next;
  }

  lemma {:induction false} BitsForm(ws: seq<Word>, p0: nat, b: Form, e: Expr, p: nat) returns (f: Form)
    requires Ended(ws) && p + 2 < |ws| && ws[p].kind.Dot? && ws[p + 1].kind.KwSlit? && IsRead(ws, p0, b, e, p) && IsOperand(b)
    requires ParseBitSlice(ws, e, p + 2).Parsed?
    ensures IsBase(ws, p0, f, ParseBitSlice(ws, e, p + 2).value, ParseBitSlice(ws, e, p + 2).next)
    decreases |ws| - p, 1
  {
    hide *;
    var a, c := BitsRead(ws, e, p + 2);
    var lo := ExprForm(ws, p + 3);
    var hi := ExprForm(ws, a + 1);
    f := Bits(b, lo, hi);
    BitsAreRead(ws, p0, b, e, p, lo, ParseExpr(ws, p + 3).value, a, hi, ParseExpr(ws, a + 1).value, c);
  }

  lemma BitsAreRead(ws: seq<Word>, p: nat, b: Form, e: Expr, m: nat, lo: Form, x: Expr, a: nat, hi: Form, y: Expr, c: nat)
    requires IsRead(ws, p, b, e, m) && IsOperand(b) && m + 3 < |ws| && ws[m].kind == Dot && ws[m + 1].kind == KwSlit && ws[m + 2].kind == LBracket
    requires IsRead(ws, m + 3, lo, x, a) && a < |ws| && ws[a].kind == DotDot && IsRead(ws, a + 1, hi, y, c) && c + 1 < |ws| && ws[c].kind == RBracket
    ensures IsBase(ws, p, Bits(b, lo, hi), BitSlice(e, x, y), c + 1)
  {
    hide *;
    ReadParts(ws, p, b, e, m);
    ReadParts(ws, m + 3, lo, x, a);
    ReadParts(ws, a + 1, hi, y, c);
    BitsMade(b, lo, hi);
    BoundsFit(ws, m + 3, Spell(lo), a, Spell(hi), c);
    KeywordFits(ws, p, Spell(b), m, KwSlit, Spell(lo) + ([Mark(DotDot)] + (Spell(hi) + [Mark(RBracket)])), c + 1);
    MakeBase(ws, p, Bits(b, lo, hi), BitSlice(e, x, y), c + 1);
  }

  /** Two bounds and the closing bracket. */
  lemma BoundsFit(ws: seq<Word>, p: nat, lo: seq<Tok>, a: nat, hi: seq<Tok>, c: nat)
    requires Fit(ws, p, lo, a) && a < |ws| && ws[a].kind == DotDot && Fit(ws, a + 1, hi, c) && c + 1 < |ws| && ws[c].kind == RBracket
    ensures Fit(ws, p, lo + ([Mark(DotDot)] + (hi + [Mark(RBracket)])), c + 1)
  {
    hide *;
    Closed(ws, a + 1, hi, c, RBracket);
    Cons(ws, a, DotDot, hi + [Mark(RBracket)], c + 1);
    Joined(ws, p, lo, a, [Mark(DotDot)] + (hi + [Mark(RBracket)]), c + 1);
  }

  lemma BitRead(ws: seq<Word>, e: Expr, p: nat) returns (c: nat)
    requires Ended(ws) && p < |ws| && ParseBitNotch(ws, e, p).Parsed?
    ensures ws[p].kind == LBracket && p + 1 < c < |ws| - 1 && ws[c].kind == RBracket
    ensures ParseExpr(ws, p + 1).Parsed? && ParseExpr(ws, p + 1).next == c
    ensures ParseBitNotch(ws, e, p) == Parsed(BitNotch(e, ParseExpr(ws, p + 1).value), c + 1)
  {
    hide Clean, ParseExpr;
    c := ParseExpr(ws, p + 1).next;
  }

  lemma {:induction false} BitForm(ws: seq<Word>, p0: nat, b: Form, e: Expr, p: nat) returns (f: Form)
    requires Ended(ws) && p + 2 < |ws| && ws[p].kind.Dot? && ws[p + 1].kind.KwNotch? && IsRead(ws, p0, b, e, p) && IsOperand(b)
    requires ParseBitNotch(ws, e, p + 2).Parsed?
    ensures IsBase(ws, p0, f, ParseBitNotch(ws, e, p + 2).value, ParseBitNotch(ws, e, p + 2).next)
    decreases |ws| - p, 1
  {
    hide *;
    var c := BitRead(ws, e, p + 2);
    var i := ExprForm(ws, p + 3);
    f := Bit(b, i);
    BitIsRead(ws, p0, b, e, p, i, ParseExpr(ws, p + 3).value, c);
  }

  /** A base, a point, a keyword and a bracket in front of the rest of a suffix. */
  lemma KeywordFits(ws: seq<Word>, p: nat, base: seq<Tok>, m: nat, k: Kind, tail: seq<Tok>, q: nat)
    requires Fit(ws, p, base, m) && m + 3 < |ws| && ws[m].kind == Dot && ws[m + 1].kind == k && ws[m + 2].kind == LBracket && Fit(ws, m + 3, tail, q)
    ensures Fit(ws, p, base + ([Mark(Dot)] + ([Mark(k)] + ([Mark(LBracket)] + tail))), q)
  {
    hide *;
    Cons(ws, m + 2, LBracket, tail, q);
    Cons(ws, m + 1, k, [Mark(LBracket)] + tail, q);
    Cons(ws, m, Dot, [Mark(k)] + ([Mark(LBracket)] + tail), q);
    Joined(ws, p, base, m, [Mark(Dot)] + ([Mark(k)] + ([Mark(LBracket)] + tail)), q);
  }

  lemma Closed(ws: seq<Word>, p: nat, a: seq<Tok>, c: nat, k: Kind)
    requires Fit(ws, p, a, c) && c + 1 < |ws| && ws[c].kind == k
    ensures Fit(ws, p, a + [Mark(k)], c + 1)
  {
    hide *;
    FitInside(ws, p, a, c);
    End(ws, c, k);
    Joined(ws, p, a, c, [Mark(k)], c + 1);
  }

  lemma BitIsRead(ws: seq<Word>, p: nat, b: Form, e: Expr, m: nat, i: Form, x: Expr, c: nat)
    requires IsRead(ws, p, b, e, m) && IsOperand(b) && m + 3 < |ws| && ws[m].kind == Dot && ws[m + 1].kind == KwNotch && ws[m + 2].kind == LBracket
    requires IsRead(ws, m + 3, i, x, c) && c + 1 < |ws| && ws[c].kind == RBracket
    ensures IsBase(ws, p, Bit(b, i), BitNotch(e, x), c + 1)
  {
    hide *;
    ReadParts(ws, p, b, e, m);
    ReadParts(ws, m + 3, i, x, c);
    BitMade(b, i);
    Closed(ws, m + 3, Spell(i), c, RBracket);
    KeywordFits(ws, p, Spell(b), m, KwNotch, Spell(i) + [Mark(RBracket)], c + 1);
    MakeBase(ws, p, Bit(b, i), BitNotch(e, x), c + 1);
  }

  lemma {:induction false} MemberForm(ws: seq<Word>, p0: nat, b: Form, e: Expr, p: nat) returns (f: Form)
    requires Ended(ws) && p + 1 < |ws| && ws[p].kind.Dot? && IsRead(ws, p0, b, e, p) && IsOperand(b) && ParseMember(ws, e, p + 1).Parsed?
    ensures IsBase(ws, p0, f, ParseMember(ws, e, p + 1).value, ParseMember(ws, e, p + 1).next)
    decreases |ws| - p, 1
  {
    hide Clean, IsRead, ParseCallArgs, IsOperand, IsBase;
    if ws[p + 2].kind.LParen? {
      var r := ParseCallArgs(ws, p + 3);
      var args, comma := CallForm(ws, p + 3);
      MethodIsRead(ws, p0, b, e, p, args, r.value, comma, r.next);
      f := Method(b, ws[p + 1].text, args, comma);
    } else {
      DottedIsRead(ws, p0, b, e, p);
      f := Dotted(b, ws[p + 1].text);
    }
  }

  lemma DottedIsRead(ws: seq<Word>, p: nat, b: Form, e: Expr, m: nat)
    requires IsRead(ws, p, b, e, m) && IsOperand(b) && m + 2 < |ws| && ws[m].kind.Dot? && ws[m + 1].kind.Ident? && !ws[m + 2].kind.LParen?
    ensures IsBase(ws, p, Dotted(b, ws[m + 1].text), Field(e, ws[m + 1].text), m + 2)
  {
    hide Fit;
    ReadParts(ws, p, b, e, m);
    var t := Named(ws[m + 1].text);
    FitOne(ws, m + 1, t);
    Cons(ws, m, Dot, [t], m + 2);
    Joined(ws, p, Spell(b), m, [Mark(Dot)] + [t], m + 2);
  }

  /** Arguments with their closing parenthesis. */
  ghost predicate AreArgsRead(ws: seq<Word>, p: nat, args: seq<ArgForm>, comma: bool, es: seq<Arg>, q: nat) {
    && AreArgForms(args) && (comma ==> args != []) && ArgTrees(args) == es
    && Fit(ws, p, SpellArgs(args, comma) + [Mark(RParen)], q)
  }

  lemma MethodIsRead(ws: seq<Word>, p: nat, b: Form, e: Expr, m: nat, args: seq<ArgForm>, es: seq<Arg>, comma: bool, q: nat)
    requires IsRead(ws, p, b, e, m) && IsOperand(b) && m + 2 < |ws| && ws[m].kind.Dot? && ws[m + 1].kind.Ident? && ws[m + 2].kind.LParen?
    requires AreArgsRead(ws, m + 3, args, comma, es, q)
    ensures IsBase(ws, p, Method(b, ws[m + 1].text, args, comma), Call(Field(e, ws[m + 1].text), es), q)
  {
    hide Fit, SpellArgs, AreArgForms, ArgTrees;
    ReadParts(ws, p, b, e, m);
    var tail := SpellArgs(args, comma) + [Mark(RParen)];
    FitInside(ws, m + 3, tail, q);
    Cons(ws, m + 2, LParen, tail, q);
    ConsName(ws, m + 1, [Mark(LParen)] + tail, q);
    Cons(ws, m, Dot, [Named(ws[m + 1].text)] + ([Mark(LParen)] + tail), q);
    Joined(ws, p, Spell(b), m, [Mark(Dot)] + ([Named(ws[m + 1].text)] + ([Mark(LParen)] + tail)), q);
  }

  lemma AppliedIsRead(ws: seq<Word>, p: nat, b: Form, e: Expr, m: nat, args: seq<ArgForm>, es: seq<Arg>, comma: bool, q: nat)
    requires IsRead(ws, p, b, e, m) && IsOperand(b) && !b.Dotted? && m < |ws| && ws[m].kind.LParen?
    requires AreArgsRead(ws, m + 1, args, comma, es, q)
    ensures IsRead(ws, p, Applied(b, args, comma), Call(e, es), q) && IsOperand(Applied(b, args, comma))
  {
    hide Fit, SpellArgs, AreArgForms, ArgTrees;
    var tail := SpellArgs(args, comma) + [Mark(RParen)];
    Cons(ws, m, LParen, tail, q);
    Joined(ws, p, Spell(b), m, [Mark(LParen)] + tail, q);
  }

  /** What was read in brackets: an index, or a slice with the bounds that it has. */
  lemma IndexRead(ws: seq<Word>, e: Expr, p: nat) returns (c: nat)
    requires Ended(ws) && p < |ws| && ParseBracket(ws, e, p).Parsed? && ws[p].kind != DotDot
    requires ParseExpr(ws, p).Parsed? ==> ws[ParseExpr(ws, p).next].kind != DotDot
    ensures ParseExpr(ws, p).Parsed? && ParseExpr(ws, p).next == c && p < c < |ws| - 1 && ws[c].kind == RBracket
    ensures ParseBracket(ws, e, p) == Parsed(Index(e, ParseExpr(ws, p).value), c + 1)
  {
    hide Clean, ParseExpr, ParseSliceEnd;
    c := ParseExpr(ws, p).next;
  }

  lemma CutRead(ws: seq<Word>, e: Expr, p: nat) returns (a: nat)
    requires Ended(ws) && p < |ws| && ParseBracket(ws, e, p).Parsed?
    requires ws[p].kind == DotDot || (ParseExpr(ws, p).Parsed? && ws[ParseExpr(ws, p).next].kind == DotDot)
    ensures p <= a < |ws| - 1 && ws[a].kind == DotDot
    ensures ws[p].kind == DotDot ==> a == p
    ensures ws[p].kind != DotDot ==> ParseExpr(ws, p).next == a
    ensures ParseSliceEnd(ws, a + 1).Parsed?
    ensures ParseBracket(ws, e, p) == Parsed(Slice(e, if ws[p].kind == DotDot then None else Some(ParseExpr(ws, p).value),
                                                  ParseSliceEnd(ws, a + 1).value), ParseSliceEnd(ws, a + 1).next)
  {
    hide Clean, ParseExpr, ParseSliceEnd;
    a := if ws[p].kind == DotDot then p else ParseExpr(ws, p).next;
  }

  lemma {:induction false} BracketForm(ws: seq<Word>, p0: nat, b: Form, e: Expr, p: nat) returns (f: Form)
    requires Ended(ws) && p + 1 < |ws| && ws[p].kind.LBracket? && IsRead(ws, p0, b, e, p) && IsOperand(b) && ParseBracket(ws, e, p + 1).Parsed?
    ensures IsBase(ws, p0, f, ParseBracket(ws, e, p + 1).value, ParseBracket(ws, e, p + 1).next)
    decreases |ws| - p, 2
  {
    hide *;
    var r := ParseExpr(ws, p + 1);
    BracketStarts(ws, e, p + 1);
    if ws[p + 1].kind != DotDot && ws[r.next].kind != DotDot {
      var c := IndexRead(ws, e, p + 1);
      var i := ExprForm(ws, p + 1);
      f := Indexed(b, i);
      IndexedIsRead(ws, p0, b, e, p, i, r.value, c);
    } else {
      var a := CutRead(ws, e, p + 1);
      var lo, x := LowForm(ws, p + 1, a);
      var hi, c := BoundForm(ws, a + 1);
      f := Cut(b, lo, hi);
      CutIsRead(ws, p0, b, e, p, lo, x, a, hi, ParseSliceEnd(ws, a + 1).value, c);
    }
  }

  lemma {:induction false} LowForm(ws: seq<Word>, p: nat, a: nat) returns (lo: Option<Form>, x: Option<Expr>)
    requires Ended(ws) && p < |ws| && (if ws[p].kind == DotDot then a == p else ParseExpr(ws, p).Parsed? && ParseExpr(ws, p).next == a)
    ensures IsBound(ws, p, lo, x, a) && x == if ws[p].kind == DotDot then None else Some(ParseExpr(ws, p).value)
    decreases |ws| - p, 7
  {
    hide IsRead, ParseExpr;
    lo, x := None, None;
    if ws[p].kind != DotDot {
      var g := ExprForm(ws, p);
      lo, x := Some(g), Some(ParseExpr(ws, p).value);
    }
  }

  lemma BracketStarts(ws: seq<Word>, e: Expr, p: nat)
    requires Ended(ws) && p < |ws| && ParseBracket(ws, e, p).Parsed?
    ensures ws[p].kind != DotDot ==> ParseExpr(ws, p).Parsed? && ParseExpr(ws, p).next < |ws|
  {
    hide Clean, ParseExpr, ParseSliceEnd;
  }

  lemma IndexedIsRead(ws: seq<Word>, p: nat, b: Form, e: Expr, m: nat, i: Form, x: Expr, c: nat)
    requires IsRead(ws, p, b, e, m) && IsOperand(b) && m < |ws| && ws[m].kind == LBracket
    requires IsRead(ws, m + 1, i, x, c) && c + 1 < |ws| && ws[c].kind == RBracket
    ensures IsBase(ws, p, Indexed(b, i), Index(e, x), c + 1)
  {
    hide Fit;
    Closed(ws, m + 1, Spell(i), c, RBracket);
    Cons(ws, m, LBracket, Spell(i) + [Mark(RBracket)], c + 1);
    Joined(ws, p, Spell(b), m, [Mark(LBracket)] + (Spell(i) + [Mark(RBracket)]), c + 1);
  }

  /** A bound of a slice, or none. */
  ghost predicate IsBound(ws: seq<Word>, p: nat, f: Option<Form>, x: Option<Expr>, q: nat) {
    && (f.Some? <==> x.Some?) && (f.Some? ==> IsRead(ws, p, f.value, x.value, q)) && (f.None? ==> p == q)
  }

  lemma {:induction false} BoundForm(ws: seq<Word>, p: nat) returns (f: Option<Form>, c: nat)
    requires Ended(ws) && p < |ws| && ParseSliceEnd(ws, p).Parsed?
    ensures IsBound(ws, p, f, ParseSliceEnd(ws, p).value, c) && p <= c < |ws| - 1 && ws[c].kind == RBracket && ParseSliceEnd(ws, p).next == c + 1
    decreases |ws| - p, 7
  {
    hide Clean, IsRead, ParseExpr;
    if ws[p].kind == RBracket {
      f, c := None, p;
    } else {
      var g := ExprForm(ws, p);
      f, c := Some(g), ParseExpr(ws, p).next;
    }
  }

  lemma BoundFits(ws: seq<Word>, p: nat, f: Option<Form>, x: Option<Expr>, q: nat)
    requires IsBound(ws, p, f, x, q) && Ended(ws) && p < |ws|
    ensures (f.Some? ==> IsForm(f.value)) && MaybeTree(f) == x && Fit(ws, p, Maybe(f), q)
  {
    hide IsForm, Tree, Spell;
  }

  lemma CutIsRead(ws: seq<Word>, p: nat, b: Form, e: Expr, m: nat, lo: Option<Form>, x: Option<Expr>, a: nat, hi: Option<Form>, y: Option<Expr>, c: nat)
    requires IsRead(ws, p, b, e, m) && IsOperand(b) && m + 1 < |ws| && ws[m].kind == LBracket
    requires IsBound(ws, m + 1, lo, x, a) && a + 1 < |ws| && ws[a].kind == DotDot
    requires IsBound(ws, a + 1, hi, y, c) && c + 1 < |ws| && ws[c].kind == RBracket
    ensures IsBase(ws, p, Cut(b, lo, hi), Slice(e, x, y), c + 1)
  {
    hide *;
    ReadParts(ws, p, b, e, m);
    BoundFits(ws, m + 1, lo, x, a);
    BoundFits(ws, a + 1, hi, y, c);
    CutMade(b, lo, hi);
    BoundsFit(ws, m + 1, Maybe(lo), a, Maybe(hi), c);
    var tail := Maybe(lo) + ([Mark(DotDot)] + (Maybe(hi) + [Mark(RBracket)]));
    Cons(ws, m, LBracket, tail, c + 1);
    Joined(ws, p, Spell(b), m, [Mark(LBracket)] + tail, c + 1);
    MakeBase(ws, p, Cut(b, lo, hi), Slice(e, x, y), c + 1);
  }

  // ---- arguments ----------------------------------------------------------------------------------

  ghost predicate IsArgRead(ws: seq<Word>, p: nat, a: ArgForm, x: Arg, q: nat) {
    IsForm(a.value) && ArgTree(a) == x && Fit(ws, p, SpellArg(a), q)
  }

  lemma {:induction false} ArgForm_(ws: seq<Word>, p: nat) returns (a: ArgForm)
    requires Ended(ws) && p < |ws| && ParseArg(ws, p).Parsed?
    ensures IsArgRead(ws, p, a, ParseArg(ws, p).value, ParseArg(ws, p).next)
    decreases |ws| - p, 7
  {
    hide Clean, IsRead, IsArgRead, ParseExpr;
    if ws[p].kind == Kind.Ident && ws[p + 1].kind == Colon {
      var f := ExprForm(ws, p + 2);
      a := ArgForm(Some(ws[p].text), f);
      LabelledIsRead(ws, p, f, ParseExpr(ws, p + 2).value, ParseExpr(ws, p + 2).next);
    } else {
      var f := ExprForm(ws, p);
      a := ArgForm(None, f);
      BareIsRead(ws, p, f, ParseExpr(ws, p).value, ParseExpr(ws, p).next);
    }
  }

  lemma LabelledIsRead(ws: seq<Word>, p: nat, f: Form, e: Expr, q: nat)
    requires IsRead(ws, p + 2, f, e, q) && p + 1 < |ws| && ws[p].kind == Kind.Ident && ws[p + 1].kind == Colon
    ensures IsArgRead(ws, p, ArgForm(Some(ws[p].text), f), Arg(Some(ws[p].text), e), q)
  {
    hide Fit, IsForm, Tree, Spell;
    Cons(ws, p + 1, Colon, Spell(f), q);
    ConsName(ws, p, [Mark(Colon)] + Spell(f), q);
  }

  lemma BareIsRead(ws: seq<Word>, p: nat, f: Form, e: Expr, q: nat)
    requires IsRead(ws, p, f, e, q)
    ensures IsArgRead(ws, p, ArgForm(None, f), Arg(None, e), q)
  {
    hide Fit, IsForm, Tree, Spell;
  }

  lemma {:induction false} CallForm(ws: seq<Word>, p: nat) returns (args: seq<ArgForm>, comma: bool)
    requires Ended(ws) && p < |ws| && ParseCallArgs(ws, p).Parsed?
    ensures AreArgsRead(ws, p, args, comma, ParseCallArgs(ws, p).value, ParseCallArgs(ws, p).next)
    decreases |ws| - p, 9
  {
    hide Clean, ParseArg, ArgLoop, AreArgsRead, IsArgRead;
    if ws[p].kind == RParen {
      args, comma := [], false;
      NoArgsRead(ws, p);
    } else {
      var r := ParseArg(ws, p);
      var a := ArgForm_(ws, p);
      var more;
      more, comma := ArgsForm(ws, [r.value], r.next);
      args := [a] + more;
      ArgsAreRead(ws, p, a, r.value, r.next, more, comma, ArgLoop(ws, [r.value], r.next).value, ArgLoop(ws, [r.value], r.next).next);
    }
  }

  lemma NoArgsRead(ws: seq<Word>, p: nat)
    requires Ended(ws) && p + 1 < |ws| && ws[p].kind == RParen
    ensures AreArgsRead(ws, p, [], false, [], p + 1)
  {
    End(ws, p, RParen);
    assert [] + [Mark(RParen)] == [Mark(RParen)];
  }

  /** The arguments behind one: `es` are those before them with theirs. */
  ghost predicate AreMoreArgs(ws: seq<Word>, p: nat, have: seq<Arg>, args: seq<ArgForm>, comma: bool, es: seq<Arg>, q: nat) {
    AreArgForms(args) && have + ArgTrees(args) == es && Fit(ws, p, Comma_(args != [] || comma) + SpellArgs(args, comma), q)
  }

  lemma {:induction false} ArgsForm(ws: seq<Word>, have: seq<Arg>, p: nat) returns (args: seq<ArgForm>, comma: bool)
    requires Ended(ws) && p < |ws| && ArgLoop(ws, have, p).Parsed?
    ensures AreMoreArgs(ws, p, have, args, comma, ArgLoop(ws, have, p).value, ArgLoop(ws, have, p).next)
    decreases |ws| - p, 8
  {
    hide Clean, ParseArg, AreMoreArgs, IsArgRead;
    if ws[p].kind != Comma || ws[p + 1].kind == RParen {
      args, comma := [], ws[p].kind == Comma;
      LastArgs(ws, have, p, comma);
    } else {
      var r := ParseArg(ws, p + 1);
      var a := ArgForm_(ws, p + 1);
      var more;
      more, comma := ArgsForm(ws, have + [r.value], r.next);
      args := [a] + more;
      MoreArgsAre(ws, p, have, a, r.value, r.next, more, comma, ArgLoop(ws, have, p).value, ArgLoop(ws, have, p).next);
    }
  }

  lemma LastArgs(ws: seq<Word>, have: seq<Arg>, p: nat, comma: bool)
    requires Ended(ws) && p < |ws| && (comma ==> p + 1 < |ws| && ws[p].kind == Comma)
    ensures AreMoreArgs(ws, p, have, [], comma, have, if comma then p + 1 else p)
  {
    assert have + [] == have;
    if comma {
      End(ws, p, Comma);
      assert [Mark(Comma)] + [] == [Mark(Comma)];
    }
  }

  lemma ArgsCons(a: ArgForm, more: seq<ArgForm>, comma: bool)
    ensures var args := [a] + more;
            && (IsForm(a.value) && AreArgForms(more) ==> AreArgForms(args))
            && ArgTrees(args) == [ArgTree(a)] + ArgTrees(more)
            && SpellArgs(args, comma) == SpellArg(a) + (Comma_(more != [] || comma) + SpellArgs(more, comma))
  {
    hide IsForm, Tree, Spell, SpellArg;
    var args := [a] + more;
    assert args[0] == a && args[1..] == more;
  }

  lemma MoreArgsAre(ws: seq<Word>, p: nat, have: seq<Arg>, a: ArgForm, x: Arg, m: nat, more: seq<ArgForm>, comma: bool, es: seq<Arg>, q: nat)
    requires p < |ws| && ws[p].kind == Comma && IsArgRead(ws, p + 1, a, x, m) && AreMoreArgs(ws, m, have + [x], more, comma, es, q)
    ensures AreMoreArgs(ws, p, have, [a] + more, comma, es, q)
  {
    hide Fit, IsForm, AreArgForms, ArgTrees, SpellArgs, SpellArg, ArgTree;
    ArgsCons(a, more, comma);
    Joined(ws, p + 1, SpellArg(a), m, Comma_(more != [] || comma) + SpellArgs(more, comma), q);
    Cons(ws, p, Comma, SpellArgs([a] + more, comma), q);
    assert (have + [x]) + ArgTrees(more) == have + ([x] + ArgTrees(more));
  }

  lemma ArgsAreRead(ws: seq<Word>, p: nat, a: ArgForm, x: Arg, m: nat, more: seq<ArgForm>, comma: bool, es: seq<Arg>, q: nat)
    requires IsArgRead(ws, p, a, x, m) && AreMoreArgs(ws, m, [x], more, comma, es, q) && Ended(ws) && q + 1 < |ws| && ws[q].kind == RParen
    ensures AreArgsRead(ws, p, [a] + more, comma, es, q + 1)
  {
    hide Fit, IsForm, AreArgForms, ArgTrees, SpellArgs, SpellArg, ArgTree;
    ArgsCons(a, more, comma);
    Joined(ws, p, SpellArg(a), m, Comma_(more != [] || comma) + SpellArgs(more, comma), q);
    End(ws, q, RParen);
    Joined(ws, p, SpellArgs([a] + more, comma), q, [Mark(RParen)], q + 1);
  }

  // ---- primaries ------------------------------------------------------------------------------------

  lemma {:induction false} PrimaryForm(ws: seq<Word>, p: nat) returns (f: Form)
    requires Ended(ws) && p < |ws| && ParsePrimary(ws, p).Parsed?
    ensures IsRead(ws, p, f, ParsePrimary(ws, p).value, ParsePrimary(ws, p).next) && IsPrimary(f)
    decreases |ws| - p, 2
  {
    hide Clean, IsRead, ParseNamed, ParseParenthesized, ParseArray, ParseIfExpr, IsLiteral;
    var w := ws[p];
    if IsLiteral(w.kind) || w.kind == KwSelf || w.kind == KwSuper {
      AtomIsRead(ws, p);
      f := Atom(w);
    } else if w.kind.Ident? {
      f := NamedForm(ws, p);
    } else if w.kind.LParen? {
      f := ParenthesizedForm(ws, p);
    } else if w.kind.LBracket? {
      f := ArrayForm(ws, p);
    } else {
      f := ChoiceForm(ws, p);
    }
  }

  lemma AtomIsRead(ws: seq<Word>, p: nat)
    requires Ended(ws) && p + 1 < |ws| && (IsLiteral(ws[p].kind) || ws[p].kind == KwSelf || ws[p].kind == KwSuper)
    ensures IsRead(ws, p, Atom(ws[p]), if IsLiteral(ws[p].kind) then Literal(ws[p].kind, ws[p].text) else Expr.Ident(ws[p].text, []), p + 1)
  {}

  lemma {:induction false} PathRead(ws: seq<Word>, p: nat, have: seq<string>) returns (names: seq<string>)
    requires Ended(ws) && p + 1 < |ws| && ws[p].kind == Kind.Ident
    ensures var (path, q) := PathLoop(ws, have + [ws[p].text], p + 1);
            names != [] && path == have + names && Fit(ws, p, SpellPath(names), q) && p < q < |ws|
    decreases |ws| - p
  {
    hide Clean, Fit;
    var x := ws[p].text;
    if ws[p + 1].kind == DColon && PeekWord(ws, p + 2).kind == Kind.Ident {
      var rest := PathRead(ws, p + 2, have + [x]);
      names := [x] + rest;
      assert names[1..] == rest && (have + [x]) + rest == have + names;
      var q := PathLoop(ws, (have + [x]) + [ws[p + 2].text], p + 3).1;
      Cons(ws, p + 1, DColon, SpellPath(rest), q);
      ConsName(ws, p, [Mark(DColon)] + SpellPath(rest), q);
    } else {
      names := [x];
      FitOne(ws, p, Named(x));
    }
  }

  lemma {:induction false} NamedForm(ws: seq<Word>, p: nat) returns (f: Form)
    requires Ended(ws) && p + 1 < |ws| && ws[p].kind == Kind.Ident && ParseNamed(ws, p).Parsed?
    ensures IsRead(ws, p, f, ParseNamed(ws, p).value, ParseNamed(ws, p).next) && IsPrimary(f)
    decreases |ws| - p, 1
  {
    hide Clean, Fit, IsRead, PathLoop, ParseStructLit, PeekWord, SpellPath;
    var names := PathRead(ws, p, []);
    assert [] + [ws[p].text] == [ws[p].text] && [] + names == names;
    var q := PathLoop(ws, [ws[p].text], p + 1).1;
    if OpensStructLit(ws, q) {
      var fields := StructForm(ws, names[|names| - 1], names[..|names| - 1], q + 1);
      f := Struct(names, fields);
      StructIsRead(ws, p, names, q, fields, ParseNamed(ws, p).value, ParseNamed(ws, p).next);
    } else {
      f := Path(names);
      PathIsRead(ws, p, names, q);
    }
  }

  lemma PathIsRead(ws: seq<Word>, p: nat, names: seq<string>, q: nat)
    requires names != [] && Fit(ws, p, SpellPath(names), q)
    ensures IsRead(ws, p, Path(names), Expr.Ident(names[|names| - 1], names[..|names| - 1]), q)
  {
    hide Fit, SpellPath;
  }

  lemma StructIsRead(ws: seq<Word>, p: nat, names: seq<string>, m: nat, fields: seq<FieldForm>, e: Expr, q: nat)
    requires names != [] && Fit(ws, p, SpellPath(names), m) && m < |ws| && ws[m].kind == LBrace
    requires AreFieldForms(fields) && e == StructLit(names[|names| - 1], names[..|names| - 1], FieldTrees(fields))
    requires Fit(ws, m + 1, SpellFields(fields) + [Mark(RBrace)], q)
    ensures IsRead(ws, p, Struct(names, fields), e, q)
  {
    hide Fit, SpellPath, SpellFields, AreFieldForms, FieldTrees;
    Cons(ws, m, LBrace, SpellFields(fields) + [Mark(RBrace)], q);
    Joined(ws, p, SpellPath(names), m, [Mark(LBrace)] + (SpellFields(fields) + [Mark(RBrace)]), q);
  }

  lemma {:induction false} StructForm(ws: seq<Word>, name: string, path: seq<string>, p: nat) returns (fields: seq<FieldForm>)
    requires Ended(ws) && p < |ws| && ParseStructLit(ws, name, path, p).Parsed?
    ensures AreFieldForms(fields) && ParseStructLit(ws, name, path, p).value == StructLit(name, path, FieldTrees(fields))
    ensures Fit(ws, p, SpellFields(fields) + [Mark(RBrace)], ParseStructLit(ws, name, path, p).next)
    decreases |ws| - p, 8
  {
    hide Clean, Fit, FieldLoop, SpellFields, AreFieldForms, FieldTrees, AreFields;
    fields := FieldsForm(ws, [], p);
    FieldsAreParts(ws, p, [], fields, FieldLoop(ws, [], p).value, FieldLoop(ws, [], p).next);
    assert [] + FieldTrees(fields) == FieldTrees(fields);
    var q := FieldLoop(ws, [], p).next;
    End(ws, q, RBrace);
    Joined(ws, p, SpellFields(fields), q, [Mark(RBrace)], q + 1);
  }

  /** The fields up to q: `es` are those before them with theirs. */
  ghost predicate AreFields(ws: seq<Word>, p: nat, have: seq<FieldInit>, fields: seq<FieldForm>, es: seq<FieldInit>, q: nat) {
    AreFieldForms(fields) && have + FieldTrees(fields) == es && Fit(ws, p, SpellFields(fields), q)
  }

  lemma {:induction false} FieldsForm(ws: seq<Word>, have: seq<FieldInit>, p: nat) returns (fields: seq<FieldForm>)
    requires Ended(ws) && p < |ws| && FieldLoop(ws, have, p).Parsed?
    ensures AreFields(ws, p, have, fields, FieldLoop(ws, have, p).value, FieldLoop(ws, have, p).next)
    decreases |ws| - p, 7
  {
    hide Clean, ParseFieldInit, AreFields, IsRead;
    if ws[p].kind == RBrace || ws[p].kind == Eof {
      fields := [];
      NoFieldsRead(ws, p, have);
    } else {
      var r := ParseFieldInit(ws, p);
      var v, n := FieldForm_(ws, p);
      var more := FieldsForm(ws, have + [r.value], r.next);
      fields := [FieldForm(ws[p].text, v, ws[n].kind == Comma)] + more;
      FieldIsRead(ws, p, have, v, r.value, n, more, FieldLoop(ws, have, p).value, FieldLoop(ws, have, p).next);
    }
  }

  lemma NoFieldsRead(ws: seq<Word>, p: nat, have: seq<FieldInit>)
    requires Ended(ws) && p < |ws|
    ensures AreFields(ws, p, have, [], have, p)
  {
    assert have + [] == have;
  }

  /** The value of a field, and where it ends. */
  lemma {:induction false} FieldForm_(ws: seq<Word>, p: nat) returns (v: Form, n: nat)
    requires Ended(ws) && p < |ws| && ParseFieldInit(ws, p).Parsed?
    ensures ws[p].kind == Kind.Ident && p + 2 < n < |ws| && ws[p + 1].kind == Colon
    ensures IsRead(ws, p + 2, v, ParseFieldInit(ws, p).value.value, n) && ParseFieldInit(ws, p).value.name == ws[p].text
    ensures ParseFieldInit(ws, p).next == if ws[n].kind == Comma then n + 1 else n
    decreases |ws| - p, 6
  {
    hide Clean, ParseExpr, IsRead;
    v := ExprForm(ws, p + 2);
    n := ParseExpr(ws, p + 2).next;
  }

  lemma FieldIsRead(ws: seq<Word>, p: nat, have: seq<FieldInit>, v: Form, x: FieldInit, n: nat, more: seq<FieldForm>, es: seq<FieldInit>, q: nat)
    requires p + 2 < n < |ws| && ws[p].kind == Kind.Ident && ws[p + 1].kind == Colon && x.name == ws[p].text && IsRead(ws, p + 2, v, x.value, n)
    requires AreFields(ws, if ws[n].kind == Comma then n + 1 else n, have + [x], more, es, q)
    ensures AreFields(ws, p, have, [FieldForm(ws[p].text, v, ws[n].kind == Comma)] + more, es, q)
  {
    hide *;
    var comma := ws[n].kind == Comma;
    var k := if comma then n + 1 else n;
    FieldsAreParts(ws, k, have + [x], more, es, q);
    var f := FieldForm(ws[p].text, v, comma);
    FieldsCons(f, more);
    FieldFits(ws, p, v, x.value, n, comma, SpellFields(more), q);
    assert (have + [x]) + FieldTrees(more) == have + ([x] + FieldTrees(more));
    MakeFields(ws, p, have, [f] + more, es, q);
  }

  lemma FieldsAreParts(ws: seq<Word>, p: nat, have: seq<FieldInit>, fields: seq<FieldForm>, es: seq<FieldInit>, q: nat)
    requires AreFields(ws, p, have, fields, es, q)
    ensures AreFieldForms(fields) && have + FieldTrees(fields) == es && Fit(ws, p, SpellFields(fields), q)
  {
    hide Fit, AreFieldForms, FieldTrees, SpellFields;
  }

  lemma MakeFields(ws: seq<Word>, p: nat, have: seq<FieldInit>, fields: seq<FieldForm>, es: seq<FieldInit>, q: nat)
    requires AreFieldForms(fields) && have + FieldTrees(fields) == es && Fit(ws, p, SpellFields(fields), q)
    ensures AreFields(ws, p, have, fields, es, q)
  {
    hide Fit, AreFieldForms, FieldTrees, SpellFields;
  }

  lemma FieldFits(ws: seq<Word>, p: nat, v: Form, e: Expr, n: nat, comma: bool, rest: seq<Tok>, q: nat)
    requires p + 2 < n < |ws| && ws[p].kind == Kind.Ident && ws[p + 1].kind == Colon && IsRead(ws, p + 2, v, e, n)
    requires comma == (ws[n].kind == Comma) && Fit(ws, if comma then n + 1 else n, rest, q)
    ensures IsForm(v) && Tree(v) == e
    ensures Fit(ws, p, [Named(ws[p].text)] + ([Mark(Colon)] + (Spell(v) + (Comma_(comma) + rest))), q)
  {
    hide *;
    ReadParts(ws, p + 2, v, e, n);
    var tail := Comma_(comma) + rest;
    CommaFits(ws, n, comma, rest, q);
    Joined(ws, p + 2, Spell(v), n, tail, q);
    Cons(ws, p + 1, Colon, Spell(v) + tail, q);
    ConsName(ws, p, [Mark(Colon)] + (Spell(v) + tail), q);
  }

  lemma FieldsCons(f: FieldForm, more: seq<FieldForm>)
    ensures var fields := [f] + more;
            && (IsForm(f.value) && AreFieldForms(more) ==> AreFieldForms(fields))
            && FieldTrees(fields) == [FieldInit(f.name, Tree(f.value))] + FieldTrees(more)
            && SpellFields(fields) == [Named(f.name)] + ([Mark(Colon)] + (Spell(f.value) + (Comma_(f.comma) + SpellFields(more))))
  {
    hide IsForm, Tree, Spell;
    var fields := [f] + more;
    assert fields[0] == f && fields[1..] == more;
  }

  lemma CommaFits(ws: seq<Word>, n: nat, comma: bool, rest: seq<Tok>, q: nat)
    requires n < |ws| && (comma ==> ws[n].kind == Comma) && Fit(ws, if comma then n + 1 else n, rest, q)
    ensures Fit(ws, n, Comma_(comma) + rest, q)
  {
    hide Fit;
    if comma {
      Cons(ws, n, Comma, rest, q);
    } else {
      assert [] + rest == rest;
    }
  }

  // ---- lists of expressions ---------------------------------------------------------------------------

  lemma ItemsCons(x: Form, more: seq<Form>, comma: bool)
    ensures var xs := [x] + more;
            && (IsForm(x) && AreForms(more) ==> AreForms(xs))
            && Trees(xs) == [Tree(x)] + Trees(more)
            && SpellItems(xs, comma) == Spell(x) + (Comma_(more != [] || comma) + SpellItems(more, comma))
  {
    hide IsForm, Tree, Spell;
    var xs := [x] + more;
    assert xs[0] == x && xs[1..] == more;
  }

  /** The items of a list: `es` are those before them with theirs. */
  ghost predicate AreItems(ws: seq<Word>, p: nat, have: seq<Expr>, xs: seq<Form>, comma: bool, es: seq<Expr>, q: nat) {
    AreForms(xs) && have + Trees(xs) == es && Fit(ws, p, SpellItems(xs, comma), q) && (comma ==> xs != [])
  }

  lemma NoItemsRead(ws: seq<Word>, p: nat, have: seq<Expr>)
    requires Ended(ws) && p < |ws|
    ensures AreItems(ws, p, have, [], false, have, p)
  {
    assert have + [] == have;
  }

  lemma ItemsAre(ws: seq<Word>, p: nat, have: seq<Expr>, x: Form, e: Expr, m: nat, k: nat, more: seq<Form>, comma: bool, comma': bool, es: seq<Expr>, q: nat)
    requires IsRead(ws, p, x, e, m) && AreItems(ws, k, have + [e], more, comma, es, q) && m < |ws|
    requires comma' == (if more == [] then k == m + 1 else comma)
    requires k == (if more != [] || comma' then m + 1 else m) && (k == m + 1 ==> ws[m].kind == Comma)
    ensures AreItems(ws, p, have, [x] + more, comma', es, q)
  {
    hide *;
    ReadParts(ws, p, x, e, m);
    ItemsAreParts(ws, k, have + [e], more, comma, es, q);
    ItemsCons(x, more, comma');
    SameItems(more, comma, comma');
    CommaFits(ws, m, more != [] || comma', SpellItems(more, comma'), q);
    Joined(ws, p, Spell(x), m, Comma_(more != [] || comma') + SpellItems(more, comma'), q);
    assert (have + [e]) + Trees(more) == have + ([e] + Trees(more));
    MakeItems(ws, p, have, [x] + more, comma', es, q);
  }

  lemma SameItems(xs: seq<Form>, a: bool, b: bool)
    ensures xs == [] || a == b ==> SpellItems(xs, a) == SpellItems(xs, b)
  {}

  lemma ItemsAreParts(ws: seq<Word>, p: nat, have: seq<Expr>, xs: seq<Form>, comma: bool, es: seq<Expr>, q: nat)
    requires AreItems(ws, p, have, xs, comma, es, q)
    ensures AreForms(xs) && have + Trees(xs) == es && Fit(ws, p, SpellItems(xs, comma), q) && (comma ==> xs != [])
  {
    hide Fit, AreForms, Trees, SpellItems;
  }

  lemma MakeItems(ws: seq<Word>, p: nat, have: seq<Expr>, xs: seq<Form>, comma: bool, es: seq<Expr>, q: nat)
    requires AreForms(xs) && have + Trees(xs) == es && Fit(ws, p, SpellItems(xs, comma), q) && xs != []
    ensures AreItems(ws, p, have, xs, comma, es, q)
  {
    hide Fit, AreForms, Trees, SpellItems;
  }

  lemma {:induction false} TupleForm(ws: seq<Word>, have: seq<Expr>, p: nat) returns (xs: seq<Form>, comma: bool)
    requires Ended(ws) && p < |ws| && TupleLoop(ws, have, p).Parsed?
    ensures AreItems(ws, p, have, xs, comma, TupleLoop(ws, have, p).value, TupleLoop(ws, have, p).next)
    decreases |ws| - p, 7
  {
    hide Clean, ParseExpr, IsRead, AreItems;
    if ws[p].kind == RParen || ws[p].kind == Eof {
      xs, comma := [], false;
      NoItemsRead(ws, p, have);
    } else {
      var r := ParseExpr(ws, p);
      var x := ExprForm(ws, p);
      var out := TupleLoop(ws, have, p);
      var more: seq<Form>, tail := [], false;
      var k := if ws[r.next].kind == Comma then r.next + 1 else r.next;
      if ws[r.next].kind == Comma {
        more, tail := TupleForm(ws, have + [r.value], k);
      } else {
        NoItemsRead(ws, k, have + [r.value]);
      }
      comma := if more == [] then k == r.next + 1 else tail;
      xs := [x] + more;
      ItemsAre(ws, p, have, x, r.value, r.next, k, more, tail, comma, out.value, out.next);
    }
  }

  /** The elements behind one, from the comma on. */
  lemma {:induction false} ElementsForm(ws: seq<Word>, have: seq<Expr>, p: nat) returns (xs: seq<Form>, comma: bool)
    requires Ended(ws) && p < |ws| && ElementLoop(ws, have, p).Parsed?
    ensures var r := ElementLoop(ws, have, p);
            var k := if xs != [] || comma then p + 1 else p;
            (k == p + 1 ==> ws[p].kind == Comma) && AreItems(ws, k, have, xs, comma && xs != [], r.value, r.next)
    decreases |ws| - p, 7
  {
    hide Clean, ParseExpr, IsRead, AreItems;
    if ws[p].kind != Comma || ws[p + 1].kind == RBracket {
      xs, comma := [], ws[p].kind == Comma;
      NoItemsRead(ws, if comma then p + 1 else p, have);
    } else {
      var r := ParseExpr(ws, p + 1);
      var x := ExprForm(ws, p + 1);
      var out := ElementLoop(ws, have, p);
      var more, tail := ElementsForm(ws, have + [r.value], r.next);
      var k := if more != [] || tail then r.next + 1 else r.next;
      xs, comma := [x] + more, tail;
      ItemsAre(ws, p + 1, have, x, r.value, r.next, k, more, tail && more != [], tail, out.value, out.next);
    }
  }

  lemma {:induction false} ParenthesizedForm(ws: seq<Word>, p: nat) returns (f: Form)
    requires Ended(ws) && p + 1 < |ws| && ws[p].kind.LParen? && ParseParenthesized(ws, p + 1).Parsed?
    ensures IsRead(ws, p, f, ParseParenthesized(ws, p + 1).value, ParseParenthesized(ws, p + 1).next) && IsPrimary(f)
    decreases |ws| - p, 1
  {
    hide Clean, ParseExpr, TupleLoop, IsRead, AreItems;
    var out := ParseParenthesized(ws, p + 1);
    if ws[p + 1].kind == RParen {
      f := Tuple([], false);
      NoItemsRead(ws, p + 1, []);
      TupleIsRead(ws, p, [], false, [], p + 1);
    } else {
      var r := ParseExpr(ws, p + 1);
      var x := ExprForm(ws, p + 1);
      if ws[r.next].kind == Comma {
        var rest := TupleLoop(ws, [r.value], r.next + 1);
        var more, tail := TupleForm(ws, [r.value], r.next + 1);
        var comma := if more == [] then true else tail;
        f := Tuple([x] + more, comma);
        assert [] + [r.value] == [r.value];
        ItemsAre(ws, p + 1, [], x, r.value, r.next, r.next + 1, more, tail, comma, rest.value, rest.next);
        TupleIsRead(ws, p, [x] + more, comma, rest.value, rest.next);
      } else {
        f := Group(x);
        GroupIsRead(ws, p, x, r.value, r.next);
      }
    }
  }

  lemma GroupIsRead(ws: seq<Word>, p: nat, x: Form, e: Expr, q: nat)
    requires p < |ws| && ws[p].kind.LParen? && IsRead(ws, p + 1, x, e, q) && q + 1 < |ws| && ws[q].kind == RParen
    ensures IsRead(ws, p, Group(x), e, q + 1)
  {
    hide Fit;
    ReadParts(ws, p + 1, x, e, q);
    End(ws, q, RParen);
    Joined(ws, p + 1, Spell(x), q, [Mark(RParen)], q + 1);
    Cons(ws, p, LParen, Spell(x) + [Mark(RParen)], q + 1);
  }

  lemma TupleIsRead(ws: seq<Word>, p: nat, xs: seq<Form>, comma: bool, es: seq<Expr>, q: nat)
    requires Ended(ws) && p < |ws| && ws[p].kind.LParen? && AreItems(ws, p + 1, [], xs, comma, es, q) && q + 1 < |ws| && ws[q].kind == RParen
    requires |xs| == 1 ==> comma
    ensures IsRead(ws, p, Tuple(xs, comma), TupleLit(es), q + 1)
  {
    hide Fit, AreForms, Trees, SpellItems;
    assert [] + Trees(xs) == Trees(xs);
    End(ws, q, RParen);
    Joined(ws, p + 1, SpellItems(xs, comma), q, [Mark(RParen)], q + 1);
    Cons(ws, p, LParen, SpellItems(xs, comma) + [Mark(RParen)], q + 1);
  }

  lemma ArrayIsRead(ws: seq<Word>, p: nat, xs: seq<Form>, comma: bool, es: seq<Expr>, q: nat)
    requires Ended(ws) && p < |ws| && ws[p].kind.LBracket? && AreItems(ws, p + 1, [], xs, comma, es, q) && q + 1 < |ws| && ws[q].kind == RBracket
    ensures IsRead(ws, p, Array(xs, comma), ArrayLit(es), q + 1)
  {
    hide Fit, AreForms, Trees, SpellItems;
    assert [] + Trees(xs) == Trees(xs);
    End(ws, q, RBracket);
    Joined(ws, p + 1, SpellItems(xs, comma), q, [Mark(RBracket)], q + 1);
    Cons(ws, p, LBracket, SpellItems(xs, comma) + [Mark(RBracket)], q + 1);
  }

  /** What was read behind the first element of an array. */
  lemma ArrayRead(ws: seq<Word>, p: nat)
    requires Ended(ws) && p < |ws| && ParseArray(ws, p).Parsed? && ws[p].kind != RBracket
    ensures ParseExpr(ws, p).Parsed? && p < ParseExpr(ws, p).next < |ws|
    ensures var r := ParseExpr(ws, p);
            ws[r.next].kind != Semicolon ==>
              var rest := ElementLoop(ws, [r.value], r.next);
              && rest.Parsed? && r.next <= rest.next < |ws| - 1 && ws[rest.next].kind == RBracket
              && ParseArray(ws, p) == Parsed(ArrayLit(rest.value), rest.next + 1)
    ensures var r := ParseExpr(ws, p);
            ws[r.next].kind == Semicolon ==> ParseRepeat(ws, r.value, r.next + 1).Parsed? && ParseArray(ws, p) == ParseRepeat(ws, r.value, r.next + 1)
  {
    hide Clean, ParseExpr, ElementLoop, ParseRepeat;
  }

  lemma {:induction false} ArrayForm(ws: seq<Word>, p: nat) returns (f: Form)
    requires Ended(ws) && p + 1 < |ws| && ws[p].kind.LBracket? && ParseArray(ws, p + 1).Parsed?
    ensures IsRead(ws, p, f, ParseArray(ws, p + 1).value, ParseArray(ws, p + 1).next) && IsPrimary(f)
    decreases |ws| - p, 1
  {
    hide Clean, ParseExpr, ElementLoop, ParseRepeat, ParseArray, IsRead, AreItems, IsPrimary;
    if ws[p + 1].kind == RBracket {
      f := Array([], false);
      RBracketEnds(ws, p + 1);
      EmptyArrayStep(ws, p + 1);
      NoItemsRead(ws, p + 1, []);
      ArrayIsRead(ws, p, [], false, [], p + 1);
    } else {
      ArrayRead(ws, p + 1);
      var r := ParseExpr(ws, p + 1);
      var x := ExprForm(ws, p + 1);
      if ws[r.next].kind == Semicolon {
        f := RepeatForm(ws, p, x, r.value, r.next);
      } else {
        var rest := ElementLoop(ws, [r.value], r.next);
        var more, comma := ElementsForm(ws, [r.value], r.next);
        f := Array([x] + more, comma);
        ElementsAre(ws, p, x, r.value, r.next, more, comma, rest.value, rest.next);
        ArrayIsRead(ws, p, [x] + more, comma, rest.value, rest.next);
      }
    }
    ArrayIsPrimaryForm(f);
  }

  lemma ArrayIsPrimaryForm(f: Form)
    ensures f.Array? || f.Repeat? ==> IsPrimary(f)
  {}

  lemma ElementsAre(ws: seq<Word>, p: nat, x: Form, e: Expr, m: nat, more: seq<Form>, comma: bool, es: seq<Expr>, q: nat)
    requires IsRead(ws, p + 1, x, e, m) && m < |ws|
    requires var k := if more != [] || comma then m + 1 else m;
             (k == m + 1 ==> ws[m].kind == Comma) && AreItems(ws, k, [e], more, comma && more != [], es, q)
    ensures AreItems(ws, p + 1, [], [x] + more, comma, es, q)
  {
    hide IsRead, AreItems;
    var k := if more != [] || comma then m + 1 else m;
    assert [] + [e] == [e];
    ItemsAre(ws, p + 1, [], x, e, m, k, more, comma && more != [], comma, es, q);
  }

  lemma RBracketEnds(ws: seq<Word>, p: nat)
    requires Ended(ws) && p < |ws| && ws[p].kind == RBracket
    ensures p + 1 < |ws|
  {}

  lemma {:induction false} RepeatForm(ws: seq<Word>, p: nat, x: Form, e: Expr, m: nat) returns (f: Form)
    requires Ended(ws) && p < |ws| && ws[p].kind.LBracket? && IsRead(ws, p + 1, x, e, m) && p + 1 < m < |ws| - 1 && ws[m].kind == Semicolon
    requires ParseRepeat(ws, e, m + 1).Parsed?
    ensures IsRead(ws, p, f, ParseRepeat(ws, e, m + 1).value, ParseRepeat(ws, e, m + 1).next) && f.Repeat?
    decreases |ws| - p, 0
  {
    hide Clean, ParseExpr, IsRead, DecimalValue;
    var r := ParseExpr(ws, m + 1);
    var n := ExprForm(ws, m + 1);
    f := Repeat(x, n);
    RepeatIsRead(ws, p, x, e, m, n, r.value, r.next);
  }

  lemma RepeatIsRead(ws: seq<Word>, p: nat, x: Form, e: Expr, m: nat, n: Form, c: Expr, q: nat)
    requires p < |ws| && ws[p].kind.LBracket? && IsRead(ws, p + 1, x, e, m) && m < |ws| && ws[m].kind == Semicolon
    requires IsRead(ws, m + 1, n, c, q) && q + 1 < |ws| && ws[q].kind == RBracket
    requires c.Literal? && c.kind == IntLit ==> DecimalValue(c.text).Some?
    ensures IsRead(ws, p, Repeat(x, n), ArrayLit(if c.Literal? && c.kind == IntLit then Copies(e, DecimalValue(c.text).value) else [e]), q + 1)
  {
    hide Fit, DecimalValue;
    RepeatFits(ws, p, Spell(x), m, Spell(n), q);
    if c.Literal? && c.kind == IntLit {
      assert Copies(e, DecimalValue(c.text).value) == seq(DecimalValue(c.text).value, _ => e);
    }
  }

  lemma RepeatFits(ws: seq<Word>, p: nat, x: seq<Tok>, m: nat, n: seq<Tok>, q: nat)
    requires p < |ws| && ws[p].kind == LBracket && Fit(ws, p + 1, x, m) && m < |ws| && ws[m].kind == Semicolon
    requires Fit(ws, m + 1, n, q) && q + 1 < |ws| && ws[q].kind == RBracket
    ensures Fit(ws, p, [Mark(LBracket)] + (x + ([Mark(Semicolon)] + (n + [Mark(RBracket)]))), q + 1)
  {
    hide *;
    Closed(ws, m + 1, n, q, RBracket);
    Cons(ws, m, Semicolon, n + [Mark(RBracket)], q + 1);
    Joined(ws, p + 1, x, m, [Mark(Semicolon)] + (n + [Mark(RBracket)]), q + 1);
    Cons(ws, p, LBracket, x + ([Mark(Semicolon)] + (n + [Mark(RBracket)])), q + 1);
  }

  // ---- conditions -------------------------------------------------------------------------------------

  lemma ChoiceRead(ws: seq<Word>, p: nat) returns (a: nat, b: nat)
    requires Ended(ws) && p < |ws| && ParseIfExpr(ws, p).Parsed?
    ensures ParseExpr(ws, p).Parsed? && ParseExpr(ws, p).next == a && p < a < |ws| - 1 && ws[a].kind == LBrace
    ensures ParseExpr(ws, a + 1).Parsed? && ParseExpr(ws, a + 1).next == b && a + 1 < b < |ws| - 3 && ws[b].kind == RBrace && ws[b + 1].kind == KwElse
    ensures var r := ParseElse(ws, b + 2);
            r.Parsed? && ParseIfExpr(ws, p) == Parsed(IfExpr(ParseExpr(ws, p).value, ParseExpr(ws, a + 1).value, r.value), r.next)
  {
    hide Clean, ParseExpr, ParseElse;
    a := ParseExpr(ws, p).next;
    b := ParseExpr(ws, a + 1).next;
  }

  lemma {:induction false} ChoiceForm(ws: seq<Word>, p: nat) returns (f: Form)
    requires Ended(ws) && p + 1 < |ws| && ws[p].kind.KwIf? && ParseIfExpr(ws, p + 1).Parsed?
    ensures IsRead(ws, p, f, ParseIfExpr(ws, p + 1).value, ParseIfExpr(ws, p + 1).next) && f.Choice?
    decreases |ws| - p, 1
  {
    hide *;
    var a, b := ChoiceRead(ws, p + 1);
    var c := ExprForm(ws, p + 1);
    var t := ExprForm(ws, a + 1);
    var e, chained := ElseForm(ws, b + 2);
    f := Choice(c, t, e, chained);
    ChoiceIsRead(ws, p, c, ParseExpr(ws, p + 1).value, a, t, ParseExpr(ws, a + 1).value, b, e, chained, ParseElse(ws, b + 2).value, ParseElse(ws, b + 2).next);
  }

  /** What stands behind the else. */
  ghost predicate IsElse(ws: seq<Word>, p: nat, f: Form, chained: bool, e: Expr, q: nat) {
    && IsForm(f) && Tree(f) == e && (chained ==> f.Choice?)
    && Fit(ws, p, if chained then Spell(f) else [Mark(LBrace)] + (Spell(f) + [Mark(RBrace)]), q)
  }

  lemma {:induction false} ElseForm(ws: seq<Word>, p: nat) returns (f: Form, chained: bool)
    requires Ended(ws) && p < |ws| && ParseElse(ws, p).Parsed?
    ensures IsElse(ws, p, f, chained, ParseElse(ws, p).value, ParseElse(ws, p).next)
    decreases |ws| - p, 7
  {
    hide Clean, ParseExpr, ParsePrimary, ParseIfExpr, IsRead, IsElse;
    chained := ws[p].kind == KwIf;
    if chained {
      ConditionAt(ws, p);
      f := ChoiceForm(ws, p);
      ChainedIsElse(ws, p, f, ParseElse(ws, p).value, ParseElse(ws, p).next);
    } else {
      var r := ParseExpr(ws, p + 1);
      f := ExprForm(ws, p + 1);
      BracedIsElse(ws, p, f, r.value, r.next);
    }
  }

  lemma ConditionAt(ws: seq<Word>, p: nat)
    requires Ended(ws) && p < |ws| && ws[p].kind == KwIf
    ensures p + 1 < |ws| && ParsePrimary(ws, p) == ParseIfExpr(ws, p + 1)
  {
    hide ParseIfExpr;
  }

  lemma ChainedIsElse(ws: seq<Word>, p: nat, f: Form, e: Expr, q: nat)
    requires f.Choice? && IsRead(ws, p, f, e, q)
    ensures IsElse(ws, p, f, true, e, q)
  {
    hide Fit, IsForm, Tree, Spell;
  }

  lemma BracedIsElse(ws: seq<Word>, p: nat, f: Form, e: Expr, q: nat)
    requires p < |ws| && ws[p].kind == LBrace && IsRead(ws, p + 1, f, e, q) && q + 1 < |ws| && ws[q].kind == RBrace
    ensures IsElse(ws, p, f, false, e, q + 1)
  {
    hide Fit, IsForm, Tree, Spell;
    ReadParts(ws, p + 1, f, e, q);
    End(ws, q, RBrace);
    Joined(ws, p + 1, Spell(f), q, [Mark(RBrace)], q + 1);
    Cons(ws, p, LBrace, Spell(f) + [Mark(RBrace)], q + 1);
  }

  lemma ChoiceIsRead(ws: seq<Word>, p: nat, c: Form, x: Expr, a: nat, t: Form, y: Expr, b: nat, e: Form, chained: bool, z: Expr, q: nat)
    requires p < |ws| && ws[p].kind.KwIf? && IsRead(ws, p + 1, c, x, a) && a < |ws| && ws[a].kind == LBrace
    requires IsRead(ws, a + 1, t, y, b) && b + 1 < |ws| && ws[b].kind == RBrace && ws[b + 1].kind == KwElse && IsElse(ws, b + 2, e, chained, z, q)
    ensures IsRead(ws, p, Choice(c, t, e, chained), IfExpr(x, y, z), q)
  {
    hide Fit;
    ChoiceFits(ws, p, Spell(c), a, Spell(t), b, if chained then Spell(e) else [Mark(LBrace)] + (Spell(e) + [Mark(RBrace)]), q);
  }

  lemma ChoiceFits(ws: seq<Word>, p: nat, c: seq<Tok>, a: nat, t: seq<Tok>, b: nat, last: seq<Tok>, q: nat)
    requires p < |ws| && ws[p].kind == KwIf && Fit(ws, p + 1, c, a) && a < |ws| && ws[a].kind == LBrace
    requires Fit(ws, a + 1, t, b) && b + 1 < |ws| && ws[b].kind == RBrace && ws[b + 1].kind == KwElse && Fit(ws, b + 2, last, q)
    ensures Fit(ws, p, [Mark(KwIf)] + (c + ([Mark(LBrace)] + (t + ([Mark(RBrace)] + ([Mark(KwElse)] + last))))), q)
  {
    hide *;
    var tail := [Mark(RBrace)] + ([Mark(KwElse)] + last);
    Cons(ws, b + 1, KwElse, last, q);
    Cons(ws, b, RBrace, [Mark(KwElse)] + last, q);
    Joined(ws, a + 1, t, b, tail, q);
    Cons(ws, a, LBrace, t + tail, q);
    Joined(ws, p + 1, c, a, [Mark(LBrace)] + (t + tail), q);
    Cons(ws, p, KwIf, c + ([Mark(LBrace)] + (t + tail)), q);
  }

  // ---- the grammar ------------------------------------------------------------------------------------

  /** The parser accepts exactly the token lists of the grammar, and yields the tree of the form. */
  lemma ParserIsGrammar(ws: seq<Word>, e: Expr, q: nat)
    requires Ended(ws)
    ensures ParseWhole(ws) == Parsed(e, q)
            <==> q < |ws| && ws[q].kind == Eof && exists f :: IsForm(f) && Tree(f) == e && Fit(ws, 0, Spell(f), q)
  {
    hide IsForm, Tree, Spell, Fit, ParseExpr, Clean, IsCloser;
    if ParseWhole(ws) == Parsed(e, q) {
      var f := ExprForm(ws, 0);
      ReadParts(ws, 0, f, e, q);
    }
    if q < |ws| && ws[q].kind == Eof {
      Closers();
      forall f | IsForm(f) && Tree(f) == e && Fit(ws, 0, Spell(f), q) ensures ParseExpr(ws, 0) == Parsed(e, q) {
        InnerParses(ws, 0, f, Eof, q);
      }
    }
  }

  /** There are not two ways to read a token list. */
  lemma OneTree(ws: seq<Word>, f: Form, g: Form, q: nat)
    requires IsForm(f) && IsForm(g) && Fit(ws, 0, Spell(f), q) && Fit(ws, 0, Spell(g), q) && ws[q].kind == Eof
    ensures Tree(f) == Tree(g)
  {
    hide IsForm, Tree, Spell, Fit, ParseExpr;
    FitInside(ws, 0, Spell(f), q);
    ParserIsGrammar(ws, Tree(f), q);
    ParserIsGrammar(ws, Tree(g), q);
  }
}
