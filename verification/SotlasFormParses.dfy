/** Every way to write an expression is read as the tree that it stands for. */
module SotlasFormParses {
  import opened Options
  import opened SotlasTokens
  import opened SotlasParsing
  import opened SotlasStanding
  import opened SotlasForms
  import opened SotlasSteps

  // ---- what a form starts with ------------------------------------------------------------

  function KindOf(t: Tok): Kind {
    match t
    case Mark(k) => k
    case Exact(w) => w.kind
  }

  lemma FitsKind(w: Word, t: Tok)
    requires Fits(w, t)
    ensures w.kind == KindOf(t)
  {}

  predicate CanStartPrimary(k: Kind) {
    IsLiteral(k) || k == KwSelf || k == KwSuper || k == Kind.Ident || k == LParen || k == LBracket || k == KwIf
  }

  predicate CanStart(k: Kind) {
    CanStartPrimary(k) || IsUnaryOp(k)
  }

  lemma StartKinds(k: Kind)
    ensures CanStart(k) ==> !IsCloser(k) || k == Kind.Ident
    ensures CanStart(k) ==> k != LBrace && k != KwMut && k != KwElse && k != Colon
    ensures CanStartPrimary(k) ==> !IsUnaryOp(k)
  {}

  /** It does not look like the label of a field or argument. */
  predicate StartsWell(ts: seq<Tok>) {
    && ts != [] && CanStart(KindOf(ts[0]))
    && (|ts| > 1 ==> KindOf(ts[1]) != Colon)
  }

  lemma PathStarts(names: seq<string>)
    requires names != []
    ensures SpellPath(names) != [] && KindOf(SpellPath(names)[0]) == Kind.Ident
    ensures |SpellPath(names)| > 1 ==> KindOf(SpellPath(names)[1]) == DColon
  {}

  lemma Behind(a: seq<Tok>, b: seq<Tok>)
    requires StartsWell(a) && b != [] && KindOf(b[0]) != Colon
    ensures StartsWell(a + b) && (a + b)[0] == a[0]
  {
    if |a| > 1 {
      assert (a + b)[1] == a[1];
    } else {
      assert (a + b)[1] == b[0];
    }
  }

  lemma Enclosed(open: Kind, a: seq<Tok>)
    requires open == LParen || open == LBracket || open == KwIf || IsUnaryOp(open)
    requires a != [] && KindOf(a[0]) != Colon
    ensures StartsWell([Mark(open)] + a) && KindOf(([Mark(open)] + a)[0]) == open
  {
    assert ([Mark(open)] + a)[1] == a[0];
  }

  lemma {:induction false} FormStarts(f: Form)
    requires IsForm(f)
    ensures StartsWell(Spell(f))
    ensures IsOperand(f) ==> CanStartPrimary(KindOf(Spell(f)[0]))
    decreases f, 2
  {
    hide StartsWell, IsForm, Spell, CanStart, CanStartPrimary;
    if IsPrimary(f) {
      PrimaryStarts(f);
    } else if f.Signed? {
      SignedStarts(f);
    } else if f.Pair? {
      PairParts(f);
      FormStarts(f.left);
      Behind(Spell(f.left), [Mark(f.op)] + Spell(f.right));
    } else {
      var rest := SuffixParts(f);
      FormStarts(f.base);
      StartIsSome(Spell(f.base));
      Behind(Spell(f.base), rest);
    }
  }

  lemma StartIsSome(ts: seq<Tok>)
    requires StartsWell(ts)
    ensures ts != []
  {}

  lemma PairParts(f: Form)
    requires f.Pair? && IsForm(f)
    ensures IsForm(f.left) && IsForm(f.right) && IsBinaryOp(f.op) && !f.right.Pair?
    ensures Spell(f) == Spell(f.left) + ([Mark(f.op)] + Spell(f.right))
    ensures ([Mark(f.op)] + Spell(f.right))[0] == Mark(f.op) && f.op != Colon
  {
    hide AreForms;
  }

  /** A form with a suffix: its base and what follows it. */
  lemma SuffixParts(f: Form) returns (rest: seq<Tok>)
    requires IsForm(f) && !IsPrimary(f) && !f.Signed? && !f.Pair?
    ensures IsForm(f.base) && IsOperand(f.base) && f.base < f
    ensures Spell(f) == Spell(f.base) + rest && rest != []
    ensures KindOf(rest[0]) == Dot || KindOf(rest[0]) == LParen || KindOf(rest[0]) == LBracket || KindOf(rest[0]) == QMark || KindOf(rest[0]) == Not
    ensures f.base.Dotted? ==> KindOf(rest[0]) != LParen
  {
    hide SpellArgs, AreArgForms;
    rest := Spell(f)[|Spell(f.base)|..];
  }

  lemma SignedStarts(f: Form)
    requires f.Signed? && IsForm(f)
    ensures StartsWell(Spell(f))
    decreases f, 1
  {
    hide StartsWell, IsUnaryOp;
    FormStarts(f.operand);
    StartIsSome(Spell(f.operand));
    if f.mut {
      assert ([Mark(KwMut)] + Spell(f.operand))[0] == Mark(KwMut);
      Enclosed(f.op, [Mark(KwMut)] + Spell(f.operand));
    } else {
      FirstIsNoColon(Spell(f.operand));
      Enclosed(f.op, Spell(f.operand));
    }
  }

  lemma FirstIsNoColon(ts: seq<Tok>)
    requires StartsWell(ts)
    ensures ts != [] && KindOf(ts[0]) != Colon && CanStart(KindOf(ts[0]))
  {}

  lemma PrimaryStarts(f: Form)
    requires IsPrimary(f) && IsForm(f)
    ensures StartsWell(Spell(f)) && CanStartPrimary(KindOf(Spell(f)[0]))
    decreases f, 1
  {
    hide SpellItems, SpellFields, Spell, StartsWell, CanStartPrimary;
    match f
    case Atom(w) => AtomStarts(f);
    case Path(names) => NameStarts(f);
    case Struct(names, fields) => NameStarts(f);
    case Group(x) =>
      GroupSpells(f);
      OpenedStarts(f, LParen, x, [Mark(RParen)]);
    case Repeat(x, n) =>
      GroupSpells(f);
      OpenedStarts(f, LBracket, x, [Mark(Semicolon)] + (Spell(n) + [Mark(RBracket)]));
    case Choice(x, t, _, _) =>
      ChoiceParts(f);
      OpenedStarts(f, KwIf, x, [Mark(LBrace)] + (Spell(t) + ([Mark(RBrace)] + ([Mark(KwElse)] + ElsePart(f)))));
    case Tuple(xs, comma) => ListStarts(f, xs, comma);
    case Array(xs, comma) => ListStarts(f, xs, comma);
  }

  lemma AtomStarts(f: Form)
    requires f.Atom? && IsForm(f)
    ensures StartsWell(Spell(f)) && CanStartPrimary(KindOf(Spell(f)[0]))
  {}

  lemma NameStarts(f: Form)
    requires (f.Path? || f.Struct?) && IsForm(f)
    ensures StartsWell(Spell(f)) && CanStartPrimary(KindOf(Spell(f)[0]))
  {
    hide SpellPath, SpellFields, AreFieldForms;
    PathStarts(f.names);
  }

  lemma OpenedStarts(f: Form, open: Kind, x: Form, rest: seq<Tok>)
    requires x < f && IsForm(x) && Spell(f) == [Mark(open)] + (Spell(x) + rest)
    requires open == LParen || open == LBracket || open == KwIf
    ensures StartsWell(Spell(f)) && CanStartPrimary(KindOf(Spell(f)[0]))
    decreases f, 0
  {
    hide *;
    FormStarts(x);
    FirstIsNoColon(Spell(x));
    assert (Spell(x) + rest)[0] == Spell(x)[0];
    Enclosed(open, Spell(x) + rest);
    OpensPrimary(open);
  }

  lemma OpensPrimary(k: Kind)
    requires k == LParen || k == LBracket || k == KwIf
    ensures CanStartPrimary(k)
  {}

  lemma ListStarts(f: Form, xs: seq<Form>, comma: bool)
    requires IsForm(f) && (f.Tuple? || f.Array?) && xs == f.items && comma == f.comma
    ensures StartsWell(Spell(f)) && CanStartPrimary(KindOf(Spell(f)[0]))
    decreases f, 0
  {
    if xs != [] {
      FormStarts(xs[0]);
      FirstIsNoColon(Spell(xs[0]));
      assert SpellItems(xs, comma)[0] == Spell(xs[0])[0];
    }
  }

  lemma FirstMark(ws: seq<Word>, p: nat, k: Kind, b: seq<Tok>, q: nat)
    requires Fit(ws, p, [Mark(k)] + b, q)
    ensures p + 1 <= q < |ws| && Ended(ws) && ws[p].kind == k && Fit(ws, p + 1, b, q)
  {
    hide Fit;
    First(ws, p, Mark(k), b, q);
  }

  lemma OnlyMark(ws: seq<Word>, p: nat, k: Kind, q: nat)
    requires Fit(ws, p, [Mark(k)], q)
    ensures p + 1 == q < |ws| && Ended(ws) && ws[p].kind == k
  {
    hide Fit;
    Only(ws, p, Mark(k), q);
  }

  lemma FirstName(ws: seq<Word>, p: nat, name: string, b: seq<Tok>, q: nat)
    requires Fit(ws, p, [Named(name)] + b, q)
    ensures p + 1 <= q < |ws| && Ended(ws) && ws[p].kind == Kind.Ident && ws[p].text == name && Fit(ws, p + 1, b, q)
  {
    hide Fit;
    First(ws, p, Named(name), b, q);
  }

  // ---- levels -------------------------------------------------------------------------------

  lemma StartAt(ws: seq<Word>, p: nat, f: Form, q: nat)
    requires IsForm(f) && Fit(ws, p, Spell(f), q)
    ensures Ended(ws) && p < q == p + |Spell(f)| < |ws| && CanStart(ws[p].kind)
    ensures IsOperand(f) ==> CanStartPrimary(ws[p].kind) && !IsUnaryOp(ws[p].kind)
  {
    hide *;
    FormStarts(f);
    FirstIsNoColon(Spell(f));
    FitInside(ws, p, Spell(f), q);
    FitsKind(ws[p], Spell(f)[0]);
    StartKinds(ws[p].kind);
  }

  /** An expression up to where nothing goes on is read whole. */
  lemma {:induction false} ExprParses(ws: seq<Word>, p: nat, f: Form, q: nat)
    requires IsForm(f) && Fit(ws, p, Spell(f), q) && Stops(ws, q)
    ensures ParseExpr(ws, p) == Parsed(Tree(f), q) && p < q
    decreases f, 6
  {
    hide ParseBinary, BinaryLoop, Fit, Spell, IsForm, Tree, StopsOperand, IsBinaryOp;
    StartAt(ws, p, f, q);
    ChainParses(ws, p, f, q);
    LoopStops(ws, Tree(f), q);
  }

  lemma {:induction false} ChainParses(ws: seq<Word>, p: nat, f: Form, q: nat)
    requires IsForm(f) && Fit(ws, p, Spell(f), q) && StopsOperand(ws, q)
    ensures ParseBinary(ws, p) == BinaryLoop(ws, Tree(f), q)
    decreases f, 5
  {
    hide *;
    StartAt(ws, p, f, q);
    if f.Pair? {
      PairParses(ws, p, f, q);
    } else {
      UnaryParses(ws, p, f, q);
      LoopFrom(ws, p, Tree(f), q);
    }
  }

  lemma PairTree(f: Form)
    requires f.Pair?
    ensures Tree(f) == Binary(f.op, Tree(f.left), Tree(f.right))
  {}

  lemma {:induction false} PairParses(ws: seq<Word>, p: nat, f: Form, q: nat)
    requires f.Pair? && IsForm(f) && Fit(ws, p, Spell(f), q) && StopsOperand(ws, q)
    ensures ParseBinary(ws, p) == BinaryLoop(ws, Tree(f), q)
    decreases f, 4
  {
    hide *;
    PairParts(f);
    PairTree(f);
    var m := p + |Spell(f.left)|;
    Split(ws, p, Spell(f.left), [Mark(f.op)] + Spell(f.right), q);
    First(ws, m, Mark(f.op), Spell(f.right), q);
    FitsKind(ws[m], Mark(f.op));
    MarkKind(f.op);
    OperatorStops(ws, m);
    StartAt(ws, m + 1, f.right, q);
    ChainParses(ws, p, f.left, m);
    UnaryParses(ws, m + 1, f.right, q);
    LoopStep(ws, Tree(f.left), m, Tree(f.right), q);
  }

  lemma MarkKind(k: Kind)
    ensures KindOf(Mark(k)) == k
  {}

  lemma StopsParts(ws: seq<Word>, q: nat)
    requires Ended(ws) && q < |ws|
    ensures StopsOperand(ws, q) ==> StopsName(ws, q) && EndsPostfix(ws[q].kind)
    ensures EndsPostfix(ws[q].kind) ==> ws[q].kind != LParen
  {
    hide StopsName;
  }

  lemma {:induction false} UnaryParses(ws: seq<Word>, p: nat, f: Form, q: nat)
    requires !f.Pair? && IsForm(f) && Fit(ws, p, Spell(f), q) && StopsOperand(ws, q)
    ensures ParseUnary(ws, p) == Parsed(Tree(f), q)
    decreases f, 4
  {
    hide *;
    StartAt(ws, p, f, q);
    if f.Signed? {
      SignedParses(ws, p, f, q);
    } else {
      StopsParts(ws, q);
      OperandIs(f);
      OperandParses(ws, p, f, q);
      NotSigned(ws, p);
      PostfixStops(ws, Tree(f), q);
    }
  }

  lemma OperandIs(f: Form)
    ensures IsOperand(f) <==> !f.Pair? && !f.Signed?
  {}

  lemma SignedParts(f: Form)
    requires f.Signed? && IsForm(f)
    ensures IsForm(f.operand) && !f.operand.Pair? && IsUnaryOp(f.op) && (f.mut ==> f.op == LAnd)
    ensures Tree(f) == Unary(f.op, Tree(f.operand))
    ensures Spell(f) == [Mark(f.op)] + (if f.mut then [Mark(KwMut)] + Spell(f.operand) else Spell(f.operand))
  {}

  lemma {:induction false} SignedParses(ws: seq<Word>, p: nat, f: Form, q: nat)
    requires f.Signed? && IsForm(f) && Fit(ws, p, Spell(f), q) && StopsOperand(ws, q)
    ensures ParseUnary(ws, p) == Parsed(Tree(f), q)
    decreases f, 3
  {
    hide *;
    SignedParts(f);
    MarkKind(f.op);
    if f.mut {
      First(ws, p, Mark(f.op), [Mark(KwMut)] + Spell(f.operand), q);
      First(ws, p + 1, Mark(KwMut), Spell(f.operand), q);
      FitsKind(ws[p + 1], Mark(KwMut));
      MarkKind(KwMut);
    } else {
      First(ws, p, Mark(f.op), Spell(f.operand), q);
      StartAt(ws, p + 1, f.operand, q);
      StartKinds(ws[p + 1].kind);
    }
    FitsKind(ws[p], Mark(f.op));
    var n := if f.mut then p + 2 else p + 1;
    StartAt(ws, n, f.operand, q);
    UnaryParses(ws, n, f.operand, q);
    SignStep(ws, p, f.mut, Tree(f.operand), q);
  }

  /** A form that suffixes may follow: the loop over suffixes goes on behind it. */
  lemma {:induction false} OperandParses(ws: seq<Word>, p: nat, f: Form, q: nat)
    requires IsOperand(f) && IsForm(f) && Fit(ws, p, Spell(f), q) && q < |ws| && Ended(ws)
    requires StopsName(ws, q) && (f.Dotted? ==> ws[q].kind != LParen)
    ensures ParsePostfix(ws, p) == PostfixLoop(ws, Tree(f), q)
    decreases f, 3
  {
    hide *;
    StartAt(ws, p, f, q);
    OperandIs(f);
    if IsPrimary(f) {
      PrimaryParses(ws, p, f, q);
      PostfixFrom(ws, p, Tree(f), q);
    } else {
      BaseParses(ws, p, f, q);
      SuffixParses(ws, p, f, q);
    }
  }

  lemma {:induction false} BaseParses(ws: seq<Word>, p: nat, f: Form, q: nat)
    requires IsOperand(f) && !IsPrimary(f) && IsForm(f) && Fit(ws, p, Spell(f), q) && q < |ws| && Ended(ws)
    ensures var m := p + |Spell(f.base)|; m < q && ParsePostfix(ws, p) == PostfixLoop(ws, Tree(f.base), m)
    decreases f, 2
  {
    hide Fit, Spell, IsForm, Tree, ParsePostfix, PostfixLoop, PeekWord, StopsName;
    var rest := SuffixParts(f);
    var m := p + |Spell(f.base)|;
    Split(ws, p, Spell(f.base), rest, q);
    FitInside(ws, m, rest, q);
    FitsKind(ws[m], rest[0]);
    SuffixKinds(ws[m].kind);
    SuffixStopsName(ws, m);
    OperandParses(ws, p, f.base, m);
  }

  lemma SuffixKinds(k: Kind)
    ensures k == Dot || k == LParen || k == LBracket || k == QMark || k == Not ==> !EndsPostfix(k)
  {}

  // ---- suffixes -------------------------------------------------------------------------------

  lemma {:induction false} SuffixParses(ws: seq<Word>, p: nat, f: Form, q: nat)
    requires IsOperand(f) && !IsPrimary(f) && IsForm(f) && Fit(ws, p, Spell(f), q) && q < |ws| && Ended(ws)
    requires f.Dotted? ==> ws[q].kind != LParen
    ensures var m := p + |Spell(f.base)|; m < q && PostfixLoop(ws, Tree(f.base), m) == PostfixLoop(ws, Tree(f), q)
    decreases f, 2
  {
    hide IsForm, Spell, Tree, Fit, PostfixLoop, PeekWord;
    match f
    case Dotted(_, _) => DottedParses(ws, p, f, q);
    case Order(_) => DottedParses(ws, p, f, q);
    case Place(_, _) => DottedParses(ws, p, f, q);
    case Asked(_) => MarkedParses(ws, p, f, q);
    case Forced(_) => MarkedParses(ws, p, f, q);
    case Method(_, _, _, _) => MethodParses(ws, p, f, q);
    case Applied(_, _, _) => AppliedParses(ws, p, f, q);
    case Indexed(_, _) => IndexedParses(ws, p, f, q);
    case Cut(_, _, _) => CutParses(ws, p, f, q);
    case Bits(_, _, _) => BitsParses(ws, p, f, q);
    case Bit(_, _) => BitParses(ws, p, f, q);
  }

  lemma DottedParses(ws: seq<Word>, p: nat, f: Form, q: nat)
    requires (f.Dotted? || f.Order? || f.Place?) && IsForm(f) && Fit(ws, p, Spell(f), q) && q < |ws| && Ended(ws)
    requires f.Dotted? ==> ws[q].kind != LParen
    ensures var m := p + |Spell(f.base)|; m < q && PostfixLoop(ws, Tree(f.base), m) == PostfixLoop(ws, Tree(f), q)
  {
    hide *;
    var t := DottedSpelled(f);
    var m := p + |Spell(f.base)|;
    Split(ws, p, Spell(f.base), [Mark(Dot)] + [t], q);
    FirstMark(ws, m, Dot, [t], q);
    Only(ws, m + 1, t, q);
    DottedStep(ws, m, f, t);
  }

  lemma DottedSpelled(f: Form) returns (t: Tok)
    requires (f.Dotted? || f.Order? || f.Place?) && IsForm(f)
    ensures Spell(f) == Spell(f.base) + ([Mark(Dot)] + [t])
    ensures t == if f.Dotted? then Named(f.name) else if f.Order? then Mark(KwStrand) else Exact(Word(IntLit, f.digits))
  {
    hide DecimalValue;
    t := if f.Dotted? then Named(f.name) else if f.Order? then Mark(KwStrand) else Exact(Word(IntLit, f.digits));
  }

  lemma DottedStep(ws: seq<Word>, m: nat, f: Form, t: Tok)
    requires (f.Dotted? || f.Order? || f.Place?) && IsForm(f)
    requires t == if f.Dotted? then Named(f.name) else if f.Order? then Mark(KwStrand) else Exact(Word(IntLit, f.digits))
    requires Ended(ws) && m + 2 < |ws| && ws[m].kind == Dot && Fits(ws[m + 1], t) && (f.Dotted? ==> ws[m + 2].kind != LParen)
    ensures PostfixLoop(ws, Tree(f.base), m) == PostfixLoop(ws, Tree(f), m + 2)
  {
    hide PostfixLoop, DecimalValue;
    DotStep(ws, Tree(f.base), m, Tree(f));
  }

  lemma MarkedParses(ws: seq<Word>, p: nat, f: Form, q: nat)
    requires (f.Asked? || f.Forced?) && IsForm(f) && Fit(ws, p, Spell(f), q) && q < |ws| && Ended(ws)
    ensures var m := p + |Spell(f.base)|; m < q && PostfixLoop(ws, Tree(f.base), m) == PostfixLoop(ws, Tree(f), q)
  {
    hide *;
    MarkedSpelled(f);
    var m := p + |Spell(f.base)|;
    var k := if f.Asked? then QMark else Not;
    Split(ws, p, Spell(f.base), [Mark(k)], q);
    OnlyMark(ws, m, k, q);
    MarkStep(ws, Tree(f.base), m);
  }

  lemma MarkedSpelled(f: Form)
    requires f.Asked? || f.Forced?
    ensures Spell(f) == Spell(f.base) + [Mark(if f.Asked? then QMark else Not)]
    ensures Tree(f) == if f.Asked? then OptionalChain(Tree(f.base)) else ForceUnwrap(Tree(f.base))
  {}

  /** Inside brackets, in front of a token that can only stand behind an expression. */
  lemma {:induction false} InnerParses(ws: seq<Word>, p: nat, f: Form, k: Kind, q: nat)
    requires IsForm(f) && Fit(ws, p, Spell(f), q) && q < |ws| && Ended(ws) && ws[q].kind == k && IsCloser(k)
    ensures ParseExpr(ws, p) == Parsed(Tree(f), q) && p < q
    decreases f, 7
  {
    hide *;
    CloserStops(ws, q);
    ExprParses(ws, p, f, q);
  }

  /** It starts with none of these. */
  lemma NoCloserAt(ws: seq<Word>, p: nat, f: Form, k: Kind, q: nat)
    requires IsForm(f) && Fit(ws, p, Spell(f), q) && IsCloser(k) && k != Kind.Ident
    ensures p < |ws| && ws[p].kind != k
  {
    hide *;
    StartAt(ws, p, f, q);
    StartKinds(ws[p].kind);
  }

  lemma Closers()
    ensures IsCloser(RParen) && IsCloser(RBracket) && IsCloser(RBrace) && IsCloser(Comma) && IsCloser(Semicolon)
    ensures IsCloser(DotDot) && IsCloser(Eof) && IsCloser(Kind.Ident)
    ensures RParen != Kind.Ident && RBracket != Kind.Ident && DotDot != Kind.Ident && Eof != Kind.Ident
  {}

  lemma SuffixSpelled(f: Form)
    requires IsForm(f) && (f.Indexed? || f.Bit? || f.Bits?)
    ensures IsForm(f.base) && IsOperand(f.base)
    ensures f.Indexed? ==>
              && IsForm(f.index) && Tree(f) == Index(Tree(f.base), Tree(f.index))
              && Spell(f) == Spell(f.base) + ([Mark(LBracket)] + (Spell(f.index) + [Mark(RBracket)]))
    ensures f.Bit? ==>
              && IsForm(f.index) && Tree(f) == BitNotch(Tree(f.base), Tree(f.index))
              && Spell(f) == Spell(f.base) + ([Mark(Dot)] + ([Mark(KwNotch)] + ([Mark(LBracket)] + (Spell(f.index) + [Mark(RBracket)]))))
    ensures f.Bits? ==>
              && IsForm(f.lo) && IsForm(f.hi) && Tree(f) == BitSlice(Tree(f.base), Tree(f.lo), Tree(f.hi))
              && Spell(f) == Spell(f.base)
                   + ([Mark(Dot)] + ([Mark(KwSlit)] + ([Mark(LBracket)] + (Spell(f.lo) + ([Mark(DotDot)] + (Spell(f.hi) + [Mark(RBracket)]))))))
  {}

  lemma IndexedAt(ws: seq<Word>, p: nat, f: Form, q: nat) returns (m: nat, n: nat)
    requires f.Indexed? && IsForm(f) && Fit(ws, p, Spell(f), q)
    ensures m == p + |Spell(f.base)| && m + 1 < n && n + 1 == q < |ws| && Ended(ws)
    ensures ws[m].kind.LBracket? && Fit(ws, m + 1, Spell(f.index), n) && ws[n].kind.RBracket?
  {
    hide *;
    SuffixSpelled(f);
    m := p + |Spell(f.base)|;
    n := m + 1 + |Spell(f.index)|;
    Split(ws, p, Spell(f.base), [Mark(LBracket)] + (Spell(f.index) + [Mark(RBracket)]), q);
    FirstMark(ws, m, LBracket, Spell(f.index) + [Mark(RBracket)], q);
    Split(ws, m + 1, Spell(f.index), [Mark(RBracket)], q);
    OnlyMark(ws, n, RBracket, q);
    StartAt(ws, m + 1, f.index, n);
  }

  lemma {:induction false} IndexedParses(ws: seq<Word>, p: nat, f: Form, q: nat)
    requires f.Indexed? && IsForm(f) && Fit(ws, p, Spell(f), q) && q < |ws| && Ended(ws)
    ensures var m := p + |Spell(f.base)|; m < q && PostfixLoop(ws, Tree(f.base), m) == PostfixLoop(ws, Tree(f), q)
    decreases f, 1
  {
    hide *;
    SuffixSpelled(f);
    var m, n := IndexedAt(ws, p, f, q);
    Closers();
    InnerParses(ws, m + 1, f.index, RBracket, n);
    NoCloserAt(ws, m + 1, f.index, DotDot, n);
    IndexStep(ws, m, Tree(f.base), Tree(f.index), n);
  }

  /** A point, a keyword and a bracket behind a base. */
  lemma KeywordAt(ws: seq<Word>, p: nat, base: seq<Tok>, k: Kind, tail: seq<Tok>, q: nat) returns (m: nat)
    requires Fit(ws, p, base + ([Mark(Dot)] + ([Mark(k)] + ([Mark(LBracket)] + tail))), q)
    ensures m == p + |base| && m + 3 <= q < |ws| && Ended(ws)
    ensures ws[m].kind.Dot? && ws[m + 1].kind == k && ws[m + 2].kind.LBracket? && Fit(ws, m + 3, tail, q)
  {
    hide *;
    m := p + |base|;
    Split(ws, p, base, [Mark(Dot)] + ([Mark(k)] + ([Mark(LBracket)] + tail)), q);
    FirstMark(ws, m, Dot, [Mark(k)] + ([Mark(LBracket)] + tail), q);
    FirstMark(ws, m + 1, k, [Mark(LBracket)] + tail, q);
    FirstMark(ws, m + 2, LBracket, tail, q);
  }

  lemma BitAt(ws: seq<Word>, p: nat, f: Form, q: nat) returns (m: nat, n: nat)
    requires f.Bit? && IsForm(f) && Fit(ws, p, Spell(f), q)
    ensures m == p + |Spell(f.base)| && m + 3 < n && n + 1 == q < |ws| && Ended(ws)
    ensures ws[m].kind.Dot? && ws[m + 1].kind.KwNotch? && ws[m + 2].kind.LBracket?
    ensures Fit(ws, m + 3, Spell(f.index), n) && ws[n].kind.RBracket?
  {
    hide *;
    SuffixSpelled(f);
    m := KeywordAt(ws, p, Spell(f.base), KwNotch, Spell(f.index) + [Mark(RBracket)], q);
    n := m + 3 + |Spell(f.index)|;
    Split(ws, m + 3, Spell(f.index), [Mark(RBracket)], q);
    OnlyMark(ws, n, RBracket, q);
    StartAt(ws, m + 3, f.index, n);
  }

  lemma {:induction false} BitParses(ws: seq<Word>, p: nat, f: Form, q: nat)
    requires f.Bit? && IsForm(f) && Fit(ws, p, Spell(f), q) && q < |ws| && Ended(ws)
    ensures var m := p + |Spell(f.base)|; m < q && PostfixLoop(ws, Tree(f.base), m) == PostfixLoop(ws, Tree(f), q)
    decreases f, 1
  {
    hide *;
    SuffixSpelled(f);
    var m, n := BitAt(ws, p, f, q);
    Closers();
    InnerParses(ws, m + 3, f.index, RBracket, n);
    BitNotchStep(ws, Tree(f.base), m, Tree(f.index), n);
  }

  lemma BitsAt(ws: seq<Word>, p: nat, f: Form, q: nat) returns (m: nat, a: nat, b: nat)
    requires f.Bits? && IsForm(f) && Fit(ws, p, Spell(f), q)
    ensures m == p + |Spell(f.base)| && m + 3 < a && a + 1 < b && b + 1 == q < |ws| && Ended(ws)
    ensures ws[m].kind.Dot? && ws[m + 1].kind.KwSlit? && ws[m + 2].kind.LBracket?
    ensures Fit(ws, m + 3, Spell(f.lo), a) && ws[a].kind.DotDot? && Fit(ws, a + 1, Spell(f.hi), b) && ws[b].kind.RBracket?
  {
    hide *;
    SuffixSpelled(f);
    var high := Spell(f.hi) + [Mark(RBracket)];
    m := KeywordAt(ws, p, Spell(f.base), KwSlit, Spell(f.lo) + ([Mark(DotDot)] + high), q);
    a := m + 3 + |Spell(f.lo)|;
    b := a + 1 + |Spell(f.hi)|;
    Split(ws, m + 3, Spell(f.lo), [Mark(DotDot)] + high, q);
    FirstMark(ws, a, DotDot, high, q);
    Split(ws, a + 1, Spell(f.hi), [Mark(RBracket)], q);
    OnlyMark(ws, b, RBracket, q);
    StartAt(ws, m + 3, f.lo, a);
    StartAt(ws, a + 1, f.hi, b);
  }

  lemma {:induction false} BitsParses(ws: seq<Word>, p: nat, f: Form, q: nat)
    requires f.Bits? && IsForm(f) && Fit(ws, p, Spell(f), q) && q < |ws| && Ended(ws)
    ensures var m := p + |Spell(f.base)|; m < q && PostfixLoop(ws, Tree(f.base), m) == PostfixLoop(ws, Tree(f), q)
    decreases f, 1
  {
    hide *;
    SuffixSpelled(f);
    var m, a, b := BitsAt(ws, p, f, q);
    Closers();
    InnerParses(ws, m + 3, f.lo, DotDot, a);
    InnerParses(ws, a + 1, f.hi, RBracket, b);
    BitSliceStep(ws, Tree(f.base), m, Tree(f.lo), a, Tree(f.hi), b);
  }

  function Maybe(f: Option<Form>): seq<Tok> {
    if f.Some? then Spell(f.value) else []
  }

  function MaybeTree(f: Option<Form>): Option<Expr> {
    if f.Some? then Some(Tree(f.value)) else None
  }

  lemma CutSpelled(f: Form)
    requires f.Cut? && IsForm(f)
    ensures (f.from.Some? ==> IsForm(f.from.value)) && (f.to.Some? ==> IsForm(f.to.value))
    ensures Tree(f) == Slice(Tree(f.base), MaybeTree(f.from), MaybeTree(f.to))
    ensures Spell(f) == Spell(f.base) + ([Mark(LBracket)] + (Maybe(f.from) + ([Mark(DotDot)] + (Maybe(f.to) + [Mark(RBracket)]))))
  {}

  lemma CutAt(ws: seq<Word>, p: nat, f: Form, q: nat) returns (m: nat, a: nat, c: nat)
    requires f.Cut? && IsForm(f) && Fit(ws, p, Spell(f), q)
    ensures m == p + |Spell(f.base)| && m + 1 <= a && a + 1 <= c && c + 1 == q < |ws| && Ended(ws)
    ensures ws[m].kind.LBracket? && Fit(ws, m + 1, Maybe(f.from), a) && ws[a].kind.DotDot?
    ensures Fit(ws, a + 1, Maybe(f.to), c) && ws[c].kind.RBracket?
  {
    hide *;
    CutSpelled(f);
    m := p + |Spell(f.base)|;
    a := m + 1 + |Maybe(f.from)|;
    c := a + 1 + |Maybe(f.to)|;
    var high := Maybe(f.to) + [Mark(RBracket)];
    var tail := Maybe(f.from) + ([Mark(DotDot)] + high);
    Split(ws, p, Spell(f.base), [Mark(LBracket)] + tail, q);
    FirstMark(ws, m, LBracket, tail, q);
    Split(ws, m + 1, Maybe(f.from), [Mark(DotDot)] + high, q);
    FirstMark(ws, a, DotDot, high, q);
    Split(ws, a + 1, Maybe(f.to), [Mark(RBracket)], q);
    OnlyMark(ws, c, RBracket, q);
  }

  /** A bound of a slice, or none. */
  lemma {:induction false} BoundParses(ws: seq<Word>, p: nat, f: Option<Form>, k: Kind, q: nat)
    requires (f.Some? ==> IsForm(f.value)) && Fit(ws, p, Maybe(f), q) && q < |ws| && Ended(ws) && ws[q].kind == k
    requires (k == DotDot || k == RBracket)
    ensures f.None? ==> p == q
    ensures f.Some? ==> p < q && ws[p].kind != k && ParseExpr(ws, p) == Parsed(Tree(f.value), q)
    decreases f, 8
  {
    hide IsForm, Fit, Spell, Tree, ParseExpr, IsCloser;
    FitInside(ws, p, Maybe(f), q);
    Closers();
    if f.Some? {
      InnerParses(ws, p, f.value, k, q);
      NoCloserAt(ws, p, f.value, k, q);
    }
  }

  lemma MaybeIs(f: Option<Form>)
    ensures MaybeTree(f) == if f.Some? then Some(Tree(f.value)) else None
  {
    hide Tree;
  }

  lemma {:induction false} CutParses(ws: seq<Word>, p: nat, f: Form, q: nat)
    requires f.Cut? && IsForm(f) && Fit(ws, p, Spell(f), q) && q < |ws| && Ended(ws)
    ensures var m := p + |Spell(f.base)|; m < q && PostfixLoop(ws, Tree(f.base), m) == PostfixLoop(ws, Tree(f), q)
    decreases f, 1
  {
    hide *;
    CutSpelled(f);
    MaybeIs(f.from);
    MaybeIs(f.to);
    var m, a, c := CutAt(ws, p, f, q);
    BoundParses(ws, m + 1, f.from, DotDot, a);
    BoundParses(ws, a + 1, f.to, RBracket, c);
    SliceStep(ws, Tree(f.base), m, MaybeTree(f.from), a, MaybeTree(f.to), c);
  }

  // ---- arguments --------------------------------------------------------------------------------

  lemma CallSpelled(f: Form)
    requires (f.Applied? || f.Method?) && IsForm(f)
    ensures AreArgForms(f.args) && (f.comma ==> f.args != [])
    ensures f.Applied? ==> Tree(f) == Call(Tree(f.base), ArgTrees(f.args))
    ensures f.Applied? ==> Spell(f) == Spell(f.base) + ([Mark(LParen)] + (SpellArgs(f.args, f.comma) + [Mark(RParen)]))
    ensures f.Method? ==> Tree(f) == Call(Field(Tree(f.base), f.name), ArgTrees(f.args))
    ensures f.Method? ==>
              Spell(f) == Spell(f.base) + ([Mark(Dot)] + ([Named(f.name)] + ([Mark(LParen)] + (SpellArgs(f.args, f.comma) + [Mark(RParen)]))))
  {
    hide SpellArgs, AreArgForms, ArgTrees;
  }

  lemma {:induction false} AppliedParses(ws: seq<Word>, p: nat, f: Form, q: nat)
    requires f.Applied? && IsForm(f) && Fit(ws, p, Spell(f), q) && q < |ws| && Ended(ws)
    ensures var m := p + |Spell(f.base)|; m < q && PostfixLoop(ws, Tree(f.base), m) == PostfixLoop(ws, Tree(f), q)
    decreases f, 1
  {
    hide *;
    CallSpelled(f);
    var m := p + |Spell(f.base)|;
    var n := m + 1 + |SpellArgs(f.args, f.comma)|;
    Split(ws, p, Spell(f.base), [Mark(LParen)] + (SpellArgs(f.args, f.comma) + [Mark(RParen)]), q);
    FirstMark(ws, m, LParen, SpellArgs(f.args, f.comma) + [Mark(RParen)], q);
    Split(ws, m + 1, SpellArgs(f.args, f.comma), [Mark(RParen)], q);
    OnlyMark(ws, n, RParen, q);
    ArgsParse(ws, m + 1, f.args, f.comma, n);
    CallStep(ws, m, Tree(f.base), ArgTrees(f.args), n);
  }

  lemma MethodAt(ws: seq<Word>, p: nat, f: Form, q: nat) returns (m: nat, n: nat)
    requires f.Method? && IsForm(f) && Fit(ws, p, Spell(f), q)
    ensures m == p + |Spell(f.base)| && m + 3 <= n && n + 1 == q < |ws| && Ended(ws)
    ensures ws[m].kind.Dot? && ws[m + 1].kind.Ident? && ws[m + 1].text == f.name && ws[m + 2].kind.LParen?
    ensures Fit(ws, m + 3, SpellArgs(f.args, f.comma), n) && ws[n].kind.RParen?
  {
    hide *;
    CallSpelled(f);
    m := p + |Spell(f.base)|;
    n := m + 3 + |SpellArgs(f.args, f.comma)|;
    var tail := SpellArgs(f.args, f.comma) + [Mark(RParen)];
    Split(ws, p, Spell(f.base), [Mark(Dot)] + ([Named(f.name)] + ([Mark(LParen)] + tail)), q);
    FirstMark(ws, m, Dot, [Named(f.name)] + ([Mark(LParen)] + tail), q);
    FirstName(ws, m + 1, f.name, [Mark(LParen)] + tail, q);
    FirstMark(ws, m + 2, LParen, tail, q);
    Split(ws, m + 3, SpellArgs(f.args, f.comma), [Mark(RParen)], q);
    OnlyMark(ws, n, RParen, q);
  }

  lemma {:induction false} MethodParses(ws: seq<Word>, p: nat, f: Form, q: nat)
    requires f.Method? && IsForm(f) && Fit(ws, p, Spell(f), q) && q < |ws| && Ended(ws)
    ensures var m := p + |Spell(f.base)|; m < q && PostfixLoop(ws, Tree(f.base), m) == PostfixLoop(ws, Tree(f), q)
    decreases f, 1
  {
    hide *;
    CallSpelled(f);
    var m, n := MethodAt(ws, p, f, q);
    ArgsParse(ws, m + 3, f.args, f.comma, n);
    MethodStep(ws, Tree(f.base), m, ArgTrees(f.args), n);
  }

  function ArgTree(a: ArgForm): Arg {
    Arg(a.tag, Tree(a.value))
  }

  lemma {:induction false} ArgParses(ws: seq<Word>, p: nat, a: ArgForm, q: nat)
    requires IsForm(a.value) && Fit(ws, p, SpellArg(a), q) && q < |ws| && Ended(ws) && (ws[q].kind == Comma || ws[q].kind == RParen)
    ensures ParseArg(ws, p) == Parsed(ArgTree(a), q) && ws[p].kind != RParen && p < q
    decreases a, 8
  {
    hide *;
    Closers();
    ArgSpelled(a);
    if a.tag.Some? {
      FirstName(ws, p, a.tag.value, [Mark(Colon)] + Spell(a.value), q);
      FirstMark(ws, p + 1, Colon, Spell(a.value), q);
      InnerParses(ws, p + 2, a.value, ws[q].kind, q);
      LabelStep(ws, p, Tree(a.value), q);
    } else {
      InnerParses(ws, p, a.value, ws[q].kind, q);
      NoCloserAt(ws, p, a.value, RParen, q);
      LBraceIs();
      NoLabel(ws, p, a.value, q);
      NoLabelStep(ws, p, Tree(a.value), q);
    }
  }

  lemma ArgSpelled(a: ArgForm)
    ensures SpellArg(a) == if a.tag.Some? then [Named(a.tag.value)] + ([Mark(Colon)] + Spell(a.value)) else Spell(a.value)
    ensures ArgTree(a) == Arg(a.tag, Tree(a.value)) && RParen != Kind.Ident
    ensures a.tag.None? ==> ArgTree(a) == Arg(None, Tree(a.value))
    ensures a.tag.Some? ==> ArgTree(a) == Arg(Some(a.tag.value), Tree(a.value))
  {
    hide Spell, Tree;
  }

  lemma LabelStep(ws: seq<Word>, p: nat, v: Expr, q: nat)
    requires Ended(ws) && p + 2 < q < |ws| && ws[p].kind == Kind.Ident && ws[p + 1].kind == Colon && ParseExpr(ws, p + 2) == Parsed(v, q)
    ensures ParseArg(ws, p) == Parsed(Arg(Some(ws[p].text), v), q)
  {
    hide ParseExpr, Clean;
  }

  lemma NoLabelStep(ws: seq<Word>, p: nat, v: Expr, q: nat)
    requires Ended(ws) && p < q < |ws| && p + 1 < |ws| && ws[p + 1].kind != Colon && ParseExpr(ws, p) == Parsed(v, q)
    ensures ParseArg(ws, p) == Parsed(Arg(None, v), q)
  {
    hide ParseExpr, Clean;
  }

  /** An expression in front of a closing token does not start like a label. */
  lemma NoLabel(ws: seq<Word>, p: nat, f: Form, q: nat)
    requires IsForm(f) && Fit(ws, p, Spell(f), q) && q < |ws| && ws[q].kind != Colon
    ensures p + 1 < |ws| && ws[p + 1].kind != Colon
  {
    hide Fit, Spell, IsForm;
    FormStarts(f);
    FitInside(ws, p, Spell(f), q);
    if |Spell(f)| > 1 {
      FitSecond(ws, p, Spell(f), q);
      FitsKind(ws[p + 1], Spell(f)[1]);
    }
  }

  lemma {:induction false} ArgsParse(ws: seq<Word>, p: nat, args: seq<ArgForm>, comma: bool, q: nat)
    requires AreArgForms(args) && Fit(ws, p, SpellArgs(args, comma), q) && q < |ws| && Ended(ws) && ws[q].kind == RParen
    requires comma ==> args != []
    ensures ParseArgList(ws, p) == Parsed(ArgTrees(args), q)
    decreases args, 9
  {
    hide *;
    FitInside(ws, p, SpellArgs(args, comma), q);
    if args == [] {
      NoArgs(ws, p, q, comma);
    } else {
      assert args decreases to args[0];
      ArgsParts(args, comma);
      var n := p + |SpellArg(args[0])|;
      var rest := Comma_(|args| > 1 || comma) + SpellArgs(args[1..], comma);
      Split(ws, p, SpellArg(args[0]), rest, q);
      AfterItem(ws, n, |args| > 1 || comma, SpellArgs(args[1..], comma), q);
      NothingFollows(args, comma);
      FitInside(ws, n, rest, q);
      ArgParses(ws, p, args[0], n);
      MoreArgsParse(ws, n, [ArgTree(args[0])], args[1..], comma, |args| > 1 || comma, q);
      ArgsStep(ws, p, ArgTree(args[0]), n);
    }
  }

  lemma ArgsParts(args: seq<ArgForm>, comma: bool)
    requires args != []
    ensures AreArgForms(args) <==> IsForm(args[0].value) && AreArgForms(args[1..])
    ensures SpellArgs(args, comma) == SpellArg(args[0]) + (Comma_(|args| > 1 || comma) + SpellArgs(args[1..], comma))
    ensures ArgTrees(args) == [ArgTree(args[0])] + ArgTrees(args[1..])
  {
    hide Spell, SpellArg, IsForm, Tree;
  }

  lemma NothingFollows(args: seq<ArgForm>, comma: bool)
    ensures args != [] && |args| == 1 ==> SpellArgs(args[1..], comma) == []
    ensures args != [] && !(|args| > 1 || comma) ==> SpellArgs(args[1..], comma) == []
  {}

  /** Behind an item: a comma and more, or the end of the list. */
  lemma AfterItem(ws: seq<Word>, n: nat, more: bool, rest: seq<Tok>, q: nat)
    requires Fit(ws, n, Comma_(more) + rest, q) && q < |ws|
    ensures more ==> n + 1 <= q && ws[n].kind == Comma && Fit(ws, n + 1, rest, q)
    ensures !more && rest == [] ==> n == q
  {
    hide Fit;
    if more {
      First(ws, n, Mark(Comma), rest, q);
    } else {
      FitInside(ws, n, Comma_(more) + rest, q);
    }
  }

  lemma NoArgs(ws: seq<Word>, p: nat, q: nat, comma: bool)
    requires Ended(ws) && p < |ws| && q == p + |SpellArgs([], comma)| && ws[q].kind == RParen
    ensures ParseArgList(ws, p) == Parsed(ArgTrees([]), q)
  {}

  lemma ArgsStep(ws: seq<Word>, p: nat, a: Arg, n: nat)
    requires Ended(ws) && p < n < |ws| && ws[p].kind != RParen && ParseArg(ws, p) == Parsed(a, n)
    ensures ParseArgList(ws, p) == ArgLoop(ws, [a], n)
  {
    hide ParseArg, ArgLoop, Clean;
  }

  /** The arguments behind one; `more` says that a comma stands here. */
  lemma {:induction false} MoreArgsParse(ws: seq<Word>, n: nat, have: seq<Arg>, args: seq<ArgForm>, comma: bool, more: bool, q: nat)
    requires AreArgForms(args) && Fit(ws, n, Comma_(more) + SpellArgs(args, comma), q) && q < |ws| && Ended(ws) && ws[q].kind == RParen
    requires more == (args != [] || comma)
    ensures n < |ws| && ArgLoop(ws, have, n) == Parsed(have + ArgTrees(args), q)
    decreases args, 9
  {
    hide *;
    FitInside(ws, n, Comma_(more) + SpellArgs(args, comma), q);
    AfterItem(ws, n, more, SpellArgs(args, comma), q);
    if args == [] {
      LastArg(ws, n, have, comma, q);
    } else {
      assert args decreases to args[0];
      ArgsParts(args, comma);
      var m := n + 1 + |SpellArg(args[0])|;
      var rest := Comma_(|args| > 1 || comma) + SpellArgs(args[1..], comma);
      Split(ws, n + 1, SpellArg(args[0]), rest, q);
      FitInside(ws, m, rest, q);
      AfterItem(ws, m, |args| > 1 || comma, SpellArgs(args[1..], comma), q);
      NothingFollows(args, comma);
      ArgParses(ws, n + 1, args[0], m);
      MoreArgsParse(ws, m, have + [ArgTree(args[0])], args[1..], comma, |args| > 1 || comma, q);
      ArgLoopStep(ws, n, have, ArgTree(args[0]), m);
      assert (have + [ArgTree(args[0])]) + ArgTrees(args[1..]) == have + ([ArgTree(args[0])] + ArgTrees(args[1..]));
    }
  }

  lemma LastArg(ws: seq<Word>, n: nat, have: seq<Arg>, comma: bool, q: nat)
    requires Ended(ws) && q < |ws| && Fit(ws, n, Comma_(comma) + SpellArgs([], comma), q) && ws[q].kind == RParen
    ensures n < |ws| && ArgLoop(ws, have, n) == Parsed(have + ArgTrees([]), q)
  {
    AfterItem(ws, n, comma, [], q);
    FitInside(ws, n, Comma_(comma) + SpellArgs([], comma), q);
    assert have + ArgTrees([]) == have;
  }

  lemma ArgLoopStep(ws: seq<Word>, n: nat, have: seq<Arg>, a: Arg, m: nat)
    requires Ended(ws) && n + 1 < m < |ws| && ws[n].kind == Comma && ws[n + 1].kind != RParen && ParseArg(ws, n + 1) == Parsed(a, m)
    ensures ArgLoop(ws, have, n) == ArgLoop(ws, have + [a], m)
  {
    hide ParseArg, Clean;
  }

  // ---- primaries ----------------------------------------------------------------------------------

  lemma {:induction false} PrimaryParses(ws: seq<Word>, p: nat, f: Form, q: nat)
    requires IsPrimary(f) && IsForm(f) && Fit(ws, p, Spell(f), q) && q < |ws| && Ended(ws) && StopsName(ws, q)
    ensures p < q && ParsePrimary(ws, p) == Parsed(Tree(f), q)
    decreases f, 2
  {
    hide IsForm, Spell, Tree, Fit, StopsName;
    match f
    case Atom(w) => AtomParses(ws, p, f, q);
    case Path(_) => PathParses(ws, p, f, q);
    case Group(_) => GroupParses(ws, p, f, q);
    case Tuple(_, _) => TupleParses(ws, p, f, q);
    case Array(_, _) => ArrayParses(ws, p, f, q);
    case Repeat(_, _) => RepeatParses(ws, p, f, q);
    case Struct(_, _) => StructParses(ws, p, f, q);
    case Choice(_, _, _, _) => ChoiceParses(ws, p, f, q);
  }

  lemma AtomParses(ws: seq<Word>, p: nat, f: Form, q: nat)
    requires f.Atom? && IsForm(f) && Fit(ws, p, Spell(f), q) && q < |ws| && Ended(ws)
    ensures p < q && ParsePrimary(ws, p) == Parsed(Tree(f), q)
  {
    hide Fit, ParsePrimary;
    Only(ws, p, Exact(f.word), q);
    AtomIsPrimary(ws, p);
  }

  lemma {:induction false} NamesParse(ws: seq<Word>, p: nat, have: seq<string>, names: seq<string>, q: nat)
    requires names != [] && Fit(ws, p, SpellPath(names), q) && q < |ws| && Ended(ws) && ws[q].kind != DColon
    ensures p + 1 <= q && ws[p].kind == Kind.Ident
    ensures PathLoop(ws, have + [ws[p].text], p + 1) == (have + names, q)
    decreases |names|
  {
    hide Fit, Clean;
    if |names| == 1 {
      Only(ws, p, Named(names[0]), q);
      assert names == [names[0]];
    } else {
      var rest := SpellPath(names[1..]);
      First(ws, p, Named(names[0]), [Mark(DColon)] + rest, q);
      First(ws, p + 1, Mark(DColon), rest, q);
      NamesParse(ws, p + 2, have + [names[0]], names[1..], q);
      assert (have + [names[0]]) + names[1..] == have + names;
    }
  }

  lemma NamesAre(ws: seq<Word>, p: nat, names: seq<string>, q: nat)
    requires names != [] && Fit(ws, p, SpellPath(names), q) && q < |ws| && Ended(ws) && ws[q].kind != DColon
    ensures p + 1 <= q && ws[p].kind == Kind.Ident && PathLoop(ws, [ws[p].text], p + 1) == (names, q)
  {
    hide *;
    NamesParse(ws, p, [], names, q);
    assert [] + [ws[p].text] == [ws[p].text] && [] + names == names;
  }

  lemma PathParses(ws: seq<Word>, p: nat, f: Form, q: nat)
    requires f.Path? && IsForm(f) && Fit(ws, p, Spell(f), q) && q < |ws| && Ended(ws) && StopsName(ws, q)
    ensures p < q && ParsePrimary(ws, p) == Parsed(Tree(f), q)
  {
    hide Fit, ParsePrimary, ParseNamed, PathLoop, OpensStructLit, SpellPath;
    NamesAre(ws, p, f.names, q);
    NamedIsPrimary(ws, p);
    NamedBy(ws, p, f.names, q);
  }

  lemma GroupSpells(f: Form)
    requires (f.Group? || f.Repeat?) && IsForm(f)
    ensures f.Group? ==> IsForm(f.inner) && Tree(f) == Tree(f.inner) && Spell(f) == [Mark(LParen)] + (Spell(f.inner) + [Mark(RParen)])
    ensures f.Repeat? ==>
              && IsForm(f.item) && IsForm(f.count)
              && Spell(f) == [Mark(LBracket)] + (Spell(f.item) + ([Mark(Semicolon)] + (Spell(f.count) + [Mark(RBracket)])))
  {
    hide DecimalValue;
  }

  lemma {:induction false} GroupParses(ws: seq<Word>, p: nat, f: Form, q: nat)
    requires f.Group? && IsForm(f) && Fit(ws, p, Spell(f), q) && q < |ws| && Ended(ws)
    ensures p < q && ParsePrimary(ws, p) == Parsed(Tree(f), q)
    decreases f, 1
  {
    hide *;
    GroupSpells(f);
    var m := p + 1 + |Spell(f.inner)|;
    FirstMark(ws, p, LParen, Spell(f.inner) + [Mark(RParen)], q);
    Split(ws, p + 1, Spell(f.inner), [Mark(RParen)], q);
    OnlyMark(ws, m, RParen, q);
    Closers();
    InnerParses(ws, p + 1, f.inner, RParen, m);
    NoCloserAt(ws, p + 1, f.inner, RParen, m);
    ParenIsPrimary(ws, p, Tree(f.inner), m);
  }

  lemma RepeatAt(ws: seq<Word>, p: nat, f: Form, q: nat) returns (m: nat, n: nat)
    requires f.Repeat? && IsForm(f) && Fit(ws, p, Spell(f), q)
    ensures p + 1 < m && m + 1 < n && n + 1 == q < |ws| && Ended(ws)
    ensures ws[p].kind.LBracket? && Fit(ws, p + 1, Spell(f.item), m) && ws[m].kind.Semicolon?
    ensures Fit(ws, m + 1, Spell(f.count), n) && ws[n].kind.RBracket?
  {
    hide *;
    GroupSpells(f);
    m := p + 1 + |Spell(f.item)|;
    n := m + 1 + |Spell(f.count)|;
    var tail := Spell(f.count) + [Mark(RBracket)];
    FirstMark(ws, p, LBracket, Spell(f.item) + ([Mark(Semicolon)] + tail), q);
    Split(ws, p + 1, Spell(f.item), [Mark(Semicolon)] + tail, q);
    FirstMark(ws, m, Semicolon, tail, q);
    Split(ws, m + 1, Spell(f.count), [Mark(RBracket)], q);
    OnlyMark(ws, n, RBracket, q);
    StartAt(ws, p + 1, f.item, m);
    StartAt(ws, m + 1, f.count, n);
  }

  lemma RepeatTree(f: Form)
    requires f.Repeat? && IsForm(f)
    ensures var n := Tree(f.count);
            && (n.Literal? && n.kind == IntLit ==> DecimalValue(n.text).Some?)
            && Tree(f) == if !(n.Literal? && n.kind == IntLit) then ArrayLit([Tree(f.item)])
                          else ArrayLit(seq(DecimalValue(n.text).value, _ => Tree(f.item)))
  {
    hide DecimalValue;
  }

  lemma {:induction false} RepeatParses(ws: seq<Word>, p: nat, f: Form, q: nat)
    requires f.Repeat? && IsForm(f) && Fit(ws, p, Spell(f), q) && q < |ws| && Ended(ws)
    ensures p < q && ParsePrimary(ws, p) == Parsed(Tree(f), q)
    decreases f, 1
  {
    hide *;
    GroupSpells(f);
    RepeatTree(f);
    var m, n := RepeatAt(ws, p, f, q);
    Closers();
    InnerParses(ws, p + 1, f.item, Semicolon, m);
    NoCloserAt(ws, p + 1, f.item, RBracket, m);
    InnerParses(ws, m + 1, f.count, RBracket, n);
    ArrayIsPrimary(ws, p);
    RepeatStep(ws, p + 1, Tree(f.item), Tree(f.count), m, n);
  }

  // ---- lists of expressions -------------------------------------------------------------------------

  lemma ItemsParts(xs: seq<Form>, comma: bool)
    requires xs != []
    ensures AreForms(xs) <==> IsForm(xs[0]) && AreForms(xs[1..])
    ensures SpellItems(xs, comma) == Spell(xs[0]) + (Comma_(|xs| > 1 || comma) + SpellItems(xs[1..], comma))
    ensures Trees(xs) == [Tree(xs[0])] + Trees(xs[1..])
    ensures !(|xs| > 1 || comma) ==> SpellItems(xs[1..], comma) == []
    ensures |xs| == 1 ==> xs[1..] == []
  {
    hide Spell, IsForm, Tree;
  }

  /** The first item of a list up to a bracket, and where the rest of it stands. */
  lemma {:induction false} ItemParses(ws: seq<Word>, p: nat, xs: seq<Form>, comma: bool, close: Kind, q: nat)
    requires xs != [] && AreForms(xs) && Fit(ws, p, SpellItems(xs, comma), q) && q < |ws| && Ended(ws)
    requires ws[q].kind == close && (close == RParen || close == RBracket)
    ensures var m := p + |Spell(xs[0])|;
            var more := |xs| > 1 || comma;
            && p < m <= q && ParseExpr(ws, p) == Parsed(Tree(xs[0]), m)
            && ws[p].kind != close && ws[p].kind != Eof
            && Fit(ws, m, Comma_(more) + SpellItems(xs[1..], comma), q)
            && (more ==> m + 1 <= q && ws[m].kind == Comma && Fit(ws, m + 1, SpellItems(xs[1..], comma), q))
            && (!more ==> m == q && xs[1..] == [])
    decreases xs, 8
  {
    hide *;
    ItemsParts(xs, comma);
    var m := p + |Spell(xs[0])|;
    var more := |xs| > 1 || comma;
    Split(ws, p, Spell(xs[0]), Comma_(more) + SpellItems(xs[1..], comma), q);
    FitInside(ws, m, Comma_(more) + SpellItems(xs[1..], comma), q);
    AfterItem(ws, m, more, SpellItems(xs[1..], comma), q);
    Closers();
    InnerParses(ws, p, xs[0], ws[m].kind, m);
    NoCloserAt(ws, p, xs[0], close, m);
    NoCloserAt(ws, p, xs[0], Eof, m);
  }

  lemma ListParts(f: Form)
    requires (f.Tuple? || f.Array?) && IsForm(f)
    ensures AreForms(f.items) && (f.comma ==> f.items != []) && (f.Tuple? && |f.items| == 1 ==> f.comma)
    ensures Tree(f) == if f.Tuple? then TupleLit(Trees(f.items)) else ArrayLit(Trees(f.items))
    ensures Spell(f) == if f.Tuple? then [Mark(LParen)] + (SpellItems(f.items, f.comma) + [Mark(RParen)])
                        else [Mark(LBracket)] + (SpellItems(f.items, f.comma) + [Mark(RBracket)])
  {
    hide AreForms, SpellItems, Trees;
  }

  lemma NoItems(comma: bool)
    ensures SpellItems([], comma) == [] && Trees([]) == []
  {}

  lemma {:induction false} TupleParses(ws: seq<Word>, p: nat, f: Form, q: nat)
    requires f.Tuple? && IsForm(f) && Fit(ws, p, Spell(f), q) && q < |ws| && Ended(ws)
    ensures p < q && ParsePrimary(ws, p) == Parsed(Tree(f), q)
    decreases f, 1
  {
    hide *;
    ListParts(f);
    var xs, comma := f.items, f.comma;
    var n := p + 1 + |SpellItems(xs, comma)|;
    FirstMark(ws, p, LParen, SpellItems(xs, comma) + [Mark(RParen)], q);
    Split(ws, p + 1, SpellItems(xs, comma), [Mark(RParen)], q);
    OnlyMark(ws, n, RParen, q);
    ParenthesizedIsPrimary(ws, p);
    if xs == [] {
      NoItems(comma);
      UnitStep(ws, p + 1);
    } else {
      ItemsParts(xs, comma);
      ItemParses(ws, p + 1, xs, comma, RParen, n);
      var m := p + 1 + |Spell(xs[0])|;
      TupleRest(ws, m + 1, [Tree(xs[0])], xs[1..], comma, n);
      TupleStep(ws, p + 1, Trees(xs), m, n);
    }
  }

  lemma {:induction false} TupleRest(ws: seq<Word>, p: nat, have: seq<Expr>, xs: seq<Form>, comma: bool, q: nat)
    requires AreForms(xs) && Fit(ws, p, SpellItems(xs, comma), q) && q < |ws| && Ended(ws) && ws[q].kind == RParen
    ensures TupleLoop(ws, have, p) == Parsed(have + Trees(xs), q)
    decreases xs, 9
  {
    hide *;
    FitInside(ws, p, SpellItems(xs, comma), q);
    if xs == [] {
      NoItems(comma);
      TupleEnd(ws, q, have);
      assert have + [] == have;
    } else {
      ItemsParts(xs, comma);
      ItemParses(ws, p, xs, comma, RParen, q);
      var m := p + |Spell(xs[0])|;
      TupleLoopStep(ws, p, have, Tree(xs[0]), m);
      if |xs| > 1 || comma {
        TupleRest(ws, m + 1, have + [Tree(xs[0])], xs[1..], comma, q);
        assert (have + [Tree(xs[0])]) + Trees(xs[1..]) == have + Trees(xs);
      } else {
        NoItems(comma);
        RParenIsNoComma();
        assert have + [Tree(xs[0])] == have + Trees(xs);
      }
    }
  }

  lemma RParenIsNoComma()
    ensures RParen != Comma && RBracket != Comma && RBracket != Semicolon && Comma != Semicolon
  {}

  lemma TupleEnd(ws: seq<Word>, q: nat, have: seq<Expr>)
    requires Ended(ws) && q < |ws| && ws[q].kind == RParen
    ensures TupleLoop(ws, have, q) == Parsed(have, q)
  {}

  lemma TupleLoopStep(ws: seq<Word>, p: nat, have: seq<Expr>, e: Expr, m: nat)
    requires Ended(ws) && p < m < |ws| && ws[p].kind != RParen && ws[p].kind != Eof && ParseExpr(ws, p) == Parsed(e, m)
    requires ws[m].kind == Comma ==> m + 1 < |ws|
    ensures TupleLoop(ws, have, p) == if ws[m].kind == Comma then TupleLoop(ws, have + [e], m + 1) else Parsed(have + [e], m)
  {
    hide ParseExpr, Clean;
  }

  lemma {:induction false} ArrayParses(ws: seq<Word>, p: nat, f: Form, q: nat)
    requires f.Array? && IsForm(f) && Fit(ws, p, Spell(f), q) && q < |ws| && Ended(ws)
    ensures p < q && ParsePrimary(ws, p) == Parsed(Tree(f), q)
    decreases f, 1
  {
    hide *;
    ListParts(f);
    var xs, comma := f.items, f.comma;
    var n := p + 1 + |SpellItems(xs, comma)|;
    FirstMark(ws, p, LBracket, SpellItems(xs, comma) + [Mark(RBracket)], q);
    Split(ws, p + 1, SpellItems(xs, comma), [Mark(RBracket)], q);
    OnlyMark(ws, n, RBracket, q);
    ArrayIsPrimary(ws, p);
    if xs == [] {
      NoItems(comma);
      EmptyArrayStep(ws, p + 1);
    } else {
      ItemsParts(xs, comma);
      ItemParses(ws, p + 1, xs, comma, RBracket, n);
      var m := p + 1 + |Spell(xs[0])|;
      ArrayRest(ws, m, [Tree(xs[0])], xs[1..], comma, |xs| > 1 || comma, n);
      RParenIsNoComma();
      ArrayStep(ws, p + 1, Trees(xs), m, n);
    }
  }

  /** The elements behind one; `more` says that a comma stands here. */
  lemma {:induction false} ArrayRest(ws: seq<Word>, n: nat, have: seq<Expr>, xs: seq<Form>, comma: bool, more: bool, q: nat)
    requires AreForms(xs) && Fit(ws, n, Comma_(more) + SpellItems(xs, comma), q) && q < |ws| && Ended(ws) && ws[q].kind == RBracket
    requires more == (xs != [] || comma)
    ensures n < |ws| && ElementLoop(ws, have, n) == Parsed(have + Trees(xs), q)
    decreases xs, 9
  {
    hide *;
    FitInside(ws, n, Comma_(more) + SpellItems(xs, comma), q);
    AfterItem(ws, n, more, SpellItems(xs, comma), q);
    if xs == [] {
      LastItem(ws, n, have, comma, q);
    } else {
      ItemsParts(xs, comma);
      ItemParses(ws, n + 1, xs, comma, RBracket, q);
      var m := n + 1 + |Spell(xs[0])|;
      ElementStep(ws, n, have, Tree(xs[0]), m);
      ArrayRest(ws, m, have + [Tree(xs[0])], xs[1..], comma, |xs| > 1 || comma, q);
      assert (have + [Tree(xs[0])]) + Trees(xs[1..]) == have + Trees(xs);
    }
  }

  lemma LastItem(ws: seq<Word>, n: nat, have: seq<Expr>, comma: bool, q: nat)
    requires Ended(ws) && q < |ws| && Fit(ws, n, Comma_(comma) + SpellItems([], comma), q) && ws[q].kind == RBracket
    ensures n < |ws| && ElementLoop(ws, have, n) == Parsed(have + Trees([]), q)
  {
    AfterItem(ws, n, comma, [], q);
    FitInside(ws, n, Comma_(comma) + SpellItems([], comma), q);
    assert have + Trees([]) == have;
  }

  lemma ElementStep(ws: seq<Word>, n: nat, have: seq<Expr>, e: Expr, m: nat)
    requires Ended(ws) && n + 1 < m < |ws| && ws[n].kind == Comma && ws[n + 1].kind != RBracket && ParseExpr(ws, n + 1) == Parsed(e, m)
    ensures ElementLoop(ws, have, n) == ElementLoop(ws, have + [e], m)
  {
    hide ParseExpr, Clean;
  }

  // ---- structures -----------------------------------------------------------------------------------

  lemma FieldsParts(fields: seq<FieldForm>)
    requires fields != []
    ensures AreFieldForms(fields) <==> IsForm(fields[0].value) && AreFieldForms(fields[1..])
    ensures SpellFields(fields) == [Named(fields[0].name)]
              + ([Mark(Colon)] + (Spell(fields[0].value) + (Comma_(fields[0].comma) + SpellFields(fields[1..]))))
    ensures FieldTrees(fields) == [FieldInit(fields[0].name, Tree(fields[0].value))] + FieldTrees(fields[1..])
  {
    hide Spell, IsForm, Tree;
  }

  lemma NoFields()
    ensures SpellFields([]) == [] && FieldTrees([]) == []
  {}

  lemma StructParts(f: Form)
    requires f.Struct? && IsForm(f)
    ensures f.names != [] && AreFieldForms(f.fields)
    ensures Tree(f) == StructLit(f.names[|f.names| - 1], f.names[..|f.names| - 1], FieldTrees(f.fields))
    ensures Spell(f) == SpellPath(f.names) + ([Mark(LBrace)] + (SpellFields(f.fields) + [Mark(RBrace)]))
  {
    hide AreFieldForms, SpellFields, FieldTrees, SpellPath;
  }

  lemma LBraceIs()
    ensures LBrace != DColon && Colon != Comma && Colon != RParen
  {}

  lemma {:induction false} StructParses(ws: seq<Word>, p: nat, f: Form, q: nat)
    requires f.Struct? && IsForm(f) && Fit(ws, p, Spell(f), q) && q < |ws| && Ended(ws)
    ensures p < q && ParsePrimary(ws, p) == Parsed(Tree(f), q)
    decreases f, 1
  {
    hide *;
    StructParts(f);
    var m := p + |SpellPath(f.names)|;
    var n := m + 1 + |SpellFields(f.fields)|;
    Split(ws, p, SpellPath(f.names), [Mark(LBrace)] + (SpellFields(f.fields) + [Mark(RBrace)]), q);
    FirstMark(ws, m, LBrace, SpellFields(f.fields) + [Mark(RBrace)], q);
    Split(ws, m + 1, SpellFields(f.fields), [Mark(RBrace)], q);
    OnlyMark(ws, n, RBrace, q);
    LBraceIs();
    NamesAre(ws, p, f.names, m);
    NamedIsPrimary(ws, p);
    NamedBy(ws, p, f.names, m);
    FieldsOpen(ws, m, f.fields, n);
    FieldsParse(ws, m + 1, [], f.fields, n);
    assert [] + FieldTrees(f.fields) == FieldTrees(f.fields);
    StructStep(ws, f.names[|f.names| - 1], f.names[..|f.names| - 1], m + 1, FieldTrees(f.fields), n);
  }

  lemma FieldsOpen(ws: seq<Word>, m: nat, fields: seq<FieldForm>, n: nat)
    requires Ended(ws) && n < |ws| && m + 1 <= n && ws[m].kind == LBrace && Fit(ws, m + 1, SpellFields(fields), n) && ws[n].kind == RBrace
    ensures OpensStructLit(ws, m)
  {
    hide *;
    FitInside(ws, m + 1, SpellFields(fields), n);
    if fields == [] {
      NoFields();
    } else {
      FieldsParts(fields);
      var rest := Spell(fields[0].value) + (Comma_(fields[0].comma) + SpellFields(fields[1..]));
      FirstName(ws, m + 1, fields[0].name, [Mark(Colon)] + rest, n);
      FirstMark(ws, m + 2, Colon, rest, n);
    }
    OpensByMarks(ws, m);
  }

  /** What can stand behind the value of a field: a comma, the next field, or the end. */
  lemma AfterField(ws: seq<Word>, n: nat, comma: bool, fields: seq<FieldForm>, q: nat)
    requires Fit(ws, n, Comma_(comma) + SpellFields(fields), q) && q < |ws| && Ended(ws) && ws[q].kind == RBrace
    ensures n < |ws| && IsCloser(ws[n].kind) && (ws[n].kind == Comma <==> comma)
    ensures var k := if comma then n + 1 else n; k <= q && Fit(ws, k, SpellFields(fields), q)
  {
    hide Fit, Spell;
    FitInside(ws, n, Comma_(comma) + SpellFields(fields), q);
    if comma {
      First(ws, n, Mark(Comma), SpellFields(fields), q);
    } else {
      assert Comma_(comma) + SpellFields(fields) == SpellFields(fields);
      if fields != [] {
        FieldsParts(fields);
        FitsKind(ws[n], Named(fields[0].name));
      }
    }
  }

  lemma {:induction false} FieldsParse(ws: seq<Word>, p: nat, have: seq<FieldInit>, fields: seq<FieldForm>, q: nat)
    requires AreFieldForms(fields) && Fit(ws, p, SpellFields(fields), q) && q < |ws| && Ended(ws) && ws[q].kind == RBrace
    ensures p < |ws| && FieldLoop(ws, have, p) == Parsed(have + FieldTrees(fields), q)
    decreases fields, 9
  {
    hide *;
    FitInside(ws, p, SpellFields(fields), q);
    NoFields();
    if fields == [] {
      FieldsEnd(ws, p, have);
      assert have + [] == have;
    } else {
      assert fields decreases to fields[0];
      FieldsParts(fields);
      var x, v := fields[0], fields[0].value;
      var more := Comma_(x.comma) + SpellFields(fields[1..]);
      var n := p + 2 + |Spell(v)|;
      First(ws, p, Named(x.name), [Mark(Colon)] + (Spell(v) + more), q);
      First(ws, p + 1, Mark(Colon), Spell(v) + more, q);
      NameFits(ws[p], x.name);
      MarkKind(Colon);
      FitsKind(ws[p + 1], Mark(Colon));
      Split(ws, p + 2, Spell(v), more, q);
      AfterField(ws, n, x.comma, fields[1..], q);
      InnerParses(ws, p + 2, v, ws[n].kind, n);
      FieldStep(ws, p, have, Tree(v), n);
      var k := if x.comma then n + 1 else n;
      FieldsParse(ws, k, have + [FieldInit(x.name, Tree(v))], fields[1..], q);
      assert (have + [FieldInit(x.name, Tree(v))]) + FieldTrees(fields[1..]) == have + FieldTrees(fields);
    }
  }

  lemma NameFits(w: Word, name: string)
    requires Fits(w, Named(name))
    ensures w.kind == Kind.Ident && w.text == name
  {}

  lemma FieldsEnd(ws: seq<Word>, q: nat, have: seq<FieldInit>)
    requires Ended(ws) && q < |ws| && ws[q].kind == RBrace
    ensures FieldLoop(ws, have, q) == Parsed(have, q)
  {}

  // ---- conditions -----------------------------------------------------------------------------------

  /** An opening brace with an expression behind it opens no structure literal. */
  lemma BraceStops(ws: seq<Word>, m: nat, f: Form, b: nat)
    requires IsForm(f) && Ended(ws) && m < |ws| && ws[m].kind == LBrace && Fit(ws, m + 1, Spell(f), b) && b < |ws| && ws[b].kind == RBrace
    ensures Stops(ws, m)
  {
    hide Fit, Spell, IsForm, CanStart;
    StartAt(ws, m + 1, f, b);
    StartKinds(ws[m + 1].kind);
    NoLabel(ws, m + 1, f, b);
  }

  function ElsePart(f: Form): seq<Tok>
    requires f.Choice?
  {
    if f.chained then Spell(f.no) else [Mark(LBrace)] + (Spell(f.no) + [Mark(RBrace)])
  }

  lemma ChoiceParts(f: Form)
    requires f.Choice? && IsForm(f)
    ensures IsForm(f.condition) && IsForm(f.yes) && IsForm(f.no) && (f.chained ==> f.no.Choice?)
    ensures Tree(f) == IfExpr(Tree(f.condition), Tree(f.yes), Tree(f.no))
    ensures Spell(f) == [Mark(KwIf)] + (Spell(f.condition) + ([Mark(LBrace)] + (Spell(f.yes) + ([Mark(RBrace)] + ([Mark(KwElse)] + ElsePart(f))))))
  {}

  lemma ChoiceAt(ws: seq<Word>, p: nat, f: Form, q: nat) returns (a: nat, b: nat)
    requires f.Choice? && IsForm(f) && Fit(ws, p, Spell(f), q)
    ensures p + 1 < a && a + 1 < b && b + 2 <= q < |ws| && Ended(ws)
    ensures ws[p].kind.KwIf? && Fit(ws, p + 1, Spell(f.condition), a) && ws[a].kind.LBrace?
    ensures Fit(ws, a + 1, Spell(f.yes), b) && ws[b].kind.RBrace? && ws[b + 1].kind.KwElse? && Fit(ws, b + 2, ElsePart(f), q)
  {
    hide *;
    ChoiceParts(f);
    a := p + 1 + |Spell(f.condition)|;
    b := a + 1 + |Spell(f.yes)|;
    var tail := [Mark(RBrace)] + ([Mark(KwElse)] + ElsePart(f));
    FirstMark(ws, p, KwIf, Spell(f.condition) + ([Mark(LBrace)] + (Spell(f.yes) + tail)), q);
    Split(ws, p + 1, Spell(f.condition), [Mark(LBrace)] + (Spell(f.yes) + tail), q);
    FirstMark(ws, a, LBrace, Spell(f.yes) + tail, q);
    Split(ws, a + 1, Spell(f.yes), tail, q);
    FirstMark(ws, b, RBrace, [Mark(KwElse)] + ElsePart(f), q);
    FirstMark(ws, b + 1, KwElse, ElsePart(f), q);
    StartAt(ws, p + 1, f.condition, a);
    StartAt(ws, a + 1, f.yes, b);
  }

  lemma {:induction false} ChoiceParses(ws: seq<Word>, p: nat, f: Form, q: nat)
    requires f.Choice? && IsForm(f) && Fit(ws, p, Spell(f), q) && q < |ws| && Ended(ws) && StopsName(ws, q)
    ensures p < q && ParsePrimary(ws, p) == Parsed(Tree(f), q)
    decreases f, 1
  {
    hide *;
    ChoiceParts(f);
    var a, b := ChoiceAt(ws, p, f, q);
    Closers();
    InnerParses(ws, a + 1, f.yes, RBrace, b);
    BraceStops(ws, a, f.yes, b);
    ExprParses(ws, p + 1, f.condition, a);
    ElseParses(ws, b + 2, f, q);
    ConditionIsPrimary(ws, p);
    ChoiceStep(ws, p + 1, Tree(f), a, b, q);
  }

  lemma {:induction false} ElseParses(ws: seq<Word>, p: nat, f: Form, q: nat)
    requires f.Choice? && IsForm(f) && Fit(ws, p, ElsePart(f), q) && q < |ws| && Ended(ws) && StopsName(ws, q)
    ensures p + 1 < q && ParseElse(ws, p) == Parsed(Tree(f.no), q)
    decreases f, 0
  {
    hide *;
    ChoiceParts(f);
    ElsePartIs(f);
    if f.chained {
      ChoiceIsPrimary(f.no);
      FitInside(ws, p, ElsePart(f), q);
      PrimaryParses(ws, p, f.no, q);
      ChoiceSpelled(ws, p, f.no, q);
    } else {
      var n := p + 1 + |Spell(f.no)|;
      FirstMark(ws, p, LBrace, Spell(f.no) + [Mark(RBrace)], q);
      Split(ws, p + 1, Spell(f.no), [Mark(RBrace)], q);
      OnlyMark(ws, n, RBrace, q);
      Closers();
      InnerParses(ws, p + 1, f.no, RBrace, n);
    }
    ElseStep(ws, p, Tree(f.no), q);
  }

  lemma ElsePartIs(f: Form)
    requires f.Choice?
    ensures ElsePart(f) == if f.chained then Spell(f.no) else [Mark(LBrace)] + (Spell(f.no) + [Mark(RBrace)])
  {
    hide Spell;
  }

  lemma ChoiceIsPrimary(f: Form)
    requires f.Choice?
    ensures IsPrimary(f)
  {}

  lemma ChoiceSpelled(ws: seq<Word>, p: nat, f: Form, q: nat)
    requires f.Choice? && IsForm(f) && Fit(ws, p, Spell(f), q)
    ensures p + 1 < q && q < |ws| && ws[p].kind == KwIf
  {
    hide Fit;
    var rest := Spell(f)[1..];
    assert Spell(f) == [Mark(KwIf)] + rest && rest != [];
    First(ws, p, Mark(KwIf), rest, q);
    FitInside(ws, p + 1, rest, q);
  }
}
