/** The expression parser as the source writes it: a cursor over the tokens, moved in place,
    with loops that rebuild the expression parsed so far. */
module SotlasParser {
  import opened Options
  import opened SotlasTokens
  import opened SotlasParsing

  /** What a parsing method hands back: a value, or the exception it raises. */
  datatype Result<+T> = Done(value: T) | Raised(fault: Fault) {
    predicate IsFailure() { Raised? }

    function PropagateFailure<U>(): Result<U>
      requires Raised?
    {
      Raised(fault)
    }

    function Extract(): T
      requires Done?
    {
      value
    }
  }

  class Parser {
    const toks: seq<Word>
    var pos: nat

    ghost predicate Valid()
      reads this
    {
      Ended(toks) && pos < |toks|
    }

    /** The method did what the specification says: same value with the cursor just after it,
        or the same fault. */
    ghost predicate Did<T>(r: Result<T>, spec: Parsed<T>)
      reads this
    {
      match spec
      case Parsed(v, next) => r == Done(v) && pos == next
      case Bad(fault, _) => r == Raised(fault)
    }

    constructor (toks: seq<Word>)
      requires Ended(toks)
      ensures Valid() && this.toks == toks && pos == 0
    {
      this.toks := toks;
      pos := 0;
    }

    function Cur(): Word
      requires Valid()
      reads this
    {
      toks[pos]
    }

    function PeekAhead(offset: nat): Word
      requires Valid()
      reads this
    {
      PeekWord(toks, pos + offset)
    }

    method Advance() returns (tok: Word)
      requires Valid()
      modifies this
      ensures Valid() && tok == toks[old(pos)]
      ensures pos == if tok.kind == Eof then old(pos) else old(pos) + 1
    {
      tok := Cur();
      if tok.kind != Eof {
        pos := pos + 1;
      }
    }

    method ExpectKind(kind: Kind) returns (r: Result<string>)
      requires Valid() && kind != Eof && kind != KwCoOwned
      modifies this
      ensures Valid() && Did(r, Expect(toks, old(pos), kind))
    {
      if Cur().kind != kind {
        return Raised(Unexpected);
      }
      var tok := Advance();
      return Done(tok.text);
    }

    method Consume(kind: Kind) returns (ok: bool)
      requires Valid() && kind != Eof
      modifies this
      ensures Valid() && ok == (toks[old(pos)].kind == kind)
      ensures pos == if ok then old(pos) + 1 else old(pos)
    {
      if Cur().kind == kind {
        var tok := Advance();
        return true;
      }
      return false;
    }

    method Expression() returns (r: Result<Expr>)
      requires Valid()
      modifies this
      ensures Valid() && Did(r, ParseExpr(toks, old(pos)))
      decreases |toks| - pos, 6
    {
      r := BinaryChain();
    }

    /** All binary operators share one level: the loop folds to the left. */
    method BinaryChain() returns (r: Result<Expr>)
      requires Valid()
      modifies this
      ensures Valid() && Did(r, ParseBinary(toks, old(pos)))
      decreases |toks| - pos, 5
    {
      hide ParseUnary, Clean;
      var left :- UnaryExpr();
      while IsBinaryOp(Cur().kind)
        invariant Valid() && old(pos) < pos
        invariant BinaryLoop(toks, left, pos) == ParseBinary(toks, old(pos))
        decreases |toks| - pos
      {
        var op := Advance();
        var right :- UnaryExpr();
        left := Binary(op.kind, left, right);
      }
      return Done(left);
    }

    method UnaryExpr() returns (r: Result<Expr>)
      requires Valid()
      modifies this
      ensures Valid() && Did(r, ParseUnary(toks, old(pos)))
      decreases |toks| - pos, 4
    {
      hide Clean;
      if IsUnaryOp(Cur().kind) {
        var op := Advance();
        if op.kind == LAnd {
          var isMut := Consume(KwMut);
        }
        var operand :- UnaryExpr();
        return Done(Unary(op.kind, operand));
      }
      r := Postfix();
    }

    method Postfix() returns (r: Result<Expr>)
      requires Valid()
      modifies this
      ensures Valid() && Did(r, ParsePostfix(toks, old(pos)))
      decreases |toks| - pos, 3
    {
      hide ParseDot, ParseBracket, ParseCallArgs, ParsePrimary, Clean;
      var e :- Primary();
      while true
        invariant Valid() && old(pos) < pos
        invariant PostfixLoop(toks, e, pos) == ParsePostfix(toks, old(pos))
        decreases |toks| - pos
      {
        if Cur().kind == Dot {
          var tok := Advance();
          e :- DotSuffix(e);
        } else if Cur().kind == LBracket {
          var tok := Advance();
          e :- BracketSuffix(e);
        } else if Cur().kind == LParen {
          var tok := Advance();
          var args :- CallArguments();
          e := Call(e, args);
        } else if Cur().kind == KwAs {
          return Raised(OutsideModel);
        } else if Cur().kind == QMark {
          var tok := Advance();
          e := OptionalChain(e);
        } else if Cur().kind == Not {
          var tok := Advance();
          e := ForceUnwrap(e);
        } else {
          break;
        }
      }
      return Done(e);
    }

    method DotSuffix(e: Expr) returns (r: Result<Expr>)
      requires Valid()
      modifies this
      ensures Valid() && Did(r, ParseDot(toks, e, old(pos)))
      decreases |toks| - pos, 2
    {
      hide ParseBitSlice, ParseBitNotch, ParseMember, DecimalValue, Clean;
      if Cur().kind == KwSlit {
        var tok := Advance();
        r := BitRange(e);
      } else if Cur().kind == KwNotch {
        var tok := Advance();
        r := SingleBit(e);
      } else if Cur().kind == KwStrand {
        var tok := Advance();
        return Done(BitStrand(e));
      } else if Cur().kind == IntLit {
        var tok := Advance();
        var v := DecimalValue(tok.text);
        if v.None? {
          return Raised(BadInteger);
        }
        return Done(TupleIndex(e, v.value));
      } else {
        r := Member(e);
      }
    }

    method BitRange(e: Expr) returns (r: Result<Expr>)
      requires Valid()
      modifies this
      ensures Valid() && Did(r, ParseBitSlice(toks, e, old(pos)))
      decreases |toks| - pos, 2
    {
      hide ParseExpr, Clean;
      var open :- ExpectKind(LBracket);
      var lo :- Expression();
      var dots :- ExpectKind(DotDot);
      var hi :- Expression();
      var close :- ExpectKind(RBracket);
      return Done(BitSlice(e, lo, hi));
    }

    method SingleBit(e: Expr) returns (r: Result<Expr>)
      requires Valid()
      modifies this
      ensures Valid() && Did(r, ParseBitNotch(toks, e, old(pos)))
      decreases |toks| - pos, 2
    {
      hide ParseExpr, Clean;
      var open :- ExpectKind(LBracket);
      var bit :- Expression();
      var close :- ExpectKind(RBracket);
      return Done(BitNotch(e, bit));
    }

    method Member(e: Expr) returns (r: Result<Expr>)
      requires Valid()
      modifies this
      ensures Valid() && Did(r, ParseMember(toks, e, old(pos)))
      decreases |toks| - pos, 1
    {
      hide ParseCallArgs, Clean;
      var name :- ExpectKind(Kind.Ident);
      if Cur().kind == LParen {
        var tok := Advance();
        var args :- CallArguments();
        return Done(Call(Field(e, name), args));
      }
      return Done(Field(e, name));
    }

    method BracketSuffix(e: Expr) returns (r: Result<Expr>)
      requires Valid()
      modifies this
      ensures Valid() && Did(r, ParseBracket(toks, e, old(pos)))
      decreases |toks| - pos, 7
    {
      hide ParseExpr, ParseSliceEnd, Clean;
      if Cur().kind == DotDot {
        var dots := Advance();
        var hi :- SliceEnd();
        return Done(Slice(e, None, hi));
      }
      var lo :- Expression();
      var isSlice := Consume(DotDot);
      if isSlice {
        var hi :- SliceEnd();
        return Done(Slice(e, Some(lo), hi));
      }
      var close :- ExpectKind(RBracket);
      return Done(Index(e, lo));
    }

    method SliceEnd() returns (r: Result<Option<Expr>>)
      requires Valid()
      modifies this
      ensures Valid() && Did(r, ParseSliceEnd(toks, old(pos)))
      decreases |toks| - pos, 7
    {
      hide ParseExpr, Clean;
      var hi: Option<Expr> := None;
      if Cur().kind != RBracket {
        var e :- Expression();
        hi := Some(e);
      }
      var close :- ExpectKind(RBracket);
      return Done(hi);
    }

    method CallArguments() returns (r: Result<seq<Arg>>)
      requires Valid()
      modifies this
      ensures Valid() && Did(r, ParseCallArgs(toks, old(pos)))
      decreases |toks| - pos, 9
    {
      hide ParseArgList, Clean;
      var args :- ArgList();
      var close :- ExpectKind(RParen);
      return Done(args);
    }

    method ArgList() returns (r: Result<seq<Arg>>)
      requires Valid()
      modifies this
      ensures Valid() && Did(r, ParseArgList(toks, old(pos)))
      decreases |toks| - pos, 8
    {
      hide ParseArg, Clean;
      if Cur().kind == RParen {
        return Done([]);
      }
      var first :- Argument();
      var args := [first];
      while Cur().kind == Comma
        invariant Valid() && old(pos) < pos
        invariant ArgLoop(toks, args, pos) == ParseArgList(toks, old(pos))
        decreases |toks| - pos
      {
        var comma := Advance();
        if Cur().kind == RParen {
          return Done(args);
        }
        var a :- Argument();
        args := args + [a];
      }
      return Done(args);
    }

    method Argument() returns (r: Result<Arg>)
      requires Valid()
      modifies this
      ensures Valid() && Did(r, ParseArg(toks, old(pos)))
      decreases |toks| - pos, 7
    {
      hide Clean;
      var tag: Option<string> := None;
      if Cur().kind == Kind.Ident && PeekAhead(1).kind == Colon {
        var name := Advance();
        tag := Some(name.text);
        var colon := Advance();
      }
      var v :- Expression();
      return Done(Arg(tag, v));
    }

    method Primary() returns (r: Result<Expr>)
      requires Valid()
      modifies this
      ensures Valid() && Did(r, ParsePrimary(toks, old(pos)))
      decreases |toks| - pos, 2
    {
      hide Clean;
      var cur := Cur();
      if IsLiteral(cur.kind) {
        var tok := Advance();
        return Done(Literal(cur.kind, cur.text));
      }
      if cur.kind == KwSelf || cur.kind == KwSuper {
        var tok := Advance();
        return Done(Expr.Ident(cur.text, []));
      }
      if cur.kind == Kind.Ident {
        r := Named();
      } else if cur.kind == LParen {
        var tok := Advance();
        r := Parenthesized();
      } else if cur.kind == LBracket {
        var tok := Advance();
        r := ArrayLiteral();
      } else if cur.kind == KwIf {
        var tok := Advance();
        r := Conditional();
      } else if cur.kind == LBrace {
        return Raised(OutsideModel);
      } else {
        return Raised(Unexpected);
      }
    }

    method Named() returns (r: Result<Expr>)
      requires Valid() && toks[pos].kind == Kind.Ident
      modifies this
      ensures Valid() && Did(r, ParseNamed(toks, old(pos)))
      decreases |toks| - pos, 1
    {
      hide ParseStructLit, PathLoop, PeekWord, Clean;
      var path := Path();
      var name, prefix := path[|path| - 1], path[..|path| - 1];
      if Cur().kind == LBrace {
        var p1, p2 := PeekAhead(1), PeekAhead(2);
        if p1.kind == RBrace || (p1.kind == Kind.Ident && p2.kind == Colon) {
          var open := Advance();
          r := StructLiteral(name, prefix);
          return;
        }
      }
      return Done(Expr.Ident(name, prefix));
    }

    method Path() returns (path: seq<string>)
      requires Valid() && toks[pos].kind == Kind.Ident
      modifies this
      ensures Valid() && |path| > 0 && (path, pos) == PathLoop(toks, [toks[old(pos)].text], old(pos) + 1)
    {
      hide Clean;
      var first := Advance();
      path := [first.text];
      while Cur().kind == DColon && PeekAhead(1).kind == Kind.Ident
        invariant Valid() && old(pos) < pos && |path| > 0
        invariant PathLoop(toks, path, pos) == PathLoop(toks, [toks[old(pos)].text], old(pos) + 1)
        decreases |toks| - pos
      {
        var colons := Advance();
        var part := Advance();
        path := path + [part.text];
      }
    }

    method StructLiteral(name: string, prefix: seq<string>) returns (r: Result<Expr>)
      requires Valid()
      modifies this
      ensures Valid() && Did(r, ParseStructLit(toks, name, prefix, old(pos)))
      decreases |toks| - pos, 8
    {
      hide FieldLoop, Clean;
      var fields :- StructFields();
      var close :- ExpectKind(RBrace);
      return Done(StructLit(name, prefix, fields));
    }

    method StructFields() returns (r: Result<seq<FieldInit>>)
      requires Valid()
      modifies this
      ensures Valid() && Did(r, FieldLoop(toks, [], old(pos)))
      decreases |toks| - pos, 7
    {
      hide ParseFieldInit, Clean;
      var fields: seq<FieldInit> := [];
      while Cur().kind != RBrace && Cur().kind != Eof
        invariant Valid() && old(pos) <= pos
        invariant FieldLoop(toks, fields, pos) == FieldLoop(toks, [], old(pos))
        decreases |toks| - pos
      {
        var field :- StructField();
        fields := fields + [field];
      }
      return Done(fields);
    }

    method StructField() returns (r: Result<FieldInit>)
      requires Valid()
      modifies this
      ensures Valid() && Did(r, ParseFieldInit(toks, old(pos)))
      decreases |toks| - pos, 6
    {
      hide ParseExpr, Clean;
      var name :- ExpectKind(Kind.Ident);
      var colon :- ExpectKind(Colon);
      var v :- Expression();
      var comma := Consume(Comma);
      return Done(FieldInit(name, v));
    }

    method Parenthesized() returns (r: Result<Expr>)
      requires Valid()
      modifies this
      ensures Valid() && Did(r, ParseParenthesized(toks, old(pos)))
      decreases |toks| - pos, 8
    {
      hide ParseExpr, TupleLoop, Clean;
      if Cur().kind == RParen {
        var tok := Advance();
        return Done(TupleLit([]));
      }
      var first :- Expression();
      var isTuple := Consume(Comma);
      if isTuple {
        var elements :- TupleElements(first);
        var close :- ExpectKind(RParen);
        return Done(TupleLit(elements));
      }
      var close :- ExpectKind(RParen);
      return Done(first);
    }

    method TupleElements(first: Expr) returns (r: Result<seq<Expr>>)
      requires Valid()
      modifies this
      ensures Valid() && Did(r, TupleLoop(toks, [first], old(pos)))
      decreases |toks| - pos, 7
    {
      hide ParseExpr, Clean;
      var elements := [first];
      while Cur().kind != RParen && Cur().kind != Eof
        invariant Valid() && old(pos) <= pos
        invariant TupleLoop(toks, elements, pos) == TupleLoop(toks, [first], old(pos))
        decreases |toks| - pos
      {
        var e :- Expression();
        elements := elements + [e];
        var comma := Consume(Comma);
        if !comma {
          return Done(elements);
        }
      }
      return Done(elements);
    }

    method ArrayLiteral() returns (r: Result<Expr>)
      requires Valid()
      modifies this
      ensures Valid() && Did(r, ParseArray(toks, old(pos)))
      decreases |toks| - pos, 8
    {
      hide ParseExpr, ElementLoop, ParseRepeat, Clean;
      if Cur().kind == RBracket {
        var close := Advance();
        return Done(ArrayLit([]));
      }
      var first :- Expression();
      var isRepeat := Consume(Semicolon);
      if isRepeat {
        r := RepeatCount(first);
        return;
      }
      var elements :- MoreElements(first);
      var close :- ExpectKind(RBracket);
      return Done(ArrayLit(elements));
    }

    method RepeatCount(first: Expr) returns (r: Result<Expr>)
      requires Valid()
      modifies this
      ensures Valid() && Did(r, ParseRepeat(toks, first, old(pos)))
      decreases |toks| - pos, 7
    {
      hide ParseExpr, DecimalValue, Clean;
      var count :- Expression();
      var close :- ExpectKind(RBracket);
      if count.Literal? && count.kind == IntLit {
        var n := DecimalValue(count.text);
        if n.None? {
          return Raised(BadInteger);
        }
        return Done(ArrayLit(Copies(first, n.value)));
      }
      return Done(ArrayLit([first]));
    }

    method MoreElements(first: Expr) returns (r: Result<seq<Expr>>)
      requires Valid()
      modifies this
      ensures Valid() && Did(r, ElementLoop(toks, [first], old(pos)))
      decreases |toks| - pos, 7
    {
      hide ParseExpr, Clean;
      var elements := [first];
      while Cur().kind == Comma
        invariant Valid() && old(pos) <= pos
        invariant ElementLoop(toks, elements, pos) == ElementLoop(toks, [first], old(pos))
        decreases |toks| - pos
      {
        var comma := Advance();
        if Cur().kind == RBracket {
          return Done(elements);
        }
        var e :- Expression();
        elements := elements + [e];
      }
      return Done(elements);
    }

    method Conditional() returns (r: Result<Expr>)
      requires Valid()
      modifies this
      ensures Valid() && Did(r, ParseIfExpr(toks, old(pos)))
      decreases |toks| - pos, 7
    {
      hide ParseExpr, ParseElse, Clean;
      var c :- Expression();
      var open1 :- ExpectKind(LBrace);
      var t :- Expression();
      var close1 :- ExpectKind(RBrace);
      var els :- ExpectKind(KwElse);
      var e :- ElseBranch();
      return Done(IfExpr(c, t, e));
    }

    method ElseBranch() returns (r: Result<Expr>)
      requires Valid()
      modifies this
      ensures Valid() && Did(r, ParseElse(toks, old(pos)))
      decreases |toks| - pos, 7
    {
      hide ParseExpr, ParsePrimary, Clean;
      if Cur().kind == KwIf {
        r := Primary();
        return;
      }
      var open :- ExpectKind(LBrace);
      var e :- Expression();
      var close :- ExpectKind(RBrace);
      return Done(e);
    }
  }
}
