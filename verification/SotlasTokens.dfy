/** Token kinds, characters and words shared by the Sotlas lexer, parser and C printer. */
module SotlasTokens {
  import opened Options

  /** Keywords that steer the expression parser have their own constructor;
      every other keyword is an OtherKeyword with its canonical spelling. */
  datatype Kind =
    | IntLit | FloatLit | StrLit | CharLit | Ident
    | KwTrue | KwFalse | KwNil | KwSelf | KwSuper
    | KwMut | KwAwait | KwAs | KwIf | KwElse
    | KwSlit | KwNotch | KwStrand | KwCoOwned
    | OtherKeyword(word: string)
    | Eq | Neq | And | Or | LAnd | LOr | Xor | Not | Tilde | Shl | Shr
    | Lt | Lte | Gt | Gte | Plus | Minus | Star | Slash | Percent | NilCoal
    | Assign | PlusEq | MinusEq | StarEq | SlashEq | PctEq | AndEq | OrEq | XorEq | ShlEq | ShrEq
    | Arrow | FatArrow | DotDot | QMark
    | LBrace | RBrace | LParen | RParen | LBracket | RBracket
    | Semicolon | Colon | Comma | Dot | DColon | At
    | Eof
  {
    predicate IsKeyword() {
      || KwTrue? || KwFalse? || KwNil? || KwSelf? || KwSuper?
      || KwMut? || KwAwait? || KwAs? || KwIf? || KwElse?
      || KwSlit? || KwNotch? || KwStrand? || OtherKeyword?
    }

    /** Exactly the kinds that the operator and delimiter table spells. */
    predicate IsOperator() {
      !IntLit? && !FloatLit? && !StrLit? && !CharLit? && !Ident? && !IsKeyword() && !KwCoOwned? && !Eof?
    }
  }

  /** A token without its position: kind and text. */
  datatype Word = Word(kind: Kind, text: string)

  /** The spelling of every operator and delimiter. */
  function Spelling(k: Kind): (s: string)
    requires k.IsOperator()
    ensures 1 <= |s| <= 3
  {
    match k
    case Eq => "==" case Neq => "!=" case And => "&&" case Or => "||"
    case LAnd => "&" case LOr => "|" case Xor => "^" case Not => "!" case Tilde => "~"
    case Shl => "<<" case Shr => ">>" case Lt => "<" case Lte => "<=" case Gt => ">" case Gte => ">="
    case Plus => "+" case Minus => "-" case Star => "*" case Slash => "/" case Percent => "%"
    case NilCoal => "??" case Assign => "=" case PlusEq => "+=" case MinusEq => "-=" case StarEq => "*="
    case SlashEq => "/=" case PctEq => "%=" case AndEq => "&=" case OrEq => "|=" case XorEq => "^="
    case ShlEq => "<<=" case ShrEq => ">>=" case Arrow => "->" case FatArrow => "=>" case DotDot => ".."
    case QMark => "?" case LBrace => "{" case RBrace => "}" case LParen => "(" case RParen => ")"
    case LBracket => "[" case RBracket => "]" case Semicolon => ";" case Colon => ":" case Comma => ","
    case Dot => "." case DColon => "::" case At => "@"
  }

  /** The character at index i, or NUL past the end. */
  function Peek(s: string, i: nat): char {
    if i < |s| then s[i] else '\0'
  }

  predicate IsDigit(c: char) { '0' <= c <= '9' }

  predicate IsHex(c: char) { IsDigit(c) || 'a' <= c <= 'f' || 'A' <= c <= 'F' }

  predicate IsBin(c: char) { c == '0' || c == '1' }

  predicate IsAlpha(c: char) { 'a' <= c <= 'z' || 'A' <= c <= 'Z' }

  predicate IsIdentStart(c: char) { IsAlpha(c) || c == '_' }

  predicate IsIdentChar(c: char) { IsAlpha(c) || IsDigit(c) || c == '_' }

  predicate IsSpace(c: char) { c == ' ' || c == '\t' || c == '\r' || c == '\n' }

  /** The character classes over which the lexer runs a loop. */
  datatype Class = Digits | DigitsAndUnderscore | HexAndUnderscore | BinAndUnderscore | IdentChars
  {
    predicate Has(c: char) {
      match this
      case Digits => IsDigit(c)
      case DigitsAndUnderscore => IsDigit(c) || c == '_'
      case HexAndUnderscore => IsHex(c) || c == '_'
      case BinAndUnderscore => IsBin(c) || c == '_'
      case IdentChars => IsIdentChar(c)
    }
  }

  /** Length of the longest run of class characters starting at index i. */
  function Run(s: string, i: nat, cls: Class): (n: nat)
    requires i <= |s|
    ensures i + n <= |s|
    ensures forall j :: i <= j < i + n ==> cls.Has(s[j])
    ensures i + n < |s| ==> !cls.Has(s[i + n])
    decreases |s| - i
  {
    if i < |s| && cls.Has(s[i]) then 1 + Run(s, i + 1, cls) else 0
  }

  /** The text with its underscores dropped. */
  function Strip(s: string): (r: string)
    ensures forall c :: c in r ==> c in s && c != '_'
    ensures |r| <= |s|
  {
    if s == "" then "" else (if s[0] == '_' then "" else [s[0]]) + Strip(s[1..])
  }
}
