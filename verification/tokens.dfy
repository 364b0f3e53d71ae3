/** Small helper datatypes shared by the other modules. */
module Wrappers {
  datatype Option<+T> = None | Some(value: T)
}

/** ASCII text helpers: the byte alphabet of the command text and `strings.ToUpper`. */
module Text {
  /** One byte of a Go string; the command text is a byte string. */
  type Byte = c: char | c as int < 256

  predicate IsLower(c: char) { 'a' <= c <= 'z' }

  /** The capital of a lower-case ASCII letter; any other character is left alone. */
  function UpperChar(c: char): (u: char)
    ensures !IsLower(u)
    ensures IsLower(c) ==> 'A' <= u <= 'Z' && u as int - 'A' as int == c as int - 'a' as int
    ensures u != c <==> IsLower(c)
  {
    if IsLower(c) then (c as int - 32) as char else c
  }

  /** `strings.ToUpper` restricted to ASCII: every lower-case letter is mapped to its capital. */
  function Upper(s: string): (u: string)
    ensures |u| == |s|
    ensures forall i :: 0 <= i < |s| ==> u[i] == UpperChar(s[i])
  {
    if s == [] then [] else [UpperChar(s[0])] + Upper(s[1..])
  }

  predicate IsDigit(c: char) { '0' <= c <= '9' }

  /** All the characters of `t` are decimal digits. */
  predicate AllDigits(t: string)
  {
    forall i :: 0 <= i < |t| ==> IsDigit(t[i])
  }

  function DigitValue(c: char): nat
    requires IsDigit(c)
  {
    c as int - '0' as int
  }

  function DigitChar(d: nat): (c: char)
    requires d < 10
    ensures IsDigit(c) && DigitValue(c) == d
  {
    ('0' as int + d) as char
  }

  /** The value of a digit string read in `base`, most significant digit first. */
  function DigitsValue(t: string, base: nat): nat
    requires AllDigits(t)
  {
    if t == [] then 0 else DigitsValue(t[..|t| - 1], base) * base + DigitValue(t[|t| - 1])
  }

  /** Decimal text of a natural number, without leading zeros. */
  function NatToString(n: nat): (t: string)
    ensures |t| > 0 && AllDigits(t)
    ensures t[0] == '0' ==> n == 0 && t == "0"
  {
    if n < 10 then [DigitChar(n)] else NatToString(n / 10) + [DigitChar(n % 10)]
  }

  /** Reading the decimal text of `n` gives `n` back. */
  lemma {:induction false} NatToStringRoundTrip(n: nat)
    ensures DigitsValue(NatToString(n), 10) == n
  {
    if n >= 10 {
      NatToStringRoundTrip(n / 10);
      var t := NatToString(n);
      assert t[..|t| - 1] == NatToString(n / 10);
    }
  }

  /** Signed decimal text, as the `%d` verb prints an integer. */
  function IntToString(n: int): (t: string)
    ensures |t| > 0
  {
    if n < 0 then "-" + NatToString(-n) else NatToString(n)
  }

  /** Upper-casing twice changes nothing more than upper-casing once. */
  lemma UpperIdempotent(s: string)
    ensures Upper(Upper(s)) == Upper(s)
  {
    assert forall i :: 0 <= i < |s| ==> !IsLower(Upper(s)[i]);
  }
}

/** The token vocabulary: backend/lexer/token.go. */
module Tokens {
  import opened Wrappers

  /** The closed enumeration of token kinds, in the source's declaration order. */
  datatype TokenKind =
    | Illegal | Eof
    | Ident | StringLit | IntLit | FloatLit
    | Space | Newline
    | Asterisk | Question | BracketL | BracketR | ParenL | ParenR
    | Comma | Colon | Pipe | Plus | Minus
    | Ex | Px | Nx | Xx | WithScores | Limit | Count | Match | TypeKw

  /** The integer value `iota` gives each kind in the source. */
  function Code(k: TokenKind): int
  {
    match k
    case Illegal => 0     case Eof => 1
    case Ident => 2       case StringLit => 3   case IntLit => 4      case FloatLit => 5
    case Space => 6       case Newline => 7
    case Asterisk => 8    case Question => 9    case BracketL => 10   case BracketR => 11
    case ParenL => 12     case ParenR => 13     case Comma => 14      case Colon => 15
    case Pipe => 16       case Plus => 17       case Minus => 18
    case Ex => 19         case Px => 20         case Nx => 21         case Xx => 22
    case WithScores => 23 case Limit => 24      case Count => 25      case Match => 26
    case TypeKw => 27
  }

  /** `TokenType.String`: a switch over the integer value of the kind. */
  function TypeName(n: int): string
  {
    match n
    case 0 => "ILLEGAL"     case 1 => "EOF"
    case 2 => "IDENT"       case 3 => "STRING"     case 4 => "INT"        case 5 => "FLOAT"
    case 6 => "SPACE"       case 7 => "NEWLINE"
    case 8 => "ASTERISK"    case 9 => "QUESTION"   case 10 => "BRACKET_L" case 11 => "BRACKET_R"
    case 12 => "PAREN_L"    case 13 => "PAREN_R"   case 14 => "COMMA"     case 15 => "COLON"
    case 16 => "PIPE"       case 17 => "PLUS"      case 18 => "MINUS"
    case 19 => "EX"         case 20 => "PX"        case 21 => "NX"        case 22 => "XX"
    case 23 => "WITHSCORES" case 24 => "LIMIT"     case 25 => "COUNT"     case 26 => "MATCH"
    case 27 => "TYPE"
    case _ => "UNKNOWN"
  }

  /** The name of a declared kind. */
  function KindName(k: TokenKind): string
  {
    TypeName(Code(k))
  }

  /** Reads a kind back from its name; the inverse of KindName on declared kinds. */
  function KindOfName(s: string): Option<TokenKind>
  {
    match s
    case "ILLEGAL" => Some(Illegal)        case "EOF" => Some(Eof)
    case "IDENT" => Some(Ident)            case "STRING" => Some(StringLit)
    case "INT" => Some(IntLit)             case "FLOAT" => Some(FloatLit)
    case "SPACE" => Some(Space)            case "NEWLINE" => Some(Newline)
    case "ASTERISK" => Some(Asterisk)      case "QUESTION" => Some(Question)
    case "BRACKET_L" => Some(BracketL)     case "BRACKET_R" => Some(BracketR)
    case "PAREN_L" => Some(ParenL)         case "PAREN_R" => Some(ParenR)
    case "COMMA" => Some(Comma)            case "COLON" => Some(Colon)
    case "PIPE" => Some(Pipe)              case "PLUS" => Some(Plus)
    case "MINUS" => Some(Minus)
    case "EX" => Some(Ex)                  case "PX" => Some(Px)
    case "NX" => Some(Nx)                  case "XX" => Some(Xx)
    case "WITHSCORES" => Some(WithScores)  case "LIMIT" => Some(Limit)
    case "COUNT" => Some(Count)            case "MATCH" => Some(Match)
    case "TYPE" => Some(TypeKw)
    case _ => None
  }

  /** Every declared kind has its own name, never "UNKNOWN", and the name identifies the kind. */
  lemma KindNamesDistinct(k: TokenKind)
    ensures KindName(k) != "UNKNOWN"
    ensures KindOfName(KindName(k)) == Some(k)
  {
    if Code(k) < 8 {
      LiteralKindNames(k);
    } else if Code(k) < 19 {
      SymbolKindNames(k);
    } else {
      KeywordKindNames(k);
    }
  }

  lemma LiteralKindNames(k: TokenKind)
    requires Code(k) < 8
    ensures KindOfName(KindName(k)) == Some(k)
  {
    match k
    case Illegal =>    case Eof =>        case Ident =>      case StringLit =>
    case IntLit =>     case FloatLit =>   case Space =>      case Newline =>
  }

  lemma SymbolKindNames(k: TokenKind)
    requires 8 <= Code(k) < 19
    ensures KindOfName(KindName(k)) == Some(k)
  {
    match k
    case Asterisk =>   case Question =>   case BracketL =>   case BracketR =>
    case ParenL =>     case ParenR =>     case Comma =>      case Colon =>
    case Pipe =>       case Plus =>       case Minus =>
  }

  lemma KeywordKindNames(k: TokenKind)
    requires 19 <= Code(k)
    ensures KindOfName(KindName(k)) == Some(k)
  {
    match k
    case Ex =>         case Px =>         case Nx =>         case Xx =>
    case WithScores => case Limit =>      case Count =>      case Match =>
    case TypeKw =>
  }

  /** Two kinds with the same name are the same kind. */
  lemma KindNameInjective(a: TokenKind, b: TokenKind)
    requires KindName(a) == KindName(b)
    ensures a == b
  {
    KindNamesDistinct(a);
    KindNamesDistinct(b);
  }

  /** Declared kinds occupy the values 0 to 27, and every other integer is named "UNKNOWN". */
  lemma UndeclaredValueIsUnknown(n: int, k: TokenKind)
    ensures 0 <= Code(k) <= 27
    ensures TypeName(n) == "UNKNOWN" <==> n < 0 || n > 27
  {
  }

  /** The nine reserved-word kinds. */
  predicate IsKeyword(k: TokenKind)
  {
    k in {Ex, Px, Nx, Xx, WithScores, Limit, Count, Match, TypeKw}
  }

  /** The reserved-word table, keyed by upper-case spelling. */
  const Keywords: map<string, TokenKind> := map[
    "EX" := Ex, "PX" := Px, "NX" := Nx, "XX" := Xx, "WITHSCORES" := WithScores,
    "LIMIT" := Limit, "COUNT" := Count, "MATCH" := Match, "TYPE" := TypeKw]

  /** `LookupIdent`: an exact, case-sensitive lookup in the reserved-word table. */
  function LookupIdent(ident: string): (k: TokenKind)
    ensures k == Ident || IsKeyword(k)
  {
    if ident in Keywords then Keywords[ident] else Ident
  }

  /** The lookup yields a keyword kind for exactly the nine reserved spellings. */
  lemma LookupIdentKeywords(s: string)
    ensures LookupIdent(s) != Ident <==>
      s in ["EX", "PX", "NX", "XX", "WITHSCORES", "LIMIT", "COUNT", "MATCH", "TYPE"]
  {
  }

  /** The keyword table and the name table agree: a reserved word is its own kind's name,
      and every keyword kind is found under its name. */
  lemma KeywordTableMatchesNames(s: string, k: TokenKind)
    ensures s in Keywords ==> KindName(LookupIdent(s)) == s
    ensures IsKeyword(k) ==> LookupIdent(KindName(k)) == k
  {
    ReservedWordsNameTheirKinds(s);
    if IsKeyword(k) {
      KeywordKindsAreReserved(k);
    }
  }

  /** A reserved word is the name of the kind it is reserved for. */
  lemma ReservedWordsNameTheirKinds(s: string)
    ensures s in Keywords ==> KindName(Keywords[s]) == s
  {
  }

  /** Every keyword kind is in the table under its name. */
  lemma KeywordKindsAreReserved(k: TokenKind)
    requires IsKeyword(k)
    ensures KindName(k) in Keywords && Keywords[KindName(k)] == k
  {
    match k
    case Ex =>    case Px =>    case Nx =>    case Xx =>    case WithScores =>
    case Limit => case Count => case Match => case TypeKw =>
  }

  /** The lookup is case-sensitive: a lower-case spelling is a plain identifier. */
  lemma LookupIdentIsCaseSensitive()
    ensures LookupIdent("ex") == Ident && LookupIdent("Match") == Ident
    ensures LookupIdent("EX") == Ex && LookupIdent("MATCH") == Match
  {
  }
}
