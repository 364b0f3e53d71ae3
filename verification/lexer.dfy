/** The tokenizer: backend/lexer/lexer.go.

    The lexer's cursor (`position`, `readPosition`, `ch`, `line`, `column`) is determined by
    `position` alone, so the scanning rules are first written as functions of a position
    (`Lex` gives the token `NextToken` returns and the position it leaves behind), and the
    `Lexer` class below is proved to follow them step by step. */
module Lexer {
  import opened Text
  import opened Tokens

  /** A token: its kind, its literal text, its byte offset, line and column. */
  datatype Token = Token(kind: TokenKind, literal: string, position: int, line: int, column: int)

  /** What one call of `NextToken` produces: the token and the cursor position it leaves. */
  datatype Scan = Scan(tok: Token, next: nat)

  /** The byte under the cursor at position `p`; NUL past the end of the input. */
  function CharAt(input: seq<Byte>, p: nat): Byte
  {
    if p < |input| then input[p] else '\0'
  }

  predicate IsLetter(c: char) { 'a' <= c <= 'z' || 'A' <= c <= 'Z' || c == '_' }

  predicate IsWhitespace(c: char) { c == ' ' || c == '\t' || c == '\r' }

  predicate IsIdentChar(c: char) { IsLetter(c) || IsDigit(c) || c == '_' || c == '-' }

  /** The line counter once the cursor stands at `p`: one more than the newlines read so far. */
  function LineAt(input: seq<Byte>, p: nat): int
  {
    (if p == 0 then 1 else LineAt(input, p - 1)) + (if CharAt(input, p) == '\n' then 1 else 0)
  }

  /** The column counter once the cursor stands at `p`: reset to 0 by a newline,
      otherwise one more than before (also past the end of the input). */
  function ColumnAt(input: seq<Byte>, p: nat): int
  {
    if CharAt(input, p) == '\n' then 0 else (if p == 0 then 0 else ColumnAt(input, p - 1)) + 1
  }

  /** Where `skipWhitespace` stops when started at `p`. */
  function WhitespaceEnd(input: seq<Byte>, p: nat): (q: nat)
    decreases |input| - p
    ensures p <= q && !IsWhitespace(CharAt(input, q))
    ensures p <= |input| ==> q <= |input|
    ensures p > |input| ==> q == p
    ensures forall k :: p <= k < q ==> IsWhitespace(CharAt(input, k))
  {
    if IsWhitespace(CharAt(input, p)) then WhitespaceEnd(input, p + 1) else p
  }

  /** Where `readIdentifier`'s loop stops when started at `p`. */
  function IdentEnd(input: seq<Byte>, p: nat): (q: nat)
    decreases |input| - p
    ensures p <= q && !IsIdentChar(CharAt(input, q))
    ensures p <= |input| ==> q <= |input|
    ensures forall k :: p <= k < q ==> IsIdentChar(CharAt(input, k))
  {
    if IsIdentChar(CharAt(input, p)) then IdentEnd(input, p + 1) else p
  }

  /** Where a run of decimal digits starting at `p` ends. */
  function DigitsEnd(input: seq<Byte>, p: nat): (q: nat)
    decreases |input| - p
    ensures p <= q && !IsDigit(CharAt(input, q))
    ensures p <= |input| ==> q <= |input|
    ensures forall k :: p <= k < q ==> IsDigit(CharAt(input, k))
  {
    if IsDigit(CharAt(input, p)) then DigitsEnd(input, p + 1) else p
  }

  /** Where `readNumber` stops: an optional '-', digits, and a fraction only when the '.'
      is followed by a digit. */
  function NumberEnd(input: seq<Byte>, p: nat): (q: nat)
  {
    var d := DigitsEnd(input, if CharAt(input, p) == '-' then p + 1 else p);
    if CharAt(input, d) == '.' && IsDigit(CharAt(input, d + 1)) then DigitsEnd(input, d + 1) else d
  }

  /** The quoted-string scan, once the byte at `k` has been dealt with: the scan reads the
      byte at `k + 1` and stops at the closing quote or at NUL; a backslash makes the scan
      step over the one byte after it.  The result is the position of the closing quote
      (or of the NUL that ended the scan). */
  function StringEnd(input: seq<Byte>, k: nat, quote: Byte): (e: nat)
    decreases |input| - k
    ensures k < e
    ensures k < |input| ==> e <= |input|
    ensures CharAt(input, e) == quote || CharAt(input, e) == '\0'
  {
    var c := CharAt(input, k + 1);
    if c == quote || c == '\0' then k + 1
    else if c == '\\' then
      if CharAt(input, k + 2) == '\0' then k + 2 else StringEnd(input, k + 2, quote)
    else StringEnd(input, k + 1, quote)
  }

  /** The token of a one-byte symbol, a newline or an illegal byte. */
  function SymbolKind(c: char): TokenKind
  {
    match c
    case '*' => Asterisk  case '?' => Question  case '[' => BracketL  case ']' => BracketR
    case '(' => ParenL    case ')' => ParenR    case ',' => Comma     case ':' => Colon
    case '|' => Pipe      case '+' => Plus      case '-' => Minus     case '\n' => Newline
    case _ => Illegal
  }

  /** A token built from the one byte under the cursor at `s` (`newToken`). */
  function ByteToken(input: seq<Byte>, s: nat, kind: TokenKind): Scan
  {
    Scan(Token(kind, [CharAt(input, s)], s, LineAt(input, s), ColumnAt(input, s)), s + 1)
  }

  function LexIdentifier(input: seq<Byte>, s: nat): Scan
    requires s < |input|
  {
    var e := IdentEnd(input, s);
    var lit := input[s..e];
    Scan(Token(LookupIdent(Upper(lit)), lit, e - |lit|, LineAt(input, e), ColumnAt(input, e) - |lit|), e)
  }

  function LexNumber(input: seq<Byte>, s: nat): Scan
    requires s < |input|
  {
    var e := NumberEnd(input, s);
    var lit := input[s..e];
    var kind := if '.' in lit then FloatLit else IntLit;
    Scan(Token(kind, lit, e - |lit|, LineAt(input, e), ColumnAt(input, e) - |lit|), e)
  }

  function LexString(input: seq<Byte>, s: nat, quote: Byte): Scan
    requires s < |input|
  {
    var e := StringEnd(input, s, quote);
    var lit := input[s + 1..e];
    var next := if CharAt(input, e) == quote then e + 1 else e;
    Scan(Token(StringLit, lit, s, LineAt(input, next), ColumnAt(input, next) - |lit| - 2), next)
  }

  /** `NextToken` from cursor position `p`: skip whitespace, then classify. */
  function Lex(input: seq<Byte>, p: nat): (r: Scan)
    ensures p < r.next
    ensures r.tok.kind != Space
    ensures r.tok.kind != Eof ==> p < |input| && r.next <= |input|
    ensures r.tok.kind == Eof ==> r.tok.literal == "" && (p >= |input| ==> r.next > |input|)
  {
    LexAt(input, WhitespaceEnd(input, p))
  }

  /** The token that starts at `s`, a position that holds no whitespace. */
  function LexAt(input: seq<Byte>, s: nat): (r: Scan)
    ensures s < r.next
    ensures r.tok.kind != Space
    ensures r.tok.kind != Eof ==> s < |input| && r.next <= |input|
    ensures r.tok.kind == Eof ==> r.tok.literal == "" && r.next == s + 1
  {
    var c := CharAt(input, s);
    if c == '-' && IsDigit(CharAt(input, s + 1)) then LexNumber(input, s)
    else if c == '"' || c == '\'' then LexString(input, s, c)
    else if c == '\0' then Scan(Token(Eof, "", s, LineAt(input, s), ColumnAt(input, s)), s + 1)
    else if IsLetter(c) then LexIdentifier(input, s)
    else if IsDigit(c) then LexNumber(input, s)
    else ByteToken(input, s, SymbolKind(c))
  }

  /** `TokenizeCommand` from cursor position `p`: the tokens up to and including the first EOF,
      with SPACE tokens filtered out. */
  function TokenizeFrom(input: seq<Byte>, p: nat): (ts: seq<Token>)
    decreases if p <= |input| then |input| + 1 - p else 0
    ensures |ts| > 0 && ts[|ts| - 1].kind == Eof
    ensures forall i :: 0 <= i < |ts| - 1 ==> ts[i].kind != Eof
    ensures forall i :: 0 <= i < |ts| ==> ts[i].kind != Space
  {
    var r := Lex(input, p);
    if r.tok.kind == Eof then [r.tok] else [r.tok] + TokenizeFrom(input, r.next)
  }

  /** The cursor position `TokenizeCommand` leaves behind. */
  function TokenizeEnd(input: seq<Byte>, p: nat): nat
    decreases if p <= |input| then |input| + 1 - p else 0
  {
    var r := Lex(input, p);
    if r.tok.kind == Eof then r.next else TokenizeEnd(input, r.next)
  }

  /** The lexer object: a cursor over the input, advanced one byte at a time by `ReadChar`. */
  class Lexer {
    const input: seq<Byte>
    var position: nat       // the byte under examination
    var readPosition: nat   // the next byte to read
    var ch: Byte            // the byte at `position`, NUL past the end
    var line: int
    var column: int

    /** The cursor fields are the ones reading the input up to `position` gives. */
    ghost predicate Valid()
      reads this
    {
      && readPosition == position + 1
      && ch == CharAt(input, position)
      && line == LineAt(input, position)
      && column == ColumnAt(input, position)
    }

    /** `New`: line 1, column 0, then the first byte is read. */
    constructor (input: seq<Byte>)
      ensures Valid() && this.input == input && position == 0
    {
      this.input := input;
      position, readPosition, ch := 0, 0, '\0';
      line, column := 1, 0;
      new;
      ReadChar();
    }

    /** `readChar`: move to the next byte, counting lines and columns. */
    method ReadChar()
      modifies this
      ensures position == old(readPosition) && readPosition == position + 1
      ensures ch == CharAt(input, position)
      ensures line == old(line) + (if ch == '\n' then 1 else 0)
      ensures column == if ch == '\n' then 0 else old(column) + 1
      ensures old(Valid()) ==> Valid() && position == old(position) + 1
    {
      ch := if readPosition >= |input| then '\0' else input[readPosition];
      position := readPosition;
      readPosition := readPosition + 1;
      if ch == '\n' {
        line := line + 1;
        column := 0;
      } else {
        column := column + 1;
      }
    }

    /** `peekChar`: the next byte, without moving. */
    method PeekChar() returns (c: Byte)
      requires Valid()
      ensures c == CharAt(input, position + 1)
    {
      c := if readPosition >= |input| then '\0' else input[readPosition];
    }

    /** `skipWhitespace`: space, tab and carriage return are passed over silently. */
    method SkipWhitespace()
      requires Valid()
      modifies this
      ensures Valid() && position == WhitespaceEnd(input, old(position))
    {
      while ch == ' ' || ch == '\t' || ch == '\r'
        invariant Valid() && old(position) <= position
        invariant WhitespaceEnd(input, position) == WhitespaceEnd(input, old(position))
        decreases |input| - position
      {
        ReadChar();
      }
    }

    /** `readIdentifier`: letters, digits, '_' and '-' from the current byte on. */
    method ReadIdentifier() returns (lit: string)
      requires Valid() && position <= |input|
      modifies this
      ensures Valid() && position == IdentEnd(input, old(position))
      ensures lit == input[old(position)..position]
    {
      var start := position;
      while IsLetter(ch) || IsDigit(ch) || ch == '_' || ch == '-'
        invariant Valid() && start <= position <= |input|
        invariant IdentEnd(input, position) == IdentEnd(input, start)
        decreases |input| - position
      {
        ReadChar();
      }
      lit := input[start..position];
    }

    /** `readNumber`: an optional '-', digits, then '.' and digits when a digit follows the '.'. */
    method ReadNumber() returns (lit: string)
      requires Valid() && position <= |input|
      modifies this
      ensures Valid() && position == NumberEnd(input, old(position))
      ensures lit == input[old(position)..position]
    {
      var start := position;
      if ch == '-' {
        ReadChar();
      }
      ReadDigits();
      var next := PeekChar();
      if ch == '.' && IsDigit(next) {
        ReadChar();
        ReadDigits();
      }
      lit := input[start..position];
    }

    /** One of the two digit loops of `readNumber`. */
    method ReadDigits()
      requires Valid()
      modifies this
      ensures Valid() && position == DigitsEnd(input, old(position))
    {
      ghost var d := DigitsEnd(input, position);
      while IsDigit(ch)
        invariant Valid() && old(position) <= position <= d
        invariant DigitsEnd(input, position) == d
        decreases d - position
      {
        ReadChar();
      }
    }

    /** The loop shared by `readString` and `readSingleQuoteString`, with the escape handling
        corrected (see StringEnd): the bytes between the quotes, raw. */
    method ReadQuoted(quote: Byte) returns (lit: string)
      requires Valid() && position < |input|
      modifies this
      ensures Valid()
      ensures lit == input[old(position) + 1..StringEnd(input, old(position), quote)]
      ensures position == (var e := StringEnd(input, old(position), quote);
                           if CharAt(input, e) == quote then e + 1 else e)
    {
      var start := position + 1;
      ghost var e := StringEnd(input, position, quote);
      while true
        invariant Valid() && start - 1 <= position < e
        invariant StringEnd(input, position, quote) == e
        decreases |input| - position
      {
        ReadChar();
        if ch == quote || ch == '\0' {
          break;
        }
        if ch == '\\' {
          ReadChar();
          if ch == '\0' {
            break;
          }
        }
      }
      lit := input[start..position];
      if ch == quote {
        ReadChar();
      }
    }

    /** `readString`: a double-quoted string. */
    method ReadString() returns (lit: string)
      requires Valid() && position < |input|
      modifies this
      ensures Valid() && lit == LexString(input, old(position), '"').tok.literal
      ensures position == LexString(input, old(position), '"').next
    {
      lit := ReadQuoted('"');
    }

    /** `readSingleQuoteString`: the same scan with the single quote as delimiter. */
    method ReadSingleQuoteString() returns (lit: string)
      requires Valid() && position < |input|
      modifies this
      ensures Valid() && lit == LexString(input, old(position), '\'').tok.literal
      ensures position == LexString(input, old(position), '\'').next
    {
      lit := ReadQuoted('\'');
    }

    /** `newToken`: a token for the byte under the cursor. */
    function NewToken(kind: TokenKind): Token
      reads this
    {
      Token(kind, [ch], position, line, column)
    }

    /** `NextToken`: skip whitespace, then classify the token that starts at the cursor. */
    method NextToken() returns (tok: Token)
      requires Valid()
      modifies this
      ensures Valid()
      ensures tok == Lex(input, old(position)).tok && position == Lex(input, old(position)).next
    {
      SkipWhitespace();
      tok := Classify();
    }

    /** The `switch` of `NextToken`, on the byte under the cursor. */
    method Classify() returns (tok: Token)
      requires Valid()
      modifies this
      ensures Valid()
      ensures tok == LexAt(input, old(position)).tok && position == LexAt(input, old(position)).next
    {
      var next := PeekChar();
      if ch == '-' && IsDigit(next) {
        tok := NumberToken();
      } else if ch == '"' || ch == '\'' {
        tok := StringToken();
      } else if ch == '\0' {
        tok := Token(Eof, "", position, line, column);
        ReadChar();
      } else if IsLetter(ch) {
        tok := IdentifierToken();
      } else if IsDigit(ch) {
        tok := NumberToken();
      } else {
        tok := NewToken(SymbolKind(ch));
        ReadChar();
      }
    }

    /** An identifier or keyword token: the kind is the lookup of the upper-cased text. */
    method IdentifierToken() returns (tok: Token)
      requires Valid() && position < |input|
      modifies this
      ensures Valid()
      ensures tok == LexIdentifier(input, old(position)).tok && position == LexIdentifier(input, old(position)).next
    {
      var lit := ReadIdentifier();
      tok := Token(LookupIdent(Upper(lit)), lit, position - |lit|, line, column - |lit|);
    }

    /** A number token: FLOAT exactly when the text holds a '.'. */
    method NumberToken() returns (tok: Token)
      requires Valid() && position < |input|
      modifies this
      ensures Valid()
      ensures tok == LexNumber(input, old(position)).tok && position == LexNumber(input, old(position)).next
    {
      var lit := ReadNumber();
      var kind := if '.' in lit then FloatLit else IntLit;
      tok := Token(kind, lit, position - |lit|, line, column - |lit|);
    }

    /** A quoted string token, in either quote. */
    method StringToken() returns (tok: Token)
      requires Valid() && position < |input| && (ch == '"' || ch == '\'')
      modifies this
      ensures Valid()
      ensures tok == LexString(input, old(position), old(ch)).tok && position == LexString(input, old(position), old(ch)).next
    {
      var start := position;
      var lit;
      if ch == '"' {
        lit := ReadString();
      } else {
        lit := ReadSingleQuoteString();
      }
      tok := Token(StringLit, lit, start, line, column - |lit| - 2);
    }

    /** `TokenizeCommand`: call NextToken until EOF, keeping every token but SPACE. */
    method TokenizeCommand() returns (tokens: seq<Token>)
      requires Valid()
      modifies this
      ensures Valid()
      ensures tokens == TokenizeFrom(input, old(position)) && position == TokenizeEnd(input, old(position))
    {
      tokens := [];
      ghost var p0 := position;
      while true
        invariant Valid()
        invariant tokens + TokenizeFrom(input, position) == TokenizeFrom(input, p0)
        invariant TokenizeEnd(input, position) == TokenizeEnd(input, p0)
        decreases if position <= |input| then |input| + 1 - position else 0
      {
        ghost var p := position;
        var tok := NextToken();
        if tok.kind == Eof {
          tokens := tokens + [tok];
          break;
        }
        if tok.kind != Space {
          tokens := tokens + [tok];
        }
      }
    }
  }

  /** `GetAllTokens`: tokenize a whole input with a fresh lexer. */
  method GetAllTokens(input: seq<Byte>) returns (tokens: seq<Token>)
    ensures tokens == TokenizeFrom(input, 0)
    ensures |tokens| > 0 && tokens[|tokens| - 1].kind == Eof
    ensures forall i :: 0 <= i < |tokens| ==> tokens[i].kind != Space
    ensures forall i :: 0 <= i < |tokens| - 1 ==> tokens[i].kind != Eof
  {
    var l := new Lexer(input);
    tokens := l.TokenizeCommand();
  }

  // ---------------------------------------------------------------------------------------
  // Properties of the scanning rules

  /** Whitespace (space, tab, carriage return) before a token is skipped: starting the scan
      on a whitespace byte gives the same token as starting just after it. */
  lemma WhitespaceIsSkipped(input: seq<Byte>, p: nat)
    requires IsWhitespace(CharAt(input, p))
    ensures Lex(input, p) == Lex(input, p + 1)
  {
  }

  /** A newline is a token of its own: NEWLINE with literal "\n", and it starts a new line
      whose column counter is 0. */
  lemma NewlineIsToken(input: seq<Byte>, p: nat)
    requires CharAt(input, WhitespaceEnd(input, p)) == '\n'
    ensures var s := WhitespaceEnd(input, p);
      var r := Lex(input, p);
      && r.tok.kind == Newline && r.tok.literal == "\n" && r.tok.position == s && r.next == s + 1
      && r.tok.column == 0
      && r.tok.line == (if s == 0 then 1 else LineAt(input, s - 1)) + 1
  {
  }

  /** A '-' starts a number exactly when a digit follows it; otherwise it is the MINUS symbol. */
  lemma MinusRule(input: seq<Byte>, s: nat)
    requires CharAt(input, s) == '-'
    ensures var r := LexAt(input, s);
      && (IsDigit(CharAt(input, s + 1)) ==>
            (r.tok.kind == IntLit || r.tok.kind == FloatLit) && |r.tok.literal| >= 2 && r.tok.literal[0] == '-')
      && (!IsDigit(CharAt(input, s + 1)) ==> r.tok.kind == Minus && r.tok.literal == "-" && r.next == s + 1)
  {
  }

  /** Which scanning rule `LexAt` applies to a letter, a digit or a '-' before a digit. */
  lemma LexAtIdentifier(input: seq<Byte>, s: nat)
    requires IsLetter(CharAt(input, s))
    ensures s < |input| && LexAt(input, s) == LexIdentifier(input, s)
  {
  }

  lemma LexAtNumber(input: seq<Byte>, s: nat)
    requires IsDigit(CharAt(input, s)) || (CharAt(input, s) == '-' && IsDigit(CharAt(input, s + 1)))
    ensures s < |input| && LexAt(input, s) == LexNumber(input, s)
  {
  }

  /** The shape of a numeric literal: an optional '-', then digits with at most one '.',
      which has a digit on each side. */
  predicate IsNumberText(t: string)
  {
    && |t| > 0
    && var body := if t[0] == '-' then t[1..] else t;
    && |body| > 0 && IsDigit(body[0]) && IsDigit(body[|body| - 1])
    && (forall i :: 0 <= i < |body| ==> IsDigit(body[i]) || body[i] == '.')
    && (forall i, j :: 0 <= i < j < |body| && body[i] == '.' ==> body[j] != '.')
  }

  /** The bytes `readNumber` consumes have the shape of a number, contain '.' exactly when a
      fraction was read, and cannot be extended by the byte after them. */
  lemma NumberEndShape(input: seq<Byte>, s: nat)
    requires IsDigit(CharAt(input, s)) || (CharAt(input, s) == '-' && IsDigit(CharAt(input, s + 1)))
    ensures var e := NumberEnd(input, s);
      && s < e <= |input|
      && IsNumberText(input[s..e])
      && !IsDigit(CharAt(input, e))
      && (CharAt(input, e) == '.' && '.' !in input[s..e] ==> !IsDigit(CharAt(input, e + 1)))
  {
    var a := if CharAt(input, s) == '-' then s + 1 else s;
    var d := DigitsEnd(input, a);
    if CharAt(input, d) == '.' && IsDigit(CharAt(input, d + 1)) {
      FractionShape(input, s, a, d);
    } else {
      WholeShape(input, s, a, d);
    }
  }

  /** `NumberEndShape` when a fraction was read: the '.' at `d` is the only one. */
  lemma FractionShape(input: seq<Byte>, s: nat, a: nat, d: nat)
    requires IsDigit(CharAt(input, a)) && (a == s || (a == s + 1 && CharAt(input, s) == '-'))
    requires a == (if CharAt(input, s) == '-' then s + 1 else s) && d == DigitsEnd(input, a)
    requires CharAt(input, d) == '.' && IsDigit(CharAt(input, d + 1))
    ensures var e := NumberEnd(input, s);
      && s < e <= |input|
      && IsNumberText(input[s..e])
      && !IsDigit(CharAt(input, e))
      && '.' in input[s..e]
  {
    var e := NumberEnd(input, s);
    var lit := input[s..e];
    var f := DigitsEnd(input, d + 1);
    assert e == f && a < d && d + 1 < e;
    var body := if lit[0] == '-' then lit[1..] else lit;
    assert body == input[a..e];
    forall i | 0 <= i < |body| && i != d - a ensures IsDigit(body[i]) {
      assert body[i] == CharAt(input, a + i);
    }
    assert body[d - a] == '.';
    assert lit[d - s] == '.';
  }

  /** `NumberEndShape` when no fraction was read: only digits after the sign. */
  lemma WholeShape(input: seq<Byte>, s: nat, a: nat, d: nat)
    requires IsDigit(CharAt(input, a)) && (a == s || (a == s + 1 && CharAt(input, s) == '-'))
    requires a == (if CharAt(input, s) == '-' then s + 1 else s) && d == DigitsEnd(input, a)
    requires !(CharAt(input, d) == '.' && IsDigit(CharAt(input, d + 1)))
    ensures var e := NumberEnd(input, s);
      && s < e <= |input|
      && IsNumberText(input[s..e])
      && !IsDigit(CharAt(input, e))
      && '.' !in input[s..e]
  {
    var e := NumberEnd(input, s);
    var lit := input[s..e];
    assert e == d && a < d;
    var body := if lit[0] == '-' then lit[1..] else lit;
    assert body == input[a..e];
    forall i | 0 <= i < |body| ensures IsDigit(body[i]) {
      assert a + i < d;
      assert body[i] == CharAt(input, a + i);
    }
    forall i | 0 <= i < |lit| ensures lit[i] != '.' {
      if i > 0 || lit[0] != '-' { assert IsDigit(CharAt(input, s + i)); }
    }
  }

  /** A number token is the longest numeric text at the cursor: its literal is the input
      bytes it covers, it has the shape of a number, the byte after it does not continue it,
      and it is FLOAT exactly when its literal contains '.'. */
  lemma NumberScan(input: seq<Byte>, s: nat)
    requires IsDigit(CharAt(input, s)) || (CharAt(input, s) == '-' && IsDigit(CharAt(input, s + 1)))
    ensures var r := LexAt(input, s);
      && r.tok.literal == input[s..r.next]
      && IsNumberText(r.tok.literal)
      && (r.tok.kind == FloatLit <==> '.' in r.tok.literal)
      && (r.tok.kind == IntLit <==> '.' !in r.tok.literal)
      && !IsDigit(CharAt(input, r.next))
      && (CharAt(input, r.next) == '.' && '.' !in r.tok.literal ==> !IsDigit(CharAt(input, r.next + 1)))
  {
    LexAtNumber(input, s);
    NumberEndShape(input, s);
  }

  /** An identifier token is the longest run of identifier bytes that starts with a letter;
      its kind is found by looking the upper-cased literal up among the reserved words. */
  lemma IdentifierScan(input: seq<Byte>, s: nat)
    requires IsLetter(CharAt(input, s))
    ensures var r := LexAt(input, s);
      && r.tok.literal == input[s..r.next] && |r.tok.literal| > 0 && IsLetter(r.tok.literal[0])
      && (forall i :: 0 <= i < |r.tok.literal| ==> IsIdentChar(r.tok.literal[i]))
      && !IsIdentChar(CharAt(input, r.next))
      && r.tok.kind == LookupIdent(Upper(r.tok.literal))
  {
    LexAtIdentifier(input, s);
    var e := IdentEnd(input, s);
    forall i | 0 <= i < e - s ensures IsIdentChar(input[s..e][i]) {
      assert input[s..e][i] == CharAt(input, s + i);
    }
  }

  /** A word is classified by its upper-case form (see `IdentifierScan`): `ex` and `Ex` are
      the keyword EX, while `exs` is an identifier. */
  lemma KeywordsIgnoreCase()
    ensures LookupIdent(Upper("ex")) == Ex && LookupIdent(Upper("Ex")) == Ex
    ensures LookupIdent(Upper("exs")) == Ident
  {
    assert Upper("ex") == "EX" && Upper("Ex") == "EX" && Upper("exs") == "EXS";
  }

  /** A string body that reads back unchanged between two `quote` bytes: no NUL, no bare
      `quote`, and every backslash followed by the byte it escapes. */
  predicate WellEscaped(body: seq<Byte>, quote: Byte)
    decreases |body|
  {
    if body == [] then true
    else if body[0] == '\\' then |body| >= 2 && body[1] != '\0' && WellEscaped(body[2..], quote)
    else body[0] != quote && body[0] != '\0' && WellEscaped(body[1..], quote)
  }

  /** The quoted-string scan stops right after a well-escaped body when a quote or NUL
      follows it: escaped quotes do not end the string. */
  lemma {:induction false} StringEndAfterBody(input: seq<Byte>, k: nat, quote: Byte, body: seq<Byte>)
    requires k + 1 + |body| <= |input| && input[k + 1..k + 1 + |body|] == body
    requires quote != '\\' && WellEscaped(body, quote)
    requires CharAt(input, k + 1 + |body|) == quote || CharAt(input, k + 1 + |body|) == '\0'
    decreases |body|
    ensures StringEnd(input, k, quote) == k + 1 + |body|
  {
    if body == [] {
      assert CharAt(input, k + 1) == quote || CharAt(input, k + 1) == '\0';
    } else if body[0] == '\\' {
      assert input[k + 1] == '\\' && CharAt(input, k + 2) == body[1];
      assert input[k + 3..k + 3 + |body[2..]|] == body[2..];
      StringEndAfterBody(input, k + 2, quote, body[2..]);
    } else {
      assert input[k + 1] == body[0];
      assert input[k + 2..k + 2 + |body[1..]|] == body[1..];
      StringEndAfterBody(input, k + 1, quote, body[1..]);
    }
  }

  /** A quoted string reads back its body: the literal is the raw bytes between the quotes,
      escapes kept as written, and the scan resumes after the closing quote.  Both quote
      characters behave alike. */
  lemma QuotedStringToken(input: seq<Byte>, s: nat, quote: Byte, body: seq<Byte>)
    requires quote == '"' || quote == '\''
    requires s + 2 + |body| <= |input| && input[s] == quote
    requires input[s + 1..s + 1 + |body|] == body && input[s + 1 + |body|] == quote
    requires WellEscaped(body, quote)
    ensures var r := LexAt(input, s);
      r.tok.kind == StringLit && r.tok.literal == body && r.tok.position == s
      && r.next == s + 2 + |body|
  {
    StringEndAfterBody(input, s, quote, body);
  }

  /** A string with no closing quote runs to the end of the input. */
  lemma UnterminatedString(input: seq<Byte>, s: nat, quote: Byte)
    requires quote == '"' || quote == '\''
    requires s < |input| && input[s] == quote
    requires WellEscaped(input[s + 1..], quote)
    ensures var r := LexAt(input, s);
      r.tok.kind == StringLit && r.tok.literal == input[s + 1..] && r.next == |input|
  {
    StringEndAfterBody(input, s, quote, input[s + 1..]);
  }

  /** A byte that starts no token is an ILLEGAL token of that one byte; the scan goes on
      after it. */
  lemma IllegalByte(input: seq<Byte>, s: nat)
    requires var c := CharAt(input, s);
      !IsLetter(c) && !IsDigit(c) && !IsWhitespace(c) && c != '\0'
      && c !in "*?[](),:|+-\n\"'"
    ensures var r := LexAt(input, s);
      r.tok.kind == Illegal && r.tok.literal == [CharAt(input, s)] && r.next == s + 1
  {
  }

  /** A NUL byte ends the scan just like the end of the input does. */
  lemma NulIsEof(input: seq<Byte>, s: nat)
    requires CharAt(input, s) == '\0'
    ensures LexAt(input, s).tok.kind == Eof && LexAt(input, s).next == s + 1
  {
  }

  /** The cursor position after `n` calls of `NextToken` from `p`. */
  function After(input: seq<Byte>, p: nat, n: nat): nat
    decreases n
  {
    if n == 0 then p else After(input, Lex(input, p).next, n - 1)
  }

  /** Once the input is used up, EOF is returned again and again. */
  lemma {:induction false} EofIsSticky(input: seq<Byte>, p: nat, n: nat)
    requires p >= |input|
    decreases n
    ensures After(input, p, n) >= |input|
    ensures Lex(input, After(input, p, n)).tok.kind == Eof
  {
    if n > 0 {
      EofIsSticky(input, Lex(input, p).next, n - 1);
    }
  }

  /** A NUL inside the input ends `TokenizeCommand`, though `NextToken` called again would
      carry on after it. */
  lemma EmbeddedNulEndsTokenize(input: seq<Byte>)
    requires input == "GET\0x"
    ensures TokenizeFrom(input, 0) == [Token(Ident, "GET", 0, 1, 1), Token(Eof, "", 3, 1, 4)]
    ensures Lex(input, 4).tok == Token(Ident, "x", 4, 1, 5)
  {
    GetBeforeNul(input);
    NulAfterGet(input);
    TokenizeStep(input, 3);
    TokenizeStep(input, 0);
    XAfterNul(input);
  }

  /** The three scans of `EmbeddedNulEndsTokenize`. */
  lemma GetBeforeNul(input: seq<Byte>)
    requires input == "GET\0x"
    ensures Lex(input, 0) == Scan(Token(Ident, "GET", 0, 1, 1), 3)
  {
    assert forall k :: 0 <= k <= 3 ==> CharAt(input, k) != '\n';
    assert WhitespaceEnd(input, 0) == 0;
    WordAt(input, 0, 3, "GET");
  }

  lemma NulAfterGet(input: seq<Byte>)
    requires input == "GET\0x"
    ensures Lex(input, 3) == Scan(Token(Eof, "", 3, 1, 4), 4)
  {
    assert forall k :: 0 <= k <= 3 ==> CharAt(input, k) != '\n';
    assert WhitespaceEnd(input, 3) == 3;
    NulIsEof(input, 3);
    FirstLineColumn(input, 3);
  }

  lemma XAfterNul(input: seq<Byte>)
    requires input == "GET\0x"
    ensures Lex(input, 4).tok == Token(Ident, "x", 4, 1, 5)
  {
    assert forall k :: 0 <= k <= 5 ==> CharAt(input, k) != '\n';
    assert WhitespaceEnd(input, 4) == 4;
    WordAt(input, 4, 5, "x");
  }

  /** With no newline between `s` and `e`, the line stays the same and the column grows by
      the distance travelled. */
  lemma {:induction false} ColumnAdvance(input: seq<Byte>, s: nat, e: nat)
    requires s <= e
    requires forall k :: s < k <= e ==> CharAt(input, k) != '\n'
    ensures LineAt(input, e) == LineAt(input, s)
    ensures ColumnAt(input, e) == ColumnAt(input, s) + (e - s)
  {
    if s < e {
      ColumnAdvance(input, s, e - 1);
    }
  }

  /** On the first line the column of the byte at offset `p` is `p + 1`. */
  lemma FirstLineColumn(input: seq<Byte>, p: nat)
    requires forall k :: 0 <= k <= p ==> CharAt(input, k) != '\n'
    ensures LineAt(input, p) == 1 && ColumnAt(input, p) == p + 1
  {
    ColumnAdvance(input, 0, p);
  }

  /** An identifier or number token covers input bytes none of which is a newline, and its
      line and column are read off the cursor standing just past it. */
  lemma WordSpan(input: seq<Byte>, s: nat)
    requires IsLetter(CharAt(input, s)) || IsDigit(CharAt(input, s))
      || (CharAt(input, s) == '-' && IsDigit(CharAt(input, s + 1)))
    ensures Spans(input, s, LexAt(input, s))
  {
    if IsLetter(CharAt(input, s)) {
      LexAtIdentifier(input, s);
      IdentifierSpan(input, s);
    } else {
      LexAtNumber(input, s);
      NumberSpan(input, s);
    }
  }

  /** The token `r` scanned from `s` covers the bytes from `s` up to `r.next`, none of them a
      newline, and its line and column are read off the cursor standing at `r.next`. */
  predicate Spans(input: seq<Byte>, s: nat, r: Scan)
  {
    && s < r.next
    && r.tok.position == s
    && r.tok.line == LineAt(input, r.next)
    && r.tok.column == ColumnAt(input, r.next) - (r.next - s)
    && |r.tok.literal| == r.next - s
    && forall k :: s <= k < r.next ==> CharAt(input, k) != '\n'
  }

  lemma IdentifierSpan(input: seq<Byte>, s: nat)
    requires s < |input| && IsLetter(input[s])
    ensures Spans(input, s, LexIdentifier(input, s))
  {
    var r := LexIdentifier(input, s);
    forall k | s <= k < r.next ensures CharAt(input, k) != '\n' {
      assert IsIdentChar(CharAt(input, k));
    }
  }

  lemma NumberSpan(input: seq<Byte>, s: nat)
    requires s < |input|
    requires IsDigit(input[s]) || (input[s] == '-' && IsDigit(CharAt(input, s + 1)))
    ensures Spans(input, s, LexNumber(input, s))
  {
    NumberBytes(input, s);
  }

  /** Every byte `readNumber` consumes is a sign, a digit or a '.'. */
  lemma NumberBytes(input: seq<Byte>, s: nat)
    requires s < |input|
    requires IsDigit(input[s]) || (input[s] == '-' && IsDigit(CharAt(input, s + 1)))
    ensures var e := NumberEnd(input, s);
      && s < e <= |input|
      && forall k :: s <= k < e ==> CharAt(input, k) == '-' || CharAt(input, k) == '.' || IsDigit(CharAt(input, k))
  {
    var a := if CharAt(input, s) == '-' then s + 1 else s;
    var d := DigitsEnd(input, a);
    assert forall k :: a <= k < d ==> IsDigit(CharAt(input, k));
    if CharAt(input, d) == '.' && IsDigit(CharAt(input, d + 1)) {
      var f := DigitsEnd(input, d + 1);
      assert forall k :: d + 1 <= k < f ==> IsDigit(CharAt(input, k));
    }
  }

  /** The position of an identifier or number token is the offset of its first byte; its
      line and column are those of its first byte, except when a newline follows the token
      directly, which the cursor has already read: then the line is the next one and the
      column is minus the literal's length. */
  lemma WordTokenPosition(input: seq<Byte>, s: nat)
    requires IsLetter(CharAt(input, s)) || IsDigit(CharAt(input, s))
      || (CharAt(input, s) == '-' && IsDigit(CharAt(input, s + 1)))
    ensures var r := LexAt(input, s);
      && r.tok.position == s
      && (CharAt(input, r.next) != '\n' ==>
            r.tok.line == LineAt(input, s) && r.tok.column == ColumnAt(input, s))
      && (CharAt(input, r.next) == '\n' ==>
            r.tok.line == LineAt(input, s) + 1 && r.tok.column == -|r.tok.literal|)
  {
    WordSpan(input, s);
    SpanPosition(input, s, LexAt(input, s));
  }

  /** Where a newline-free token stands, read off its first byte. */
  lemma SpanPosition(input: seq<Byte>, s: nat, r: Scan)
    requires Spans(input, s, r)
    ensures r.tok.position == s
    ensures CharAt(input, r.next) != '\n' ==>
      r.tok.line == LineAt(input, s) && r.tok.column == ColumnAt(input, s)
    ensures CharAt(input, r.next) == '\n' ==>
      r.tok.line == LineAt(input, s) + 1 && r.tok.column == -|r.tok.literal|
  {
    var e := r.next;
    if CharAt(input, e) != '\n' {
      ColumnAdvance(input, s, e);
    } else {
      ColumnAdvance(input, s, e - 1);
    }
  }

  /** The worked example: `SET key value` gives three identifiers at offsets 0, 4 and 8,
      columns 1, 5 and 9 of line 1, and then EOF. */
  lemma SetKeyValueTokens(input: seq<Byte>)
    requires input == "SET key value"
    ensures var ts := TokenizeFrom(input, 0);
      && |ts| == 4
      && ts[0] == Token(Ident, "SET", 0, 1, 1)
      && ts[1] == Token(Ident, "key", 4, 1, 5)
      && ts[2] == Token(Ident, "value", 8, 1, 9)
      && ts[3].kind == Eof
  {
    SetKeyValueWords(input);
    EndOfInputIsEof(input);
    TokenizeStep(input, 13);
    TokenizeStep(input, 7);
    TokenizeStep(input, 3);
    TokenizeStep(input, 0);
    assert TokenizeFrom(input, 0) == [Token(Ident, "SET", 0, 1, 1), Token(Ident, "key", 4, 1, 5),
      Token(Ident, "value", 8, 1, 9), Lex(input, 13).tok];
  }

  /** Scanning from the end of the input gives EOF. */
  lemma EndOfInputIsEof(input: seq<Byte>)
    ensures Lex(input, |input|).tok.kind == Eof
  {
    assert WhitespaceEnd(input, |input|) == |input|;
    NulIsEof(input, |input|);
  }

  /** One call of `NextToken` inside `TokenizeCommand`. */
  lemma TokenizeStep(input: seq<Byte>, p: nat)
    ensures var r := Lex(input, p);
      TokenizeFrom(input, p) == if r.tok.kind == Eof then [r.tok] else [r.tok] + TokenizeFrom(input, r.next)
  {
  }

  /** The three scans of the worked example. */
  lemma SetKeyValueWords(input: seq<Byte>)
    requires input == "SET key value"
    ensures Lex(input, 0) == Scan(Token(Ident, "SET", 0, 1, 1), 3)
    ensures Lex(input, 3) == Scan(Token(Ident, "key", 4, 1, 5), 7)
    ensures Lex(input, 7) == Scan(Token(Ident, "value", 8, 1, 9), 13)
  {
    SetWord(input);
    KeyWord(input);
    ValueWord(input);
  }

  lemma SetWord(input: seq<Byte>)
    requires input == "SET key value"
    ensures Lex(input, 0) == Scan(Token(Ident, "SET", 0, 1, 1), 3)
  {
    assert forall k :: 0 <= k <= 3 ==> CharAt(input, k) != '\n';
    assert WhitespaceEnd(input, 0) == 0;
    assert Upper("SET") == "SET";
    WordAt(input, 0, 3, "SET");
  }

  lemma KeyWord(input: seq<Byte>)
    requires input == "SET key value"
    ensures Lex(input, 3) == Scan(Token(Ident, "key", 4, 1, 5), 7)
  {
    assert forall k :: 0 <= k <= 7 ==> CharAt(input, k) != '\n';
    assert WhitespaceEnd(input, 3) == 4 by { assert WhitespaceEnd(input, 4) == 4; }
    assert Upper("key") == "KEY";
    WordAt(input, 4, 7, "key");
  }

  lemma ValueWord(input: seq<Byte>)
    requires input == "SET key value"
    ensures Lex(input, 7) == Scan(Token(Ident, "value", 8, 1, 9), 13)
  {
    assert forall k :: 0 <= k <= 13 ==> CharAt(input, k) != '\n';
    assert WhitespaceEnd(input, 7) == 8 by { assert WhitespaceEnd(input, 8) == 8; }
    assert Upper("value") == "VALUE";
    WordAt(input, 8, 13, "value");
  }

  /** An identifier on the first line of the input, spanning offsets `s` to `e`, that is not a
      reserved word. */
  lemma WordAt(input: seq<Byte>, s: nat, e: nat, word: string)
    requires s < e <= |input| && input[s..e] == word && IsLetter(word[0])
    requires forall k :: s <= k < e ==> IsIdentChar(input[k])
    requires !IsIdentChar(CharAt(input, e)) && CharAt(input, e) != '\n'
    requires forall k :: 0 <= k <= e ==> CharAt(input, k) != '\n'
    requires Upper(word) !in Keywords
    ensures LexAt(input, s) == Scan(Token(Ident, word, s, 1, s + 1), e)
  {
    LexAtIdentifier(input, s);
    IdentEndAt(input, s, e);
    WordTokenPosition(input, s);
    FirstLineColumn(input, s);
  }

  /** `readIdentifier` stops at the first byte that cannot continue an identifier. */
  lemma {:induction false} IdentEndAt(input: seq<Byte>, s: nat, e: nat)
    requires s <= e
    requires forall k :: s <= k < e ==> IsIdentChar(CharAt(input, k))
    requires !IsIdentChar(CharAt(input, e))
    decreases e - s
    ensures IdentEnd(input, s) == e
  {
    if s < e {
      IdentEndAt(input, s + 1, e);
    }
  }
}
