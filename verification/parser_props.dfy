/** Properties of the parsing rules of backend/parser/parser.go: what an expression, a
    command and a script parse into, stated for every token source, and the round trips
    through the lexer for the literal kinds. */
module ParserProperties {
  import opened Wrappers
  import opened Text
  import opened Tokens
  import opened Lexer
  import opened Ast
  import opened Parser

  /** An expression with no `OptionExpression` anywhere inside it. */
  predicate NoOptions(e: Expr)
  {
    match e
    case OptionExpression(_, _) => false
    case RangeExpression(s, t) => NoOptions(s) && NoOptions(t)
    case _ => true
  }

  /** An expression is built exactly when no error is recorded while parsing it, and the
      parser never builds an `OptionExpression`. */
  lemma {:induction false} ExprFacts(src: Source, n: nat, q: nat)
    requires Scanner(src, n)
    decreases Rem(n, q), 2
    ensures var r := ParseExpr(src, n, q);
      && (r.value.Some? <==> r.errors == [])
      && (r.value.Some? ==> NoOptions(r.value.value))
  {
    if Cur(src, q).kind == BracketL {
      RangeFacts(src, n, q);
    }
  }

  /** The same for a range: it is built exactly when both bounds are and both separators
      are where they belong, and every failure leaves an error. */
  lemma {:induction false} RangeFacts(src: Source, n: nat, q: nat)
    requires Scanner(src, n) && Cur(src, q).kind == BracketL
    decreases Rem(n, q), 1
    ensures var r := ParseRange(src, n, q);
      && (r.value.Some? <==> r.errors == [])
      && (r.value.Some? ==> NoOptions(r.value.value))
  {
    var s := ParseExpr(src, n, Step(src, q));
    ExprFacts(src, n, Step(src, q));
    if s.value.Some? && Peek(src, s.last).kind == Comma {
      ExprFacts(src, n, Step(src, Step(src, s.last)));
    }
  }

  /** How many arguments the argument loop tries to parse from `q` on. */
  function Attempts(src: Source, n: nat, q: nat): nat
    requires Scanner(src, n)
    decreases Rem(n, q)
  {
    var t := Peek(src, q);
    if t.kind == Eof || t.kind == Newline then 0
    else 1 + Attempts(src, n, ParseExpr(src, n, Step(src, q)).last)
  }

  /** An argument that fails to parse is dropped, so the argument list is shorter than the
      number of arguments tried exactly when errors were recorded. */
  lemma {:induction false} ArgsCount(src: Source, n: nat, q: nat)
    requires Scanner(src, n)
    decreases Rem(n, q)
    ensures var r := ArgsFrom(src, n, q);
      && |r.value.value| <= Attempts(src, n, q)
      && (|r.value.value| == Attempts(src, n, q) <==> r.errors == [])
  {
    var t := Peek(src, q);
    if t.kind != Eof && t.kind != Newline {
      var e := ParseExpr(src, n, Step(src, q));
      ExprFacts(src, n, Step(src, q));
      ArgsCount(src, n, e.last);
      ArgsStep(src, n, q);
    }
  }

  /** No argument is an `OptionExpression`. */
  lemma {:induction false} ArgsNoOptions(src: Source, n: nat, q: nat)
    requires Scanner(src, n)
    decreases Rem(n, q)
    ensures var args := ArgsFrom(src, n, q).value.value;
      forall i :: 0 <= i < |args| ==> NoOptions(args[i])
  {
    var t := Peek(src, q);
    if t.kind != Eof && t.kind != Newline {
      var e := ParseExpr(src, n, Step(src, q));
      ExprFacts(src, n, Step(src, q));
      ArgsNoOptions(src, n, e.last);
      ArgsStep(src, n, q);
      var rest := ArgsFrom(src, n, e.last).value.value;
      var args := ArgsFrom(src, n, q).value.value;
      forall i | 0 <= i < |args| ensures NoOptions(args[i]) {
        if i >= |Built(e.value)| {
          assert args[i] == rest[i - |Built(e.value)|];
        }
      }
    }
  }

  /** A command is built exactly when the current token is an identifier, and it is named
      by that identifier's literal.  Otherwise a single error, at the current token, names
      the kind that was found instead, and the parser does not move. */
  lemma CommandFacts(src: Source, n: nat, q: nat)
    requires Scanner(src, n)
    ensures var r := ParseCommandAt(src, n, q); var t := Cur(src, q);
      && (r.value.Some? <==> t.kind == Ident)
      && (r.value.None? ==> r.last == q && r.errors == [ErrorAt(src, q, ExpectedCommandIdentifier(t.kind))])
      && (r.value.Some? ==>
            && r.value.value.command == t.literal
            && (|r.value.value.arguments| == Attempts(src, n, q) <==> r.errors == [])
            && forall i :: 0 <= i < |r.value.value.arguments| ==> NoOptions(r.value.value.arguments[i]))
  {
    ArgsCount(src, n, q);
    ArgsNoOptions(src, n, q);
  }

  /** Blank lines before a statement change nothing about it. */
  lemma StatementSkipsBlankLines(src: Source, n: nat, q: nat)
    requires Scanner(src, n) && Cur(src, q).kind == Newline
    ensures ParseStatementAt(src, n, q) == ParseStatementAt(src, n, Step(src, q))
  {
  }

  /** No command of a parsed script has an `OptionExpression` argument, and every command
      parsed is named by an identifier token. */
  lemma {:induction false} ProgramFacts(src: Source, n: nat, q: nat)
    requires Scanner(src, n)
    decreases Rem(n, q)
    ensures var p := ProgramFrom(src, n, q).value.value;
      forall c, i :: c in p && 0 <= i < |c.arguments| ==> NoOptions(c.arguments[i])
  {
    if Cur(src, q).kind != Eof {
      var s := SkipNewlines(src, n, q);
      if Cur(src, s).kind != Eof {
        CommandFacts(src, n, s);
      }
      var st := ParseStatementAt(src, n, q);
      ProgramFacts(src, n, Step(src, st.last));
    }
  }

  // ---------------------------------------------------------------------------------------
  // Through the lexer

  /** The lexer stands at the end of `input` and produces EOF. */
  lemma EndIsEof(input: seq<Byte>)
    ensures Lex(input, |input|).tok.kind == Eof
  {
    assert WhitespaceEnd(input, |input|) == |input|;
    NulIsEof(input, |input|);
  }

  /** Empty input: no command, one error at line 1, column 1 about the EOF token, and an
      empty script without errors. */
  lemma EmptyInput()
    ensures ParseCommandAt(LexSource([]), 0, 0)
      == Parsed(None, 0, [ParseError(1, 1, ExpectedCommandIdentifier(Eof))])
    ensures ProgramFrom(LexSource([]), 0, 0) == Parsed(Some([]), 0, [])
  {
    EndIsEof([]);
    assert Lex([], 0) == Scan(Token(Eof, "", 0, 1, 1), 1);
  }

  /** A command cannot start with a number: `123` is reported at line 1, column 1 as an
      unexpected INT token and nothing is built. */
  lemma NumberIsNotACommand(input: seq<Byte>)
    requires input == "123"
    ensures ParseCommandAt(LexSource(input), 3, 0)
      == Parsed(None, 0, [ParseError(1, 1, ExpectedCommandIdentifier(IntLit))])
  {
    NumberScan(input, 0);
    var r := Lex(input, 0);
    assert r.next == 3;
    FirstLineColumn(input, 3);
  }

  /** Any token source that produces the words SET, key and value and then EOF parses into
      the command SET with two identifier arguments, and a script of just that command. */
  lemma ParseSetKeyValue(src: Source, n: nat)
    requires Scanner(src, n)
    requires src(0) == Scan(Token(Ident, "SET", 0, 1, 1), 3)
    requires src(3) == Scan(Token(Ident, "key", 4, 1, 5), 7)
    requires src(7) == Scan(Token(Ident, "value", 8, 1, 9), 13)
    requires src(13).tok.kind == Eof
    ensures var cmd := RedisCommand("SET", [Identifier("key"), Identifier("value")]);
      && ParseCommandAt(src, n, 0) == Parsed(Some(cmd), 7, [])
      && ProgramFrom(src, n, 0) == Parsed(Some([cmd]), 13, [])
  {
    assert ArgsFrom(src, n, 7) == Parsed(Some([]), 7, []);
    assert ParseExpr(src, n, 7) == Parsed(Some(Identifier("value")), 7, []);
    ArgsStep(src, n, 3);
    assert Built(Some(Identifier("value"))) + [] == [Identifier("value")];
    var none: seq<ParseError> := [];
    assert none + none == none;
    assert ArgsFrom(src, n, 3) == Parsed(Some([Identifier("value")]), 7, []);
    assert ParseExpr(src, n, 3) == Parsed(Some(Identifier("key")), 3, []);
    ArgsStep(src, n, 0);
    assert ArgsFrom(src, n, 0) == Parsed(Some([Identifier("key")] + [Identifier("value")]), 7, []);
    assert ProgramFrom(src, n, 13) == Parsed(Some([]), 13, []);
    ProgramStep(src, n, 0);
    var cmd := RedisCommand("SET", [Identifier("key"), Identifier("value")]);
    assert [Identifier("key")] + [Identifier("value")] == cmd.arguments;
    assert ParseCommandAt(src, n, 0) == Parsed(Some(cmd), 7, []);
    assert SkipNewlines(src, n, 0) == 0;
    assert ParseStatementAt(src, n, 0) == Parsed(Some(cmd), 7, []);
    assert Built(Some(cmd)) + [] == [cmd];
  }

  /** `SET key value` parses into the command SET with two identifier arguments, and the
      script holds just that command. */
  lemma SetKeyValueCommand(input: seq<Byte>)
    requires input == "SET key value"
    ensures var cmd := RedisCommand("SET", [Identifier("key"), Identifier("value")]);
      && ParseCommandAt(LexSource(input), 13, 0) == Parsed(Some(cmd), 7, [])
      && ProgramFrom(LexSource(input), 13, 0) == Parsed(Some([cmd]), 13, [])
  {
    SetKeyValueWords(input);
    EndIsEof(input);
    ParseSetKeyValue(LexSource(input), 13);
  }

  /** The literal of an INT token that converts is built into an integer literal. */
  lemma IntegerToken(src: Source, n: nat, q: nat, v: int)
    requires Scanner(src, n) && Cur(src, q).kind == IntLit && ParseGoInt(Cur(src, q).literal) == Some(v)
    ensures ParseExpr(src, n, q) == Parsed(Some(IntegerLiteral(v)), q, [])
  {
  }

  /** The rendering of an integer is lexed as one INT token holding the whole text. */
  lemma IntegerScan(v: int, input: seq<Byte>)
    requires input == Render(IntegerLiteral(v))
    ensures Lex(input, 0).tok.kind == IntLit && Lex(input, 0).tok.literal == input
  {
    var d := if v < 0 then 1 else 0;
    var digits := NatToString(if v < 0 then -v else v);
    assert input == (if v < 0 then "-" else "") + digits;
    assert forall k :: d <= k < |input| ==> IsDigit(input[k]);
    assert input[d] == digits[0];
    NumeralLexes(input, d);
    assert input[0..|input|] == input;
    assert '.' !in input;
  }

  /** A numeral, an optional '-' followed by digits up to the end of the input, is scanned
      by the number branch and the scan stops at the end. */
  lemma NumeralLexes(input: seq<Byte>, d: nat)
    requires d <= 1 && d < |input| && (d == 1 ==> input[0] == '-')
    requires forall k :: d <= k < |input| ==> IsDigit(input[k])
    ensures Lex(input, 0) == LexNumber(input, 0) && NumberEnd(input, 0) == |input|
  {
    assert WhitespaceEnd(input, 0) == 0;
    LexAtNumber(input, 0);
    DigitsRunToEnd(input, d, DigitsEnd(input, d));
  }

  /** In input whose tail from `d` is all digits, the first non-digit from `d` on is the
      end. */
  lemma DigitsRunToEnd(input: seq<Byte>, d: nat, q: nat)
    requires forall k :: d <= k < |input| ==> IsDigit(input[k])
    requires d <= q <= |input| && !IsDigit(CharAt(input, q))
    ensures q == |input|
  {
  }

  /** The decimal rendering of a 64-bit integer lexes as one INT token and parses back into
      the same integer literal. */
  lemma IntegerRoundTrip(v: int)
    requires MinInt64 <= v <= MaxInt64
    ensures var input: seq<Byte> := Render(IntegerLiteral(v));
      ParseExpr(LexSource(input), |input|, 0) == Parsed(Some(IntegerLiteral(v)), 0, [])
  {
    var input: seq<Byte> := Render(IntegerLiteral(v));
    IntegerScan(v, input);
    ParseGoIntRoundTrip(v);
    IntegerToken(LexSource(input), |input|, 0, v);
  }

  /** A quoted string whose body has no bare quote and no NUL lexes as one STRING token and
      parses back into the same string literal. */
  lemma StringRoundTrip(v: seq<Byte>)
    requires WellEscaped(v, '"')
    ensures var input: seq<Byte> := Render(StringLiteral(v));
      ParseExpr(LexSource(input), |input|, 0) == Parsed(Some(StringLiteral(v)), 0, [])
  {
    var input: seq<Byte> := Render(StringLiteral(v));
    assert input == "\"" + v + "\"";
    assert input[1..1 + |v|] == v;
    QuotedStringToken(input, 0, '"', v);
    assert Lex(input, 0) == LexAt(input, 0);
  }

  /** The node a word becomes: a keyword when its upper-case form is reserved, otherwise an
      identifier; either way the word is kept as written. */
  function WordExpr(w: string): (e: Expr)
    ensures e.Identifier? || e.KeywordExpression?
    ensures Render(e) == w
  {
    if Upper(w) in Keywords then KeywordExpression(w) else Identifier(w)
  }

  /** A word token not followed by `:` is built into an identifier or a keyword node that
      keeps the word as written. */
  lemma WordToken(src: Source, n: nat, q: nat, w: string)
    requires Scanner(src, n) && Peek(src, q).kind != Colon
    requires Cur(src, q).literal == w && Cur(src, q).kind == LookupIdent(Upper(w))
    ensures ParseExpr(src, n, q) == Parsed(Some(WordExpr(w)), q, [])
  {
  }

  /** In a word made only of identifier characters, the first position holding something
      else is the end. */
  lemma WordRunsToEnd(v: seq<Byte>, q: nat)
    requires forall k :: 0 <= k < |v| ==> IsIdentChar(v[k])
    requires q <= |v| && !IsIdentChar(CharAt(v, q))
    ensures q == |v|
  {
  }

  /** A word is lexed as one token holding the whole word, and EOF follows it. */
  lemma WordScan(v: seq<Byte>)
    requires |v| > 0 && IsLetter(v[0])
    requires forall k :: 0 <= k < |v| ==> IsIdentChar(v[k])
    ensures var r := Lex(v, 0);
      && r.tok.literal == v && r.tok.kind == LookupIdent(Upper(v)) && r.next == |v|
      && Lex(v, |v|).tok.kind == Eof
  {
    WordLexes(v);
    assert v[0..|v|] == v;
    EndIsEof(v);
  }

  /** The scan of a word takes the identifier branch and stops at the end of the input. */
  lemma WordLexes(v: seq<Byte>)
    requires |v| > 0 && IsLetter(v[0])
    requires forall k :: 0 <= k < |v| ==> IsIdentChar(v[k])
    ensures Lex(v, 0) == LexIdentifier(v, 0) && IdentEnd(v, 0) == |v|
  {
    assert WhitespaceEnd(v, 0) == 0;
    LexAtIdentifier(v, 0);
    WordRunsToEnd(v, IdentEnd(v, 0));
  }

  /** A word lexes as one token and parses into an identifier, or into a keyword when its
      upper-case form is reserved; either way the node keeps the word as written, so
      rendering it gives the word back. */
  lemma WordRoundTrip(v: seq<Byte>)
    requires |v| > 0 && IsLetter(v[0])
    requires forall k :: 0 <= k < |v| ==> IsIdentChar(v[k])
    ensures ParseExpr(LexSource(v), |v|, 0) == Parsed(Some(WordExpr(v)), 0, [])
    ensures Render(WordExpr(v)) == v
  {
    WordSource(v);
    WordToken(LexSource(v), |v|, 0, v);
  }

  /** `WordScan` seen through the token source: the current token is the word, the next
      one is EOF. */
  lemma WordSource(v: seq<Byte>)
    requires |v| > 0 && IsLetter(v[0])
    requires forall k :: 0 <= k < |v| ==> IsIdentChar(v[k])
    ensures var src := LexSource(v);
      && Cur(src, 0).literal == v && Cur(src, 0).kind == LookupIdent(Upper(v))
      && Peek(src, 0).kind == Eof
  {
    WordScan(v);
  }

  /** `GetCommandInfo` on `SET mykey "value" EX 60`: four arguments, a key, a value and the
      option EX. */
  lemma SetWithExpiryInfo()
    ensures var cmd := RedisCommand("SET",
        [Identifier("mykey"), StringLiteral("value"), KeywordExpression("EX"), IntegerLiteral(60)]);
      InfoUpTo(cmd, 4) == CommandInfo("SET", 4,
        ["Identifier", "StringLiteral", "KeywordExpression", "IntegerLiteral"], ["EX"], true, true)
  {
  }
}
