/** The recursive-descent parser: backend/parser/parser.go.

    The parser reads tokens from a token source and keeps two of them: the current token and
    the lookahead.  A token source is described here by the function `Source` from the
    position a token is scanned from to the token and the position after it; the lexer is
    one (`LexSource`).  The parser's whole state is then the position `q` from which the
    current token was scanned: the current token is `Cur(src, q)` and the lookahead is
    `Peek(src, q)`.  The parsing rules are first written as functions of that position (each
    returns what was built, the position of the token the parser stands on afterwards, and
    the errors recorded), and the `Parser` class below is proved to follow them. */
module Parser {
  import opened Wrappers
  import opened Text
  import opened Tokens
  import opened Lexer
  import opened Ast

  // ---------------------------------------------------------------------------------------
  // Integer conversion

  const MinInt64: int := -0x8000_0000_0000_0000
  const MaxInt64: int := 0x7FFF_FFFF_FFFF_FFFF

  predicate IsOctalDigit(c: char) { '0' <= c <= '7' }

  predicate AllOctal(t: string)
  {
    forall i :: 0 <= i < |t| ==> IsOctalDigit(t[i])
  }

  /** `strconv.ParseInt(lit, 0, 64)` on the texts an INT token can hold: an optional sign,
      then digits; a leading `0` followed by more digits selects base 8 (so a digit 8 or 9
      is then a syntax error), and a value outside the 64-bit range is a range error. */
  function ParseGoInt(lit: string): (r: Option<int>)
    ensures r.Some? ==> MinInt64 <= r.value <= MaxInt64
    ensures r.Some? ==> |lit| > 0 && IsDigit(lit[|lit| - 1])
  {
    var signed := |lit| > 0 && (lit[0] == '-' || lit[0] == '+');
    var body := if signed then lit[1..] else lit;
    if |body| == 0 || !AllDigits(body) then None
    else
      var octal := |body| > 1 && body[0] == '0';
      if octal && !AllOctal(body) then None
      else
        var m: int := DigitsValue(body, if octal then 8 else 10);
        var v: int := if lit[0] == '-' then -m else m;
        if MinInt64 <= v <= MaxInt64 then Some(v) else None
  }

  /** The decimal rendering of an integer converts back to that integer exactly when the
      integer fits in 64 bits. */
  lemma ParseGoIntRoundTrip(n: int)
    ensures ParseGoInt(IntToString(n)) == if MinInt64 <= n <= MaxInt64 then Some(n) else None
  {
    var m: nat := if n < 0 then -n else n;
    NatToStringRoundTrip(m);
    var t := NatToString(m);
    if n < 0 {
      assert IntToString(n) == "-" + t && ("-" + t)[1..] == t;
    }
  }

  /** A leading zero selects base 8. */
  lemma ParseGoIntOctal()
    ensures ParseGoInt("010") == Some(8) && ParseGoInt("-010") == Some(-8)
    ensures ParseGoInt("08") == None
  {
    assert AllDigits("08") && !IsOctalDigit("08"[1]);
    assert AllDigits("010");
    assert DigitsValue("010", 8) == 8 by {
      assert "010"[..2] == "01" && "01"[..1] == "0" && "0"[..0] == "";
    }
    assert "-010"[1..] == "010";
  }

  /** A lone zero is decimal zero, with or without a sign. */
  lemma ParseGoIntZero()
    ensures ParseGoInt("0") == Some(0) && ParseGoInt("-0") == Some(0) && ParseGoInt("+0") == Some(0)
  {
    assert AllDigits("0");
    assert "-0"[1..] == "0" && "+0"[1..] == "0";
    assert DigitsValue("0", 10) == 0 by {
      assert "0"[..0] == "";
    }
  }

  // ---------------------------------------------------------------------------------------
  // Errors

  /** Why the parser recorded an error. */
  datatype ErrorReason =
    | ExpectedCommandIdentifier(got: TokenKind)
    | UnexpectedToken(got: TokenKind)
    | IntegerSyntax(literal: string)
    | ExpectedComma
    | ExpectedBracketR

  /** An error, at the line and column of the token the parser stood on. */
  datatype ParseError = ParseError(line: int, column: int, reason: ErrorReason)

  // ---------------------------------------------------------------------------------------
  // Token sources

  /** A token source: the token scanned from a position, and the position after it. */
  type Source = nat -> Scan

  /** What the parser relies on in its token source: every scan moves forward, and a token
      other than EOF is scanned from a position before `n` and ends at or before `n`. */
  ghost predicate Scanner(src: Source, n: nat)
  {
    forall q: nat :: q < src(q).next && (src(q).tok.kind != Eof ==> q < n && src(q).next <= n)
  }

  /** The lexer over `input`, as a token source. */
  function LexSource(input: seq<Byte>): (src: Source)
    ensures Scanner(src, |input|)
  {
    (q: nat) => Lex(input, q)
  }

  // ---------------------------------------------------------------------------------------
  // The parsing rules as functions of the position of the current token

  /** The current token when it was scanned from `q`. */
  function Cur(src: Source, q: nat): Token
  {
    src(q).tok
  }

  /** The position the token source stands on once it has produced the token scanned from
      `q`. */
  function Step(src: Source, q: nat): nat
  {
    src(q).next
  }

  /** The lookahead token when the current one was scanned from `q`. */
  function Peek(src: Source, q: nat): Token
  {
    src(src(q).next).tok
  }

  /** The input still ahead of `q`: the measure every parsing loop decreases. */
  function Rem(n: nat, q: nat): nat
  {
    if q < n then n - q else 0
  }

  /** `addError`: an error located at the current token. */
  function ErrorAt(src: Source, q: nat, reason: ErrorReason): ParseError
  {
    ParseError(Cur(src, q).line, Cur(src, q).column, reason)
  }

  /** The result of a parsing rule: what was built (if anything), the position of the
      current token afterwards, and the errors recorded on the way. */
  datatype Parsed<T> = Parsed(value: Option<T>, last: nat, errors: seq<ParseError>)

  predicate IsPatternPart(k: TokenKind)
  {
    k == Asterisk || k == Question || k == Ident || k == Colon
  }

  /** `parseExpression`: dispatch on the kind of the current token. */
  function ParseExpr(src: Source, n: nat, q: nat): (r: Parsed<Expr>)
    requires Scanner(src, n)
    decreases Rem(n, q), 2
    ensures q <= r.last
  {
    var t := Cur(src, q);
    if t.kind == Ident then
      if Peek(src, q).kind == Colon then ParsePattern(src, n, q)
      else Parsed(Some(Identifier(t.literal)), q, [])
    else if t.kind == StringLit then Parsed(Some(StringLiteral(t.literal)), q, [])
    else if t.kind == IntLit then
      var v := ParseGoInt(t.literal);
      if v.Some? then Parsed(Some(IntegerLiteral(v.value)), q, [])
      else Parsed(None, q, [ErrorAt(src, q, IntegerSyntax(t.literal))])
    else if t.kind == FloatLit then Parsed(Some(FloatLiteral(t.literal)), q, [])
    else if IsKeyword(t.kind) then Parsed(Some(KeywordExpression(t.literal)), q, [])
    else if t.kind == Asterisk || t.kind == Question then ParsePattern(src, n, q)
    else if t.kind == BracketL then ParseRange(src, n, q)
    else Parsed(None, q, [ErrorAt(src, q, UnexpectedToken(t.kind))])
  }

  /** The literals of the pattern tokens that follow the current one, and the position of
      the last of them. */
  function PatternRun(src: Source, n: nat, q: nat): (r: (string, nat))
    requires Scanner(src, n)
    decreases Rem(n, q)
    ensures q <= r.1 && !IsPatternPart(Peek(src, r.1).kind)
  {
    var t := Peek(src, q);
    if IsPatternPart(t.kind) then
      var rest := PatternRun(src, n, Step(src, q));
      (t.literal + rest.0, rest.1)
    else ("", q)
  }

  /** One step of a pattern run: a pattern token ahead contributes its literal, and the run
      goes on from it. */
  lemma PatternRunStep(src: Source, n: nat, q: nat)
    requires Scanner(src, n) && IsPatternPart(Peek(src, q).kind)
    ensures var rest := PatternRun(src, n, Step(src, q));
      PatternRun(src, n, q) == (Peek(src, q).literal + rest.0, rest.1)
  {
  }

  /** `parsePatternExpression`: the current token's literal followed by every pattern token
      after it, concatenated without spaces. */
  function ParsePattern(src: Source, n: nat, q: nat): (r: Parsed<Expr>)
    requires Scanner(src, n)
    decreases Rem(n, q), 0
    ensures q <= r.last
  {
    var run := PatternRun(src, n, q);
    Parsed(Some(PatternExpression(Cur(src, q).literal + run.0)), run.1, [])
  }

  /** `parseRangeExpression`: `[` expression `,` expression `]`. */
  function ParseRange(src: Source, n: nat, q: nat): (r: Parsed<Expr>)
    requires Scanner(src, n) && Cur(src, q).kind == BracketL
    decreases Rem(n, q), 1
    ensures q <= r.last
  {
    var s := ParseExpr(src, n, Step(src, q));
    if s.value.None? then Parsed(None, s.last, s.errors)
    else if Peek(src, s.last).kind != Comma then
      Parsed(None, s.last, s.errors + [ErrorAt(src, s.last, ExpectedComma)])
    else
      var t := ParseExpr(src, n, Step(src, Step(src, s.last)));
      if t.value.None? then Parsed(None, t.last, s.errors + t.errors)
      else if Peek(src, t.last).kind != BracketR then
        Parsed(None, t.last, s.errors + t.errors + [ErrorAt(src, t.last, ExpectedBracketR)])
      else
        Parsed(Some(RangeExpression(s.value.value, t.value.value)), Step(src, t.last), s.errors + t.errors)
  }

  /** The node a parsing rule built, as a list of zero or one elements. */
  function Built<T>(v: Option<T>): seq<T>
  {
    if v.Some? then [v.value] else []
  }

  /** The argument loop of `parseRedisCommand`: parse one argument while the lookahead is
      neither NEWLINE nor EOF, keeping the ones that were built. */
  function ArgsFrom(src: Source, n: nat, q: nat): (r: Parsed<seq<Expr>>)
    requires Scanner(src, n)
    decreases Rem(n, q)
    ensures r.value.Some? && q <= r.last
    ensures Peek(src, r.last).kind == Eof || Peek(src, r.last).kind == Newline
  {
    var t := Peek(src, q);
    if t.kind == Eof || t.kind == Newline then Parsed(Some([]), q, [])
    else
      var e := ParseExpr(src, n, Step(src, q));
      var rest := ArgsFrom(src, n, e.last);
      Parsed(Some(Built(e.value) + rest.value.value), rest.last, e.errors + rest.errors)
  }

  /** `parseRedisCommand`: an identifier, then the arguments up to the end of the line. */
  function ParseCommandAt(src: Source, n: nat, q: nat): (r: Parsed<RedisCommand>)
    requires Scanner(src, n)
    ensures q <= r.last
  {
    var t := Cur(src, q);
    if t.kind != Ident then Parsed(None, q, [ErrorAt(src, q, ExpectedCommandIdentifier(t.kind))])
    else
      var a := ArgsFrom(src, n, q);
      Parsed(Some(RedisCommand(t.literal, a.value.value)), a.last, a.errors)
  }

  /** The position of the first token from `q` on that is not a NEWLINE. */
  function SkipNewlines(src: Source, n: nat, q: nat): (s: nat)
    requires Scanner(src, n)
    decreases Rem(n, q)
    ensures q <= s && Cur(src, s).kind != Newline
  {
    if Cur(src, q).kind == Newline then SkipNewlines(src, n, Step(src, q)) else q
  }

  /** `parseStatement`: blank lines are skipped; at EOF there is no statement. */
  function ParseStatementAt(src: Source, n: nat, q: nat): (r: Parsed<RedisCommand>)
    requires Scanner(src, n)
    ensures q <= r.last
  {
    var s := SkipNewlines(src, n, q);
    if Cur(src, s).kind == Eof then Parsed(None, s, []) else ParseCommandAt(src, n, s)
  }

  /** `ParseProgram`'s loop: a statement, then one more token, until the current token is
      EOF. */
  function ProgramFrom(src: Source, n: nat, q: nat): (r: Parsed<Program>)
    requires Scanner(src, n)
    decreases Rem(n, q)
    ensures r.value.Some? && q <= r.last && Cur(src, r.last).kind == Eof
  {
    if Cur(src, q).kind == Eof then Parsed(Some([]), q, [])
    else
      var st := ParseStatementAt(src, n, q);
      var rest := ProgramFrom(src, n, Step(src, st.last));
      Parsed(Some(Built(st.value) + rest.value.value), rest.last, st.errors + rest.errors)
  }

  lemma Associative<T>(a: seq<T>, b: seq<T>, c: seq<T>)
    ensures (a + b) + c == a + (b + c)
  {
  }

  /** One turn of the argument loop. */
  lemma ArgsStep(src: Source, n: nat, q: nat)
    requires Scanner(src, n) && Peek(src, q).kind != Eof && Peek(src, q).kind != Newline
    ensures var e := ParseExpr(src, n, Step(src, q));
      var rest := ArgsFrom(src, n, e.last);
      ArgsFrom(src, n, q) == Parsed(Some(Built(e.value) + rest.value.value), rest.last, e.errors + rest.errors)
  {
  }

  /** One turn of the statement loop. */
  lemma ProgramStep(src: Source, n: nat, q: nat)
    requires Scanner(src, n) && Cur(src, q).kind != Eof
    ensures var st := ParseStatementAt(src, n, q);
      var rest := ProgramFrom(src, n, Step(src, st.last));
      ProgramFrom(src, n, q) == Parsed(Some(Built(st.value) + rest.value.value), rest.last, st.errors + rest.errors)
  {
  }

  // ---------------------------------------------------------------------------------------
  // The parser object

  /** The parser: a lexer and two tokens of lookahead, plus the errors recorded so far. */
  class Parser {
    const lexer: Lexer
    var curToken: Token
    var peekToken: Token
    var errors: seq<ParseError>
    /** The lexer seen as a token source, and the length of its input. */
    ghost const src: Source
    ghost const n: nat
    /** The position from which `curToken` was scanned. */
    ghost var cur: nat

    ghost predicate Valid()
      reads this, lexer
    {
      && lexer.Valid()
      && n == |lexer.input|
      && Scanner(src, n)
      && (forall q: nat {:trigger Lex(lexer.input, q)} :: src(q) == Lex(lexer.input, q))
      && curToken == Cur(src, cur)
      && peekToken == Peek(src, cur)
      && lexer.position == Step(src, Step(src, cur))
    }

    /** `New`: two calls of `nextToken` fill the current and the lookahead token. */
    constructor (l: Lexer)
      requires l.Valid()
      modifies l
      ensures Valid() && lexer == l && src == LexSource(l.input) && n == |l.input|
      ensures cur == old(l.position) && errors == []
    {
      lexer := l;
      src := LexSource(l.input);
      n := |l.input|;
      curToken, peekToken := Token(Illegal, "", 0, 0, 0), Token(Illegal, "", 0, 0, 0);
      errors := [];
      cur := l.position;
      new;
      curToken := peekToken;
      peekToken := lexer.NextToken();
      curToken := peekToken;
      peekToken := lexer.NextToken();
    }

    /** `nextToken`: the lookahead becomes current and the lexer supplies a new lookahead. */
    method NextToken()
      requires Valid()
      modifies this, lexer
      ensures Valid() && cur == Step(src, old(cur)) && errors == old(errors)
    {
      curToken := peekToken;
      peekToken := lexer.NextToken();
      cur := Step(src, cur);
    }

    /** `addError`: record an error at the current token's line and column. */
    method AddError(reason: ErrorReason)
      requires Valid()
      modifies this
      ensures Valid() && cur == old(cur)
      ensures errors == old(errors) + [ErrorAt(src, cur, reason)]
    {
      errors := errors + [ParseError(curToken.line, curToken.column, reason)];
    }

    /** `parseExpression`, with `parseIdentifier`, `parseStringLiteral`,
        `parseFloatLiteral` and `parseKeywordExpression` as its one-line branches. */
    method ParseExpression() returns (e: Option<Expr>)
      requires Valid()
      modifies this, lexer
      decreases Rem(n, cur), 2
      ensures Valid()
      ensures var r := ParseExpr(src, n, old(cur));
        e == r.value && cur == r.last && errors == old(errors) + r.errors
    {
      var t := curToken;
      if t.kind == Ident {
        if peekToken.kind == Colon {
          var p := ParsePatternExpression();
          e := Some(p);
        } else {
          e := Some(Identifier(t.literal));
        }
      } else if t.kind == StringLit {
        e := Some(StringLiteral(t.literal));
      } else if t.kind == IntLit {
        e := ParseIntegerLiteral();
      } else if t.kind == FloatLit {
        e := Some(FloatLiteral(t.literal));
      } else if IsKeyword(t.kind) {
        e := Some(KeywordExpression(t.literal));
      } else if t.kind == Asterisk || t.kind == Question {
        var p := ParsePatternExpression();
        e := Some(p);
      } else if t.kind == BracketL {
        e := ParseRangeExpression();
      } else {
        AddError(UnexpectedToken(t.kind));
        e := None;
      }
    }

    /** `parseIntegerLiteral`: convert the literal, or record why it cannot be. */
    method ParseIntegerLiteral() returns (e: Option<Expr>)
      requires Valid() && curToken.kind == IntLit
      modifies this
      ensures Valid() && cur == old(cur)
      ensures var r := ParseExpr(src, n, old(cur));
        e == r.value && errors == old(errors) + r.errors
    {
      var v := ParseGoInt(curToken.literal);
      if v.Some? {
        e := Some(IntegerLiteral(v.value));
      } else {
        AddError(IntegerSyntax(curToken.literal));
        e := None;
      }
    }

    /** `parsePatternExpression`: absorb the following `*`, `?`, identifier and `:` tokens. */
    method ParsePatternExpression() returns (e: Expr)
      requires Valid()
      modifies this, lexer
      ensures Valid()
      ensures var r := ParsePattern(src, n, old(cur));
        Some(e) == r.value && cur == r.last && errors == old(errors)
    {
      ghost var q0 := cur;
      var pattern := curToken.literal;
      while IsPatternPart(peekToken.kind)
        invariant Valid() && errors == old(errors)
        invariant pattern + PatternRun(src, n, cur).0 == Cur(src, q0).literal + PatternRun(src, n, q0).0
        invariant PatternRun(src, n, cur).1 == PatternRun(src, n, q0).1
        decreases Rem(n, cur)
      {
        PatternRunStep(src, n, cur);
        ghost var before := pattern;
        NextToken();
        pattern := pattern + curToken.literal;
        assert pattern + PatternRun(src, n, cur).0 == before + (curToken.literal + PatternRun(src, n, cur).0);
      }
      assert PatternRun(src, n, cur) == ("", cur);
      assert pattern + "" == pattern;
      e := PatternExpression(pattern);
    }

    /** `parseRangeExpression`: `[`, an expression, `,`, an expression, `]`. */
    method ParseRangeExpression() returns (e: Option<Expr>)
      requires Valid() && curToken.kind == BracketL
      modifies this, lexer
      decreases Rem(n, cur), 1
      ensures Valid()
      ensures var r := ParseRange(src, n, old(cur));
        e == r.value && cur == r.last && errors == old(errors) + r.errors
    {
      ghost var errors0 := errors;
      NextToken();
      ghost var s := ParseExpr(src, n, cur);
      var start := ParseExpression();
      if start.None? {
        return None;
      }
      if peekToken.kind != Comma {
        AddError(ExpectedComma);
        Associative(errors0, s.errors, [ErrorAt(src, s.last, ExpectedComma)]);
        return None;
      }
      NextToken();
      NextToken();
      ghost var t := ParseExpr(src, n, cur);
      var end := ParseExpression();
      Associative(errors0, s.errors, t.errors);
      if end.None? {
        return None;
      }
      if peekToken.kind != BracketR {
        AddError(ExpectedBracketR);
        Associative(errors0, s.errors + t.errors, [ErrorAt(src, t.last, ExpectedBracketR)]);
        return None;
      }
      NextToken();
      e := Some(RangeExpression(start.value, end.value));
    }

    /** `parseRedisCommand`: the command name, then arguments until NEWLINE or EOF is next. */
    method ParseRedisCommand() returns (cmd: Option<RedisCommand>)
      requires Valid()
      modifies this, lexer
      ensures Valid()
      ensures var r := ParseCommandAt(src, n, old(cur));
        cmd == r.value && cur == r.last && errors == old(errors) + r.errors
    {
      if curToken.kind != Ident {
        AddError(ExpectedCommandIdentifier(curToken.kind));
        return None;
      }
      var name := curToken.literal;
      ghost var q0 := cur;
      var args: seq<Expr> := [];
      while peekToken.kind != Eof && peekToken.kind != Newline
        invariant Valid()
        invariant args + ArgsFrom(src, n, cur).value.value == ArgsFrom(src, n, q0).value.value
        invariant ArgsFrom(src, n, cur).last == ArgsFrom(src, n, q0).last
        invariant errors + ArgsFrom(src, n, cur).errors == old(errors) + ArgsFrom(src, n, q0).errors
        decreases Rem(n, cur)
      {
        ghost var q, args0, errors0 := cur, args, errors;
        NextToken();
        var arg := ParseExpression();
        if arg.Some? {
          args := args + [arg.value];
        }
        ghost var e := ParseExpr(src, n, Step(src, q));
        assert args == args0 + Built(e.value) && errors == errors0 + e.errors;
        ArgsStep(src, n, q);
        Associative(args0, Built(e.value), ArgsFrom(src, n, cur).value.value);
        Associative(errors0, e.errors, ArgsFrom(src, n, cur).errors);
      }
      assert ArgsFrom(src, n, cur) == Parsed(Some([]), cur, []);
      assert args + [] == args && errors + [] == errors;
      cmd := Some(RedisCommand(name, args));
    }

    /** `parseStatement`: skip blank lines, then parse a command unless EOF was reached. */
    method ParseStatement() returns (stmt: Option<RedisCommand>)
      requires Valid()
      modifies this, lexer
      ensures Valid()
      ensures var r := ParseStatementAt(src, n, old(cur));
        stmt == r.value && cur == r.last && errors == old(errors) + r.errors
    {
      while curToken.kind == Newline
        invariant Valid() && errors == old(errors)
        invariant SkipNewlines(src, n, cur) == SkipNewlines(src, n, old(cur))
        decreases Rem(n, cur)
      {
        NextToken();
      }
      if curToken.kind == Eof {
        return None;
      }
      stmt := ParseRedisCommand();
    }

    /** `ParseProgram`: statements until the current token is EOF, one token skipped after
        each. */
    method ParseProgram() returns (program: Program)
      requires Valid()
      modifies this, lexer
      ensures Valid()
      ensures var r := ProgramFrom(src, n, old(cur));
        program == r.value.value && cur == r.last && errors == old(errors) + r.errors
    {
      ghost var q0 := cur;
      program := [];
      while curToken.kind != Eof
        invariant Valid()
        invariant program + ProgramFrom(src, n, cur).value.value == ProgramFrom(src, n, q0).value.value
        invariant ProgramFrom(src, n, cur).last == ProgramFrom(src, n, q0).last
        invariant errors + ProgramFrom(src, n, cur).errors == old(errors) + ProgramFrom(src, n, q0).errors
        decreases Rem(n, cur)
      {
        ghost var q, program0, errors0 := cur, program, errors;
        var stmt := ParseStatement();
        if stmt.Some? {
          program := program + [stmt.value];
        }
        ghost var st := ParseStatementAt(src, n, q);
        assert program == program0 + Built(st.value) && errors == errors0 + st.errors;
        NextToken();
        ProgramStep(src, n, q);
        Associative(program0, Built(st.value), ProgramFrom(src, n, cur).value.value);
        Associative(errors0, st.errors, ProgramFrom(src, n, cur).errors);
      }
    }
  }

  /** `ParseCommand`: parse the first command of `input`. */
  method ParseCommand(input: seq<Byte>) returns (cmd: Option<RedisCommand>, errors: seq<ParseError>)
    ensures var r := ParseCommandAt(LexSource(input), |input|, 0); cmd == r.value && errors == r.errors
  {
    var l := new Lexer(input);
    var p := new Parser(l);
    cmd := p.ParseRedisCommand();
    errors := p.errors;
  }

  /** `ParseCommands`: parse every command of `input`. */
  method ParseCommands(input: seq<Byte>) returns (program: Program, errors: seq<ParseError>)
    ensures var r := ProgramFrom(LexSource(input), |input|, 0); program == r.value.value && errors == r.errors
  {
    var l := new Lexer(input);
    var p := new Parser(l);
    program := p.ParseProgram();
    errors := p.errors;
  }
  // ---------------------------------------------------------------------------------------
  // Command summary

  /** What `GetCommandInfo` reports about a command. */
  datatype CommandInfo = CommandInfo(
    command: string,
    arguments: nat,
    argTypes: seq<string>,
    options: seq<string>,
    hasKey: bool,
    hasValue: bool)

  /** An argument that can name the key: an identifier or a string literal. */
  predicate IsKeyArgument(e: Expr)
  {
    e.Identifier? || e.StringLiteral?
  }

  /** An argument that carries a value: a string, integer or float literal. */
  predicate IsValueArgument(e: Expr)
  {
    e.StringLiteral? || e.IntegerLiteral? || e.FloatLiteral?
  }

  /** The renderings of the keyword arguments among the first `i`, in order. */
  function KeywordOptions(args: seq<Expr>, i: nat): (opts: seq<string>)
    requires i <= |args|
    ensures |opts| <= i
  {
    if i == 0 then []
    else KeywordOptions(args, i - 1) + (if args[i - 1].KeywordExpression? then [Render(args[i - 1])] else [])
  }

  /** The report `GetCommandInfo` has built once it has looked at the first `i` arguments:
      each argument's kind name is appended, the first one may mark the key, a literal marks
      a value, and a keyword is added to the options.  The source tests the kind names; the
      tests here are on the node kinds, which `Ast.NodeTypeNames` shows to be the same. */
  function InfoUpTo(cmd: RedisCommand, i: nat): CommandInfo
    requires i <= |cmd.arguments|
  {
    if i == 0 then CommandInfo(cmd.command, |cmd.arguments|, [], [], false, false)
    else
      var s := InfoUpTo(cmd, i - 1);
      var arg := cmd.arguments[i - 1];
      CommandInfo(
        s.command, s.arguments,
        s.argTypes + [NodeType(arg)],
        if arg.KeywordExpression? then s.options + [Render(arg)] else s.options,
        s.hasKey || (i - 1 == 0 && IsKeyArgument(arg)),
        s.hasValue || IsValueArgument(arg))
  }

  /** The report lists the kind name of each of the first `i` arguments, in order. */
  lemma {:induction false} InfoUpToTypes(cmd: RedisCommand, i: nat)
    requires i <= |cmd.arguments|
    ensures var info := InfoUpTo(cmd, i);
      && info.command == cmd.command && info.arguments == |cmd.arguments|
      && |info.argTypes| == i
      && forall k :: 0 <= k < i ==> info.argTypes[k] == NodeType(cmd.arguments[k])
  {
    if i > 0 {
      InfoUpToTypes(cmd, i - 1);
      InfoStep(cmd, i - 1);
    }
  }

  /** The report's options are the renderings of the keyword arguments among the first
      `i`. */
  lemma {:induction false} InfoUpToOptions(cmd: RedisCommand, i: nat)
    requires i <= |cmd.arguments|
    ensures InfoUpTo(cmd, i).options == KeywordOptions(cmd.arguments, i)
  {
    if i > 0 {
      InfoUpToOptions(cmd, i - 1);
    }
  }

  /** The report marks a key exactly when the first argument is an identifier or a string
      literal. */
  lemma {:induction false} InfoUpToKey(cmd: RedisCommand, i: nat)
    requires i <= |cmd.arguments|
    ensures InfoUpTo(cmd, i).hasKey <==> i > 0 && IsKeyArgument(cmd.arguments[0])
  {
    if i > 0 {
      InfoUpToKey(cmd, i - 1);
    }
  }

  /** The report marks a value exactly when one of the first `i` arguments is a literal. */
  lemma {:induction false} InfoUpToValue(cmd: RedisCommand, i: nat)
    requires i <= |cmd.arguments|
    ensures InfoUpTo(cmd, i).hasValue <==> exists k :: 0 <= k < i && IsValueArgument(cmd.arguments[k])
  {
    if i > 0 {
      InfoUpToValue(cmd, i - 1);
      if IsValueArgument(cmd.arguments[i - 1]) {
        assert exists k :: 0 <= k < i && IsValueArgument(cmd.arguments[k]);
      }
    }
  }

  /** `GetCommandInfo`'s report: the command name and argument count, each argument's kind
      name in order, the keyword arguments as options, a key exactly when the first argument
      is an identifier or a string literal, and a value exactly when some argument is a
      string, integer or float literal. */
  lemma CommandInfoFacts(cmd: RedisCommand)
    ensures var info := InfoUpTo(cmd, |cmd.arguments|); var args := cmd.arguments;
      && info.command == cmd.command && info.arguments == |args|
      && info.argTypes == seq(|args|, k requires 0 <= k < |args| => NodeType(args[k]))
      && info.options == KeywordOptions(args, |args|)
      && (info.hasKey <==> |args| > 0 && IsKeyArgument(args[0]))
      && (info.hasValue <==> exists k :: 0 <= k < |args| && IsValueArgument(args[k]))
  {
    var n := |cmd.arguments|;
    InfoUpToTypes(cmd, n);
    InfoUpToOptions(cmd, n);
    InfoUpToKey(cmd, n);
    InfoUpToValue(cmd, n);
  }

  /** One more argument looked at: how each field of the report moves. */
  lemma InfoStep(cmd: RedisCommand, i: nat)
    requires i < |cmd.arguments|
    ensures var s, s', a := InfoUpTo(cmd, i), InfoUpTo(cmd, i + 1), cmd.arguments[i];
      && s'.command == s.command && s'.arguments == s.arguments
      && s'.argTypes == s.argTypes + [NodeType(a)]
      && s'.options == (if a.KeywordExpression? then s.options + [Render(a)] else s.options)
      && (s'.hasKey <==> s.hasKey || (i == 0 && IsKeyArgument(a)))
      && (s'.hasValue <==> s.hasValue || IsValueArgument(a))
  {
  }

  /** `GetCommandInfo`: one pass over the arguments. */
  method GetCommandInfo(cmd: RedisCommand) returns (info: CommandInfo)
    ensures info == InfoUpTo(cmd, |cmd.arguments|)
  {
    var args := cmd.arguments;
    var argTypes: seq<string> := [];
    var options: seq<string> := [];
    var hasKey, hasValue := false, false;
    var i := 0;
    while i < |args|
      invariant 0 <= i <= |args|
      invariant InfoUpTo(cmd, i) == CommandInfo(cmd.command, |args|, argTypes, options, hasKey, hasValue)
    {
      var arg := args[i];
      InfoStep(cmd, i);
      argTypes := argTypes + [NodeType(arg)];
      if i == 0 && (arg.Identifier? || arg.StringLiteral?) {
        hasKey := true;
      }
      if arg.StringLiteral? || arg.IntegerLiteral? || arg.FloatLiteral? {
        hasValue := true;
      }
      if arg.KeywordExpression? {
        options := options + [Render(arg)];
      }
      i := i + 1;
    }
    info := CommandInfo(cmd.command, |args|, argTypes, options, hasKey, hasValue);
  }
}
