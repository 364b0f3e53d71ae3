// Four places where the Go code does not do what it evidently means to do.  Each is
// modelled here as written, next to a concrete input that shows the difference; the rest
// of the model uses the corrected behaviour (Lexer.StringEnd, Parser.ArgsFrom,
// Parser.ProgramFrom, Parser.ParseRange).

module Findings {
  import opened Wrappers
  import opened Text
  import opened Tokens
  import opened Lexer
  import opened Ast
  import opened Parser
  import opened ParserProperties

  // ---------------------------------------------------------------------------------------
  // 1. The escape handling of `readString` and `readSingleQuoteString`

  /** The quoted-string scan as written (backend/lexer/lexer.go:197-209): after a backslash
      the loop reads the escaped byte and, unless it is NUL, one more byte, and then the read
      at the top of the loop moves once more, so the byte right after an escaped byte is
      never compared with the quote.  A backslash at the very end leaves the scan one past
      the end of the input. */
  function StringEndAsWritten(input: seq<Byte>, k: nat, quote: Byte): (e: nat)
    decreases |input| + 2 - k
    ensures k < e
    ensures CharAt(input, e) == quote || CharAt(input, e) == '\0'
  {
    var c := CharAt(input, k + 1);
    if c == quote || c == '\0' then k + 1
    else if c == '\\' then
      if CharAt(input, k + 2) != '\0' then StringEndAsWritten(input, k + 3, quote)
      else StringEndAsWritten(input, k + 2, quote)
    else StringEndAsWritten(input, k + 1, quote)
  }

  /** `"\n"`: the scan as written runs over the closing quote, so the literal would keep it,
      while the corrected scan stops at the quote and keeps the escape as written. */
  lemma EscapedByteHidesClosingQuote(input: seq<Byte>)
    requires input == "\"\\n\""
    ensures StringEndAsWritten(input, 0, '"') == 4
    ensures input[1..StringEndAsWritten(input, 0, '"')] == "\\n\""
    ensures StringEnd(input, 0, '"') == 3 && input[1..StringEnd(input, 0, '"')] == "\\n"
  {
  }

  /** `"\` at the end of the input: the scan as written stops one past the end, where slicing
      the literal is out of range; the corrected scan stops at the end. */
  lemma TrailingBackslashOverruns(input: seq<Byte>)
    requires input == "\"\\"
    ensures StringEndAsWritten(input, 0, '"') == |input| + 1
    ensures StringEnd(input, 0, '"') == |input|
  {
  }

  // ---------------------------------------------------------------------------------------
  // 2., 3. and 4. Failed nodes that are not nil

  /** An `Expression` or `Statement` interface value in Go: nil, a nil pointer of a node
      type (which the interface does not compare equal to nil), or a node. */
  datatype GoValue<T> = Nil | TypedNil | Node(node: T)

  /** An expression as the Go parser builds it: a node of the corrected model, or a range
      whose bounds are Go values, so that a bound can be a nil pointer. */
  datatype GoExpr = Plain(expr: Expr) | GoRange(start: GoValue<GoExpr>, end: GoValue<GoExpr>)

  /** The result of a parsing rule as written: a Go value instead of an optional node. */
  datatype GoParsed = GoParsed(value: GoValue<GoExpr>, last: nat, errors: seq<ParseError>)

  /** The Go value of a node of the corrected model. */
  function Lift(e: Expr): GoExpr
  {
    match e
    case RangeExpression(a, b) => GoRange(Node(Lift(a)), Node(Lift(b)))
    case _ => Plain(e)
  }

  /** Whether a Go expression holds no nil anywhere in it. */
  predicate NilFree(g: GoExpr)
  {
    match g
    case Plain(_) => true
    case GoRange(a, b) => a.Node? && b.Node? && NilFree(a.node) && NilFree(b.node)
  }

  /** `String()` of a Go value (backend/parser/ast.go:112-113 for ranges): `None` where it
      would call a method on a nil, which in Go is a nil dereference. */
  function GoRender(g: GoValue<GoExpr>): (r: Option<string>)
    ensures r.Some? <==> g.Node? && NilFree(g.node)
  {
    match g
    case Node(Plain(e)) => Some(Render(e))
    case Node(GoRange(a, b)) =>
      var ra := GoRender(a);
      var rb := GoRender(b);
      if ra.Some? && rb.Some? then Some("[" + ra.value + ", " + rb.value + "]") else None
    case _ => None
  }

  /** A node of the corrected model renders in Go as the model renders it. */
  lemma {:induction false} LiftRenders(e: Expr)
    ensures NilFree(Lift(e)) && GoRender(Node(Lift(e))) == Some(Render(e))
  {
    match e
    case RangeExpression(a, b) =>
      LiftRenders(a);
      LiftRenders(b);
    case _ =>
  }

  /** `parseExpression` as written (backend/parser/parser.go:110-135): the rules for
      integers, floats and ranges return a nil pointer of their own node type on failure,
      which becomes a non-nil `Expression`; only the default case returns a plain nil.  (A
      FLOAT token never fails in this model; see `Parser.ParseExpr`.) */
  function ExprAsWritten(src: Source, n: nat, q: nat): (r: GoParsed)
    requires Scanner(src, n)
    decreases Rem(n, q), 2
    ensures q <= r.last
    ensures r.value.Nil? ==> r.errors == [ErrorAt(src, q, UnexpectedToken(Cur(src, q).kind))]
  {
    var k := Cur(src, q).kind;
    if k == BracketL then RangeAsWritten(src, n, q)
    else
      var p := ParseExpr(src, n, q);
      if p.value.Some? then GoParsed(Node(Lift(p.value.value)), p.last, p.errors)
      else if k == IntLit || k == FloatLit then GoParsed(TypedNil, p.last, p.errors)
      else GoParsed(Nil, p.last, p.errors)
  }

  /** `parseRangeExpression` as written (backend/parser/parser.go:207-242): a bound is
      given up on only when it is a plain nil (lines 216 and 228), so a bound that is a nil
      pointer goes into the range; every failure returns a nil `*RangeExpression`. */
  function RangeAsWritten(src: Source, n: nat, q: nat): (r: GoParsed)
    requires Scanner(src, n) && Cur(src, q).kind == BracketL
    decreases Rem(n, q), 1
    ensures q <= r.last && !r.value.Nil?
  {
    var s := ExprAsWritten(src, n, Step(src, q));
    if s.value.Nil? then GoParsed(TypedNil, s.last, s.errors)
    else if Peek(src, s.last).kind != Comma then
      GoParsed(TypedNil, s.last, s.errors + [ErrorAt(src, s.last, ExpectedComma)])
    else
      var t := ExprAsWritten(src, n, Step(src, Step(src, s.last)));
      if t.value.Nil? then GoParsed(TypedNil, t.last, s.errors + t.errors)
      else if Peek(src, t.last).kind != BracketR then
        GoParsed(TypedNil, t.last, s.errors + t.errors + [ErrorAt(src, t.last, ExpectedBracketR)])
      else GoParsed(Node(GoRange(s.value, t.value)), Step(src, t.last), s.errors + t.errors)
  }

  /** Where the corrected parser builds a node, the code as written builds the same node,
      with the same position and errors; and where the code builds a node with no nil in
      it, so does the corrected parser. */
  lemma {:induction false} ExprAgrees(src: Source, n: nat, q: nat)
    requires Scanner(src, n)
    decreases Rem(n, q), 2
    ensures var p := ParseExpr(src, n, q);
      var g := ExprAsWritten(src, n, q);
      && (p.value.Some? ==> g == GoParsed(Node(Lift(p.value.value)), p.last, p.errors))
      && (g.value.Node? && NilFree(g.value.node) ==> p.value.Some?)
  {
    if Cur(src, q).kind == BracketL {
      assert ParseExpr(src, n, q) == ParseRange(src, n, q);
      assert ExprAsWritten(src, n, q) == RangeAsWritten(src, n, q);
      BuiltRangeAgrees(src, n, q);
      NilFreeRangeAgrees(src, n, q);
    } else {
      var p := ParseExpr(src, n, q);
      var g := ExprAsWritten(src, n, q);
      assert p.value.Some? ==> g == GoParsed(Node(Lift(p.value.value)), p.last, p.errors);
      assert g.value.Node? ==> p.value.Some?;
    }
  }

  /** A range the corrected parser builds is the range the code builds. */
  lemma {:induction false} BuiltRangeAgrees(src: Source, n: nat, q: nat)
    requires Scanner(src, n) && Cur(src, q).kind == BracketL
    decreases Rem(n, q), 1
    ensures var p := ParseRange(src, n, q);
      p.value.Some? ==> RangeAsWritten(src, n, q) == GoParsed(Node(Lift(p.value.value)), p.last, p.errors)
  {
    var s := ParseExpr(src, n, Step(src, q));
    if s.value.Some? && Peek(src, s.last).kind == Comma {
      ExprAgrees(src, n, Step(src, q));
      ExprAgrees(src, n, Step(src, Step(src, s.last)));
    }
  }

  /** A range the code builds with no nil in it is one the corrected parser builds. */
  lemma {:induction false} NilFreeRangeAgrees(src: Source, n: nat, q: nat)
    requires Scanner(src, n) && Cur(src, q).kind == BracketL
    decreases Rem(n, q), 1
    ensures var g := RangeAsWritten(src, n, q);
      g.value.Node? && NilFree(g.value.node) ==> ParseRange(src, n, q).value.Some?
  {
    var g := RangeAsWritten(src, n, q);
    if g.value.Node? && NilFree(g.value.node) {
      var gs := ExprAsWritten(src, n, Step(src, q));
      ExprAgrees(src, n, Step(src, q));
      var s := ParseExpr(src, n, Step(src, q));
      assert gs.last == s.last;
      ExprAgrees(src, n, Step(src, Step(src, s.last)));
    }
  }

  /** `08` as written: a nil `*IntegerLiteral` and one error. */
  lemma OctalAsWritten(src: Source, n: nat, i: nat)
    requires Scanner(src, n) && Cur(src, i).kind == IntLit && Cur(src, i).literal == "08"
    ensures ExprAsWritten(src, n, i) == GoParsed(TypedNil, i, [ErrorAt(src, i, IntegerSyntax("08"))])
    ensures ParseExpr(src, n, i) == Parsed(None, i, [ErrorAt(src, i, IntegerSyntax("08"))])
  {
    ParseGoIntOctal();
  }

  /** `1` as written: an integer node and no error. */
  lemma OneAsWritten(src: Source, n: nat, j: nat)
    requires Scanner(src, n) && Cur(src, j).kind == IntLit && Cur(src, j).literal == "1"
    ensures ExprAsWritten(src, n, j) == GoParsed(Node(Plain(IntegerLiteral(1))), j, [])
  {
    ParseGoIntRoundTrip(1);
    assert IntToString(1) == "1";
  }

  /** `[08, 1]`: as written the failed `08` is a nil pointer, so the range is built with a
      nil first bound and one error, and its `String()` dereferences that nil; corrected,
      the range fails at its first bound with the same error. */
  lemma NilBoundKept(src: Source, n: nat, q: nat, i: nat, c: nat, j: nat, b: nat)
    requires Scanner(src, n) && Cur(src, q).kind == BracketL
    requires Step(src, q) == i && Cur(src, i).kind == IntLit && Cur(src, i).literal == "08"
    requires Step(src, i) == c && Cur(src, c).kind == Comma
    requires Step(src, c) == j && Cur(src, j).kind == IntLit && Cur(src, j).literal == "1"
    requires Step(src, j) == b && Cur(src, b).kind == BracketR
    ensures var g := ExprAsWritten(src, n, q);
      && g == GoParsed(Node(GoRange(TypedNil, Node(Plain(IntegerLiteral(1))))), b,
                       [ErrorAt(src, i, IntegerSyntax("08"))])
      && GoRender(g.value) == None
    ensures ParseExpr(src, n, q) == Parsed(None, i, [ErrorAt(src, i, IntegerSyntax("08"))])
  {
    OctalAsWritten(src, n, i);
    OneAsWritten(src, n, j);
    assert [ErrorAt(src, i, IntegerSyntax("08"))] + [] == [ErrorAt(src, i, IntegerSyntax("08"))];
  }

  /** The nil test of the argument loop (backend/parser/parser.go:101-103) and of the
      statement loop (backend/parser/parser.go:57-59): a value is kept unless it is a plain
      nil. */
  function AppendAsWritten<T>(list: seq<GoValue<T>>, v: GoValue<T>): (r: seq<GoValue<T>>)
    ensures v.Nil? ==> r == list
    ensures !v.Nil? ==> |r| == |list| + 1 && r[..|list|] == list && r[|list|] == v
  {
    if v != Nil then list + [v] else list
  }

  /** `08` is not an integer in Go's base-0 syntax (a leading 0 means octal).  As written the
      failed literal is kept in the argument list as a nil node; corrected, the argument is
      dropped and only the error remains. */
  lemma TypedNilArgumentKept(src: Source, n: nat, q: nat, args: seq<GoValue<GoExpr>>)
    requires Scanner(src, n) && Cur(src, q).kind == IntLit && Cur(src, q).literal == "08"
    ensures ParseGoInt("08") == None
    ensures ExprAsWritten(src, n, q).value == TypedNil
    ensures AppendAsWritten(args, ExprAsWritten(src, n, q).value) == args + [TypedNil]
    ensures ParseExpr(src, n, q) == Parsed(None, q, [ErrorAt(src, q, IntegerSyntax("08"))])
    ensures Built(ParseExpr(src, n, q).value) == []
  {
    ParseGoIntOctal();
  }

  /** The argument loop corrected: an argument that fails to parse leaves its errors, at
      least one, and no node. */
  lemma FailedArgumentDropped(src: Source, n: nat, q: nat)
    requires Scanner(src, n) && Peek(src, q).kind != Eof && Peek(src, q).kind != Newline
    requires ParseExpr(src, n, Step(src, q)).value.None?
    ensures var e := ParseExpr(src, n, Step(src, q));
      var rest := ArgsFrom(src, n, e.last);
      && ArgsFrom(src, n, q).value == rest.value
      && ArgsFrom(src, n, q).errors == e.errors + rest.errors
      && e.errors != []
  {
    var e := ParseExpr(src, n, Step(src, q));
    var rest := ArgsFrom(src, n, e.last);
    ArgsStep(src, n, q);
    ExprFacts(src, n, Step(src, q));
    assert Built(e.value) == [];
    assert Built(e.value) + rest.value.value == rest.value.value;
  }

  /** `parseStatement` as written (backend/parser/parser.go:67-80): blank lines are skipped,
      EOF gives a plain nil, and otherwise the `*RedisCommand` of `parseRedisCommand` is
      returned as a `Statement`, so a failed command is a nil pointer that is not nil. */
  function StatementAsWritten(src: Source, n: nat, q: nat): (g: GoValue<RedisCommand>)
    requires Scanner(src, n)
    ensures g.Nil? <==> Cur(src, SkipNewlines(src, n, q)).kind == Eof
    ensures g.Node? <==> ParseStatementAt(src, n, q).value.Some?
  {
    var s := SkipNewlines(src, n, q);
    if Cur(src, s).kind == Eof then Nil
    else
      var r := ParseCommandAt(src, n, s);
      if r.value.Some? then Node(r.value.value) else TypedNil
  }

  /** The script `123`: as written its one statement is a nil command that `ParseProgram`
      keeps (and that `ValidateProgram` would then dereference); corrected, the script has
      no command and one error. */
  lemma NilCommandKept(input: seq<Byte>)
    requires input == "123"
    ensures StatementAsWritten(LexSource(input), 3, 0) == TypedNil
    ensures AppendAsWritten([], StatementAsWritten(LexSource(input), 3, 0)) == [TypedNil]
    ensures ProgramFrom(LexSource(input), 3, 0)
      == Parsed(Some([]), 3, [ParseError(1, 1, ExpectedCommandIdentifier(IntLit))])
  {
    var src := LexSource(input);
    NumberStatement(input);
    EndOfInputIsEof(input);
    ProgramStep(src, 3, 0);
    assert Cur(src, 3).kind == Eof;
    assert ProgramFrom(src, 3, 3) == Parsed(Some([]), 3, []);
    var st := ParseStatementAt(src, 3, 0);
    assert Step(src, st.last) == 3;
    assert Built(st.value) + [] == [];
    assert st.errors + [] == st.errors;
  }

  /** The statement loop corrected: a statement without a command adds nothing to the
      program; it leaves errors exactly when it was not the end of the input. */
  lemma FailedCommandDropped(src: Source, n: nat, q: nat)
    requires Scanner(src, n) && Cur(src, q).kind != Eof
    requires ParseStatementAt(src, n, q).value.None?
    ensures var st := ParseStatementAt(src, n, q);
      var rest := ProgramFrom(src, n, Step(src, st.last));
      && ProgramFrom(src, n, q).value == rest.value
      && ProgramFrom(src, n, q).errors == st.errors + rest.errors
      && (st.errors == [] <==> Cur(src, SkipNewlines(src, n, q)).kind == Eof)
  {
    ProgramStep(src, n, q);
    CommandFacts(src, n, SkipNewlines(src, n, q));
    var st := ParseStatementAt(src, n, q);
    var rest := ProgramFrom(src, n, Step(src, st.last));
    assert Built(st.value) + rest.value.value == rest.value.value;
  }

  /** The statement parsed from `123`: no command, one error, and the parser stays on the
      number, which ends at 3. */
  lemma NumberStatement(input: seq<Byte>)
    requires input == "123"
    ensures var src := LexSource(input);
      && Cur(src, 0).kind == IntLit && Step(src, 0) == 3
      && ParseStatementAt(src, 3, 0) == Parsed(None, 0, [ParseError(1, 1, ExpectedCommandIdentifier(IntLit))])
  {
    var src := LexSource(input);
    NumberScan(input, 0);
    assert Lex(input, 0).next == 3;
    assert SkipNewlines(src, 3, 0) == 0;
    FirstLineColumn(input, 3);
  }
}
