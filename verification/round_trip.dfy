/** Rendering a command and parsing the text again (backend/parser/ast.go `String()` and
    backend/parser/parser.go): the round trip for whole commands whose arguments are words,
    well-escaped strings, 64-bit integers and ranges of those, and the case that shows a
    string read from single quotes does not survive it. */
module RoundTrip {
  import opened Wrappers
  import opened Text
  import opened Tokens
  import opened Lexer
  import opened Ast
  import opened Parser
  import opened ParserProperties

  /** A word: a letter followed by identifier bytes. */
  predicate IsWord(w: string)
  {
    |w| > 0 && IsLetter(w[0]) && forall k :: 0 <= k < |w| ==> IsIdentChar(w[k])
  }

  /** The arguments whose rendering parses back into them: an identifier whose upper-case
      form is not reserved, a keyword whose upper-case form is, a string with a well-escaped
      body, a 64-bit integer, and a range of two such arguments. */
  predicate Reparsable(e: Expr)
  {
    match e
    case Identifier(w) => IsWord(w) && Upper(w) !in Keywords
    case KeywordExpression(w) => IsWord(w) && Upper(w) in Keywords
    case StringLiteral(v) => IsByteText(v) && WellEscaped(v, '"')
    case IntegerLiteral(n) => MinInt64 <= n <= MaxInt64
    case RangeExpression(a, b) => Reparsable(a) && Reparsable(b)
    case _ => false
  }

  /** Text whose every character is a byte, so that the lexer can read it. */
  predicate IsByteText(s: string)
  {
    forall k :: 0 <= k < |s| ==> s[k] as int < 256
  }

  /** The bytes that may follow an argument's rendering inside a command. */
  predicate IsDelimiter(c: char)
  {
    c == ' ' || c == ',' || c == ']' || c == '\0'
  }

  /** The arguments' renderings separated by single spaces. */
  function ArgsText(args: seq<Expr>): string
  {
    Join(Renderings(args), " ")
  }

  /** The rendering of a reparsable argument is byte text. */
  lemma {:induction false} RenderIsByteText(e: Expr)
    requires Reparsable(e)
    decreases e
    ensures IsByteText(Render(e))
  {
    match e
    case IntegerLiteral(v) =>
      var digits := NatToString(if v < 0 then -v else v);
      assert Render(e) == (if v < 0 then "-" else "") + digits;
    case RangeExpression(a, b) =>
      RenderIsByteText(a);
      RenderIsByteText(b);
    case _ =>
  }

  /** Joining byte texts with a byte separator gives byte text. */
  lemma {:induction false} JoinIsByteText(parts: seq<string>, sep: string)
    requires IsByteText(sep) && forall i :: 0 <= i < |parts| ==> IsByteText(parts[i])
    decreases |parts|
    ensures IsByteText(Join(parts, sep))
  {
    if |parts| > 1 {
      JoinIsByteText(parts[..|parts| - 1], sep);
    }
  }

  /** The rendering of a command whose name is a word and whose arguments are reparsable
      is byte text. */
  lemma CommandIsByteText(c: RedisCommand)
    requires IsWord(c.command) && forall i :: 0 <= i < |c.arguments| ==> Reparsable(c.arguments[i])
    ensures IsByteText(CommandString(c))
  {
    var rs := Renderings(c.arguments);
    forall i | 0 <= i < |rs| ensures IsByteText(rs[i]) {
      RenderIsByteText(c.arguments[i]);
    }
    JoinIsByteText(rs, " ");
  }

  // ---------------------------------------------------------------------------------------
  // One token at a given offset

  /** A run of digits from `d` up to a non-digit at `e` ends at `e`. */
  lemma {:induction false} DigitsEndAt(input: seq<Byte>, d: nat, e: nat)
    requires d <= e
    requires forall k :: d <= k < e ==> IsDigit(CharAt(input, k))
    requires !IsDigit(CharAt(input, e))
    decreases e - d
    ensures DigitsEnd(input, d) == e
  {
    if d < e {
      DigitsEndAt(input, d + 1, e);
    }
  }

  /** The kind, literal and end of the identifier token scanned from `s`. */
  lemma IdentifierFields(input: seq<Byte>, s: nat)
    requires s < |input|
    ensures var r := LexIdentifier(input, s); var e := IdentEnd(input, s);
      r.tok.kind == LookupIdent(Upper(input[s..e])) && r.tok.literal == input[s..e] && r.next == e
  {
  }

  /** The kind, literal and end of the number token scanned from `s`. */
  lemma NumberFields(input: seq<Byte>, s: nat)
    requires s < |input|
    ensures var r := LexNumber(input, s); var e := NumberEnd(input, s);
      && r.tok.kind == (if '.' in input[s..e] then FloatLit else IntLit)
      && r.tok.literal == input[s..e] && r.next == e
  {
  }

  /** Text placed at `s` shows its characters at the matching offsets. */
  lemma Placed(input: seq<Byte>, s: nat, t: string, k: nat)
    requires s + |t| <= |input| && input[s..s + |t|] == t && s <= k < s + |t|
    ensures CharAt(input, k) == t[k - s]
  {
    assert input[s..s + |t|][k - s] == input[k];
  }

  /** A word placed at `s` and followed by a byte that cannot continue it is scanned as one
      token of its own text. */
  lemma WordAtOffset(input: seq<Byte>, s: nat, w: string)
    requires IsWord(w) && s + |w| <= |input| && input[s..s + |w|] == w
    requires !IsIdentChar(CharAt(input, s + |w|))
    ensures var r := LexAt(input, s);
      r.tok.kind == LookupIdent(Upper(w)) && r.tok.literal == w && r.next == s + |w|
  {
    Placed(input, s, w, s);
    LexAtIdentifier(input, s);
    WordScanned(input, s, w);
  }

  lemma WordScanned(input: seq<Byte>, s: nat, w: string)
    requires IsWord(w) && s + |w| <= |input| && input[s..s + |w|] == w
    requires !IsIdentChar(CharAt(input, s + |w|))
    ensures var r := LexIdentifier(input, s);
      r.tok.kind == LookupIdent(Upper(w)) && r.tok.literal == w && r.next == s + |w|
  {
    WordEnd(input, s, w);
    IdentifierFields(input, s);
  }

  /** The identifier scan over a placed word stops right after it. */
  lemma WordEnd(input: seq<Byte>, s: nat, w: string)
    requires IsWord(w) && s + |w| <= |input| && input[s..s + |w|] == w
    requires !IsIdentChar(CharAt(input, s + |w|))
    ensures IdentEnd(input, s) == s + |w|
  {
    forall k | s <= k < s + |w|
      ensures IsIdentChar(CharAt(input, k))
    {
      Placed(input, s, w, k);
    }
    IdentEndAt(input, s, s + |w|);
  }

  /** A number's digits run from `d` to `e`, after an optional '-' at `s`, and are followed by
      neither a digit nor a '.': the number token is the whole run. */
  lemma IntegerScanned(input: seq<Byte>, s: nat, v: int)
    requires var t := IntToString(v); s + |t| <= |input| && input[s..s + |t|] == t
    requires !IsDigit(CharAt(input, s + |IntToString(v)|)) && CharAt(input, s + |IntToString(v)|) != '.'
    ensures s < |input|
    ensures var r := LexNumber(input, s); var t := IntToString(v);
      r.tok.kind == IntLit && r.tok.literal == t && r.next == s + |t|
  {
    var t := IntToString(v);
    var d := if v < 0 then 1 else 0;
    IntegerText(v);
    forall k | s + d <= k < s + |t|
      ensures IsDigit(CharAt(input, k))
    {
      Placed(input, s, t, k);
    }
    Placed(input, s, t, s);
    DigitsEndAt(input, s + d, s + |t|);
    NumberFields(input, s);
  }

  /** The shape of an integer's rendering: an optional '-', then at least one digit, and no
      '.'. */
  lemma IntegerText(v: int)
    ensures var t := IntToString(v); var d := if v < 0 then 1 else 0;
      && d < |t| && (v < 0 ==> t[0] == '-') && '.' !in t
      && forall k :: d <= k < |t| ==> IsDigit(t[k])
  {
    var t := IntToString(v);
    var digits := NatToString(if v < 0 then -v else v);
    var d := if v < 0 then 1 else 0;
    assert t == (if v < 0 then "-" else "") + digits;
    assert forall k :: d <= k < |t| ==> IsDigit(t[k]);
    forall k | 0 <= k < |t| ensures t[k] != '.' {
      assert k < d || IsDigit(t[k]);
    }
  }

  /** The decimal rendering of an integer placed at `s` and followed by neither a digit nor
      a '.' is scanned as one INT token of its own text. */
  lemma IntegerAtOffset(input: seq<Byte>, s: nat, v: int)
    requires var t := IntToString(v); s + |t| <= |input| && input[s..s + |t|] == t
    requires !IsDigit(CharAt(input, s + |IntToString(v)|)) && CharAt(input, s + |IntToString(v)|) != '.'
    ensures var r := LexAt(input, s); var t := IntToString(v);
      r.tok.kind == IntLit && r.tok.literal == t && r.next == s + |t|
  {
    var t := IntToString(v);
    IntegerText(v);
    Placed(input, s, t, s);
    if v < 0 {
      Placed(input, s, t, s + 1);
    }
    LexAtNumber(input, s);
    IntegerScanned(input, s, v);
  }

  /** Text placed at `s` shows its slices at the matching offsets. */
  lemma Slice(input: seq<Byte>, s: nat, t: string, i: nat, j: nat)
    requires s + |t| <= |input| && input[s..s + |t|] == t && i <= j <= |t|
    ensures input[s + i..s + j] == t[i..j]
  {
    forall k | 0 <= k < j - i
      ensures input[s + i..s + j][k] == t[i..j][k]
    {
      assert input[s..s + |t|][i + k] == t[i + k];
    }
  }

  /** The lexer's first byte of a reparsable argument's rendering. */
  lemma RenderStart(e: Expr)
    requires Reparsable(e)
    ensures var t := Render(e);
      |t| > 0 && (IsLetter(t[0]) || IsDigit(t[0]) || t[0] == '"' || t[0] == '['
        || (t[0] == '-' && |t| > 1 && IsDigit(t[1])))
  {
    match e
    case IntegerLiteral(v) =>
      IntegerText(v);
    case _ =>
  }

  /** The first byte of a reparsable argument's rendering starts a token other than `:`,
      EOF and NEWLINE, and is no whitespace. */
  lemma StartsToken(input: seq<Byte>, s: nat, f: nat, e: Expr)
    requires Reparsable(e) && f == s + |Render(e)| && f <= |input| && input[s..f] == Render(e)
    ensures s < |input| && !IsWhitespace(input[s])
    ensures var k := LexAt(input, s).tok.kind; k != Colon && k != Eof && k != Newline
  {
    var t := Render(e);
    RenderStart(e);
    Placed(input, s, t, s);
    if |t| > 1 {
      Placed(input, s, t, s + 1);
    }
    TokenStart(input, s);
  }

  /** A letter, a digit, a quote, a bracket, or a '-' before a digit starts a token other
      than `:`, EOF and NEWLINE. */
  lemma TokenStart(input: seq<Byte>, s: nat)
    requires s < |input|
    requires var c := input[s];
      IsLetter(c) || IsDigit(c) || c == '"' || c == '[' || (c == '-' && IsDigit(CharAt(input, s + 1)))
    ensures var k := LexAt(input, s).tok.kind; k != Colon && k != Eof && k != Newline
  {
    var c := input[s];
    if IsLetter(c) {
      LexAtIdentifier(input, s);
    } else if IsDigit(c) || c == '-' {
      LexAtNumber(input, s);
    }
  }

  /** `src` is the lexer over `input`: it agrees with it wherever a proof looks at the
      lexer. */
  ghost predicate LexedBy(src: Source, input: seq<Byte>)
  {
    forall x: nat {:trigger Lex(input, x)} :: src(x) == Lex(input, x)
  }

  /** The token source over `input` at `q`, once whitespace up to `s` is skipped. */
  lemma SourceAt(src: Source, input: seq<Byte>, q: nat, s: nat)
    requires LexedBy(src, input) && WhitespaceEnd(input, q) == s
    ensures src(q) == LexAt(input, s)
  {
    assert src(q) == Lex(input, q);
  }

  // ---------------------------------------------------------------------------------------
  // The tokens of an argument, and the parser over them

  /** Where the tokens of `e` that the source delivers from `q` on end: the position of the
      last of them, or `None` when the source delivers other tokens.  A word (not followed by
      `:`), a string or an integer is one token; a range is a bracket, the start's tokens, a
      comma, the end's tokens and a closing bracket. */
  function LastToken(src: Source, q: nat, e: Expr): Option<nat>
    decreases e
  {
    var t := Cur(src, q);
    match e
    case Identifier(w) =>
      if t.kind == LookupIdent(Upper(w)) && t.literal == w && Peek(src, q).kind != Colon then Some(q) else None
    case KeywordExpression(w) =>
      if t.kind == LookupIdent(Upper(w)) && t.literal == w && Peek(src, q).kind != Colon then Some(q) else None
    case StringLiteral(v) =>
      if t.kind == StringLit && t.literal == v then Some(q) else None
    case IntegerLiteral(v) =>
      if t.kind == IntLit && ParseGoInt(t.literal) == Some(v) then Some(q) else None
    case RangeExpression(a, b) =>
      var la := LastToken(src, Step(src, q), a);
      if t.kind != BracketL || la.None? || Peek(src, la.value).kind != Comma then None
      else
        var lb := LastToken(src, Step(src, Step(src, la.value)), b);
        if lb.None? || Peek(src, lb.value).kind != BracketR then None else Some(Step(src, lb.value))
    case _ => None
  }

  /** Over the tokens of a reparsable argument, the expression rule builds that argument
      without error and stops on its last token. */
  lemma {:induction false} ParsesBack(src: Source, n: nat, q: nat, e: Expr)
    requires Scanner(src, n) && Reparsable(e) && LastToken(src, q, e).Some?
    decreases e
    ensures ParseExpr(src, n, q) == Parsed(Some(e), LastToken(src, q, e).value, [])
  {
    match e
    case Identifier(w) =>
      WordToken(src, n, q, w);
    case KeywordExpression(w) =>
      WordToken(src, n, q, w);
    case StringLiteral(_) =>
    case IntegerLiteral(v) =>
      IntegerToken(src, n, q, v);
    case RangeExpression(a, b) =>
      var la := LastToken(src, Step(src, q), a).value;
      var lb := LastToken(src, Step(src, Step(src, la)), b).value;
      ParsesBack(src, n, Step(src, q), a);
      ParsesBack(src, n, Step(src, Step(src, la)), b);
      RangeToken(src, n, q, a, b, la, lb);
  }

  /** A bracket, then the tokens of a start that parses, a comma, the tokens of an end that
      parses and a closing bracket: the range rule builds the range without error and stops
      on the closing bracket. */
  lemma RangeToken(src: Source, n: nat, q: nat, a: Expr, b: Expr, la: nat, lb: nat)
    requires Scanner(src, n) && Cur(src, q).kind == BracketL
    requires ParseExpr(src, n, Step(src, q)) == Parsed(Some(a), la, []) && Peek(src, la).kind == Comma
    requires ParseExpr(src, n, Step(src, Step(src, la))) == Parsed(Some(b), lb, [])
    requires Peek(src, lb).kind == BracketR
    ensures ParseExpr(src, n, q) == Parsed(Some(RangeExpression(a, b)), Step(src, lb), [])
  {
  }

  /** The token source delivers the arguments' tokens, each after a lookahead that is neither
      EOF nor NEWLINE, and EOF after the last one. */
  predicate ArgsYield(src: Source, q: nat, args: seq<Expr>)
    decreases |args|
  {
    if args == [] then Peek(src, q).kind == Eof
    else
      var k := Peek(src, q).kind;
      var l := LastToken(src, Step(src, q), args[0]);
      k != Eof && k != Newline && l.Some? && ArgsYield(src, l.value, args[1..])
  }

  /** Over the tokens of reparsable arguments, the argument loop builds exactly those
      arguments without error and stops before EOF. */
  lemma {:induction false} ArgsParseBack(src: Source, n: nat, q: nat, args: seq<Expr>)
    requires Scanner(src, n) && ArgsYield(src, q, args)
    requires forall i :: 0 <= i < |args| ==> Reparsable(args[i])
    decreases |args|
    ensures var r := ArgsFrom(src, n, q);
      r.value == Some(args) && r.errors == [] && Peek(src, r.last).kind == Eof
  {
    if args != [] {
      var l := LastToken(src, Step(src, q), args[0]).value;
      ParsesBack(src, n, Step(src, q), args[0]);
      ArgsParseBack(src, n, l, args[1..]);
      ArgsCons(src, n, q, l, args);
    }
  }

  /** One turn of the argument loop: an argument that parses without error, ending at `l`,
      followed by the rest of the arguments parsed without error. */
  lemma ArgsCons(src: Source, n: nat, q: nat, l: nat, args: seq<Expr>)
    requires Scanner(src, n) && |args| > 0
    requires Peek(src, q).kind != Eof && Peek(src, q).kind != Newline
    requires ParseExpr(src, n, Step(src, q)) == Parsed(Some(args[0]), l, [])
    requires var r := ArgsFrom(src, n, l);
      r.value == Some(args[1..]) && r.errors == [] && Peek(src, r.last).kind == Eof
    ensures var r := ArgsFrom(src, n, q);
      r.value == Some(args) && r.errors == [] && Peek(src, r.last).kind == Eof
  {
    Uncons(args);
    ArgsStep(src, n, q);
  }

  lemma Uncons<T>(s: seq<T>)
    requires |s| > 0
    ensures [s[0]] + s[1..] == s
  {
  }

  // ---------------------------------------------------------------------------------------
  // The lexer over a rendering

  /** The rendering of `e` lies from `s` up to `f`, reached from `q` over whitespace. */
  predicate RenderedAt(input: seq<Byte>, q: nat, s: nat, f: nat, e: Expr)
  {
    WhitespaceEnd(input, q) == s && f == s + |Render(e)| && f <= |input| && input[s..f] == Render(e)
  }

  /** The byte at `p` ends an argument, and no `:` comes after the whitespace there. */
  predicate ClosedAt(input: seq<Byte>, p: nat)
  {
    IsDelimiter(CharAt(input, p)) && CharAt(input, WhitespaceEnd(input, p)) != ':'
  }

  /** Only a `:` byte is scanned as a `:` token. */
  lemma NoColon(input: seq<Byte>, p: nat)
    requires CharAt(input, WhitespaceEnd(input, p)) != ':'
    ensures Lex(input, p).tok.kind != Colon
  {
  }

  /** A word rendered at `s` and closed is delivered as its one token. */
  lemma WordYields(src: Source, input: seq<Byte>, q: nat, s: nat, f: nat, e: Expr)
    requires LexedBy(src, input) && (e.Identifier? || e.KeywordExpression?) && Reparsable(e)
    requires RenderedAt(input, q, s, f, e) && ClosedAt(input, f)
    ensures LastToken(src, q, e) == Some(q) && Step(src, q) == f
  {
    var w := e.value;
    assert Render(e) == w;
    WordAtOffset(input, s, w);
    SourceAt(src, input, q, s);
    NoColon(input, f);
  }

  /** A well-escaped string rendered at `s` is delivered as its one token. */
  lemma StringYields(src: Source, input: seq<Byte>, q: nat, s: nat, f: nat, e: Expr)
    requires LexedBy(src, input) && e.StringLiteral? && Reparsable(e) && RenderedAt(input, q, s, f, e)
    ensures LastToken(src, q, e) == Some(q) && Step(src, q) == f
  {
    var v: seq<Byte> := e.value;
    var t := Render(e);
    assert t == "\"" + v + "\"";
    Placed(input, s, t, s);
    Placed(input, s, t, s + 1 + |v|);
    Slice(input, s, t, 1, 1 + |v|);
    assert t[1..1 + |v|] == v;
    QuotedStringToken(input, s, '"', v);
    SourceAt(src, input, q, s);
  }

  /** A 64-bit integer rendered at `s` and closed is delivered as its one token, which
      converts back to it. */
  lemma IntegerYields(src: Source, input: seq<Byte>, q: nat, s: nat, f: nat, e: Expr)
    requires LexedBy(src, input) && e.IntegerLiteral? && Reparsable(e)
    requires RenderedAt(input, q, s, f, e) && ClosedAt(input, f)
    ensures LastToken(src, q, e) == Some(q) && Step(src, q) == f
  {
    var v := e.n;
    assert Render(e) == IntToString(v);
    IntegerAtOffset(input, s, v);
    SourceAt(src, input, q, s);
    ParseGoIntRoundTrip(v);
  }

  /** A reparsable argument rendered from `s` up to `f`, reached from `q` over whitespace and
      closed, is delivered as its tokens, and the source then stands at `f`. */
  lemma {:induction false} LexYields(src: Source, input: seq<Byte>, q: nat, s: nat, f: nat, e: Expr)
    requires LexedBy(src, input)
    requires Reparsable(e) && RenderedAt(input, q, s, f, e) && ClosedAt(input, f)
    decreases e, 2
    ensures LastToken(src, q, e).Some? && Step(src, LastToken(src, q, e).value) == f
  {
    match e
    case Identifier(_) =>
      WordYields(src, input, q, s, f, e);
    case KeywordExpression(_) =>
      WordYields(src, input, q, s, f, e);
    case StringLiteral(_) =>
      StringYields(src, input, q, s, f, e);
    case IntegerLiteral(_) =>
      IntegerYields(src, input, q, s, f, e);
    case RangeExpression(a, b) =>
      RangeYields(src, input, q, s, f, a, b);
  }

  /** The parts of a range's rendering `[a, b]` placed at `s`: the bracket, the start, the
      comma at `m` and the space, the end and the closing bracket at `t`. */
  predicate RangeAt(input: seq<Byte>, s: nat, m: nat, t: nat, a: Expr, b: Expr)
  {
    && m == s + 1 + |Render(a)| && t == m + 2 + |Render(b)| && t < |input|
    && CharAt(input, s) == '[' && input[s + 1..m] == Render(a)
    && CharAt(input, m) == ',' && CharAt(input, m + 1) == ' '
    && input[m + 2..t] == Render(b) && CharAt(input, t) == ']'
  }

  /** Where the parts of a range's rendering placed from `s` up to `f` lie. */
  lemma RangeText(input: seq<Byte>, s: nat, f: nat, m: nat, t: nat, a: Expr, b: Expr)
    requires m == s + 1 + |Render(a)| && t == m + 2 + |Render(b)|
    requires var r := Render(RangeExpression(a, b)); f == s + |r| && f <= |input| && input[s..f] == r
    ensures RangeAt(input, s, m, t, a, b) && f == t + 1
  {
    var r := Render(RangeExpression(a, b));
    var ra, rb := Render(a), Render(b);
    RangeParts(ra, rb);
    Placed(input, s, r, s);
    Placed(input, s, r, m);
    Placed(input, s, r, m + 1);
    Placed(input, s, r, t);
    Slice(input, s, r, 1, 1 + |ra|);
    Slice(input, s, r, 3 + |ra|, 3 + |ra| + |rb|);
  }

  /** The parts of the text `[a, b]`. */
  lemma RangeParts(ra: string, rb: string)
    ensures var r := "[" + ra + ", " + rb + "]";
      && |r| == |ra| + |rb| + 4 && r[0] == '[' && r[1..1 + |ra|] == ra
      && r[1 + |ra|] == ',' && r[2 + |ra|] == ' '
      && r[3 + |ra|..3 + |ra| + |rb|] == rb && r[3 + |ra| + |rb|] == ']'
  {
    var r := "[" + ra + ", " + rb + "]";
    forall k | 0 <= k < |ra| ensures r[1..1 + |ra|][k] == ra[k] {
      assert r[1 + k] == ra[k];
    }
    forall k | 0 <= k < |rb| ensures r[3 + |ra|..3 + |ra| + |rb|][k] == rb[k] {
      assert r[3 + |ra| + k] == rb[k];
    }
  }

  /** A one-byte symbol at `s`, reached from `q` over whitespace, is scanned as its own
      token. */
  lemma SymbolAt(src: Source, input: seq<Byte>, q: nat, s: nat)
    requires LexedBy(src, input) && WhitespaceEnd(input, q) == s && CharAt(input, s) in "[],"
    ensures Cur(src, q).kind == SymbolKind(CharAt(input, s)) && Step(src, q) == s + 1
  {
    SourceAt(src, input, q, s);
  }

  /** The start of a range's rendering lies right after the bracket and is closed by the
      comma. */
  lemma RangeLeft(input: seq<Byte>, s: nat, m: nat, t: nat, a: Expr, b: Expr)
    requires Reparsable(a) && RangeAt(input, s, m, t, a, b)
    ensures RenderedAt(input, s + 1, s + 1, m, a) && ClosedAt(input, m)
  {
    StartsToken(input, s + 1, m, a);
    assert WhitespaceEnd(input, s + 1) == s + 1;
    assert WhitespaceEnd(input, m) == m;
  }

  /** The end of a range's rendering lies after the comma's space and is closed by the
      closing bracket. */
  lemma RangeRight(input: seq<Byte>, s: nat, m: nat, t: nat, a: Expr, b: Expr)
    requires Reparsable(b) && RangeAt(input, s, m, t, a, b)
    ensures WhitespaceEnd(input, m) == m
    ensures RenderedAt(input, m + 1, m + 2, t, b) && ClosedAt(input, t)
  {
    assert WhitespaceEnd(input, m) == m;
    StartsToken(input, m + 2, t, b);
    assert WhitespaceEnd(input, m + 1) == m + 2;
    assert WhitespaceEnd(input, t) == t;
  }

  /** The bracket at `s` and the start of a range rendered after it. */
  lemma {:induction false} RangeStart(src: Source, input: seq<Byte>, q: nat, s: nat, m: nat, a: Expr)
    requires LexedBy(src, input) && Reparsable(a) && WhitespaceEnd(input, q) == s && CharAt(input, s) == '['
    requires RenderedAt(input, s + 1, s + 1, m, a) && ClosedAt(input, m)
    decreases a, 3
    ensures Cur(src, q).kind == BracketL && Step(src, q) == s + 1
    ensures LastToken(src, s + 1, a).Some? && Step(src, LastToken(src, s + 1, a).value) == m
  {
    SymbolAt(src, input, q, s);
    LexYields(src, input, s + 1, s + 1, m, a);
  }

  /** The comma at `m` and the end of a range rendered after it and its space. */
  lemma {:induction false} RangeMiddle(src: Source, input: seq<Byte>, m: nat, t: nat, b: Expr)
    requires LexedBy(src, input) && Reparsable(b) && WhitespaceEnd(input, m) == m && CharAt(input, m) == ','
    requires RenderedAt(input, m + 1, m + 2, t, b) && ClosedAt(input, t)
    decreases b, 3
    ensures Cur(src, m).kind == Comma && Step(src, m) == m + 1
    ensures LastToken(src, m + 1, b).Some? && Step(src, LastToken(src, m + 1, b).value) == t
  {
    SymbolAt(src, input, m, m);
    LexYields(src, input, m + 1, m + 2, t, b);
  }

  /** The closing bracket of a range rendered at `s`. */
  lemma RangeCloses(src: Source, input: seq<Byte>, s: nat, m: nat, t: nat, a: Expr, b: Expr)
    requires LexedBy(src, input) && RangeAt(input, s, m, t, a, b)
    ensures Cur(src, t).kind == BracketR && Step(src, t) == t + 1
  {
    SymbolAt(src, input, t, t);
  }

  /** The tokens of a range, put together: the bracket, the start's tokens, the comma, the
      end's tokens and the closing bracket, which is the last token. */
  lemma RangeJoin(src: Source, q: nat, s: nat, m: nat, t: nat, a: Expr, b: Expr)
    requires Cur(src, q).kind == BracketL && Step(src, q) == s + 1
    requires LastToken(src, s + 1, a).Some? && Step(src, LastToken(src, s + 1, a).value) == m
    requires Cur(src, m).kind == Comma && Step(src, m) == m + 1
    requires LastToken(src, m + 1, b).Some? && Step(src, LastToken(src, m + 1, b).value) == t
    requires Cur(src, t).kind == BracketR
    ensures LastToken(src, q, RangeExpression(a, b)) == Some(t)
  {
  }

  /** The range case of `LexYields`. */
  lemma {:induction false} RangeYields(src: Source, input: seq<Byte>, q: nat, s: nat, f: nat, a: Expr, b: Expr)
    requires LexedBy(src, input)
    requires Reparsable(a) && Reparsable(b) && RenderedAt(input, q, s, f, RangeExpression(a, b))
    decreases RangeExpression(a, b), 1
    ensures var l := LastToken(src, q, RangeExpression(a, b)); l.Some? && Step(src, l.value) == f
  {
    var m := s + 1 + |Render(a)|;
    var t := m + 2 + |Render(b)|;
    RangeText(input, s, f, m, t, a, b);
    RangeLeft(input, s, m, t, a, b);
    RangeRight(input, s, m, t, a, b);
    RangeStart(src, input, q, s, m, a);
    RangeMiddle(src, input, m, t, b);
    RangeCloses(src, input, s, m, t, a, b);
    RangeJoin(src, q, s, m, t, a, b);
  }

  // ---------------------------------------------------------------------------------------
  // Commands

  /** The renderings of a non-empty list: the first one, then those of the rest. */
  lemma RenderingsCons(args: seq<Expr>)
    requires |args| > 0
    ensures Renderings(args) == [Render(args[0])] + Renderings(args[1..])
  {
    var rs, tail := Renderings(args), Renderings(args[1..]);
    forall i | 0 <= i < |rs|
      ensures rs[i] == ([Render(args[0])] + tail)[i]
    {
      if i > 0 {
        assert args[1..][i - 1] == args[i];
      }
    }
  }

  /** Splitting the first argument off the joined renderings. */
  lemma ArgsTextCons(args: seq<Expr>)
    requires |args| > 0
    ensures ArgsText(args) == Render(args[0]) + (if |args| == 1 then "" else " " + ArgsText(args[1..]))
  {
    RenderingsCons(args);
    if |args| > 1 {
      JoinCons(Render(args[0]), Renderings(args[1..]), " ");
    }
  }

  /** From a position followed only by spaces, the lexer produces EOF. */
  lemma SpacesToEnd(input: seq<Byte>, p: nat)
    requires forall k :: p <= k < |input| ==> input[k] == ' '
    ensures Lex(input, p).tok.kind == Eof
  {
    NulIsEof(input, WhitespaceEnd(input, p));
  }

  /** Where the first argument's rendering lies in ` a rest…` placed at `p`, and what follows
      it. */
  lemma ArgsLayout(input: seq<Byte>, p: nat, args: seq<Expr>)
    requires |args| > 0 && p <= |input| && input[p..] == " " + ArgsText(args)
    ensures var e := p + 1 + |Render(args[0])|;
      && e <= |input| && input[p + 1..e] == Render(args[0])
      && (|args| == 1 ==> e == |input|)
      && (|args| > 1 ==> input[e..] == " " + ArgsText(args[1..]))
  {
    var ra := Render(args[0]);
    var e := p + 1 + |ra|;
    ArgsTextCons(args);
    assert input[p + 1..e] == input[p..][1..1 + |ra|];
    if |args| > 1 {
      assert input[e..] == input[p..][1 + |ra|..];
    }
  }

  /** Text ` a rest…` placed at `p` starts with the one space that the lexer skips to reach a
      token other than `:`, EOF and NEWLINE. */
  lemma ArgumentAhead(input: seq<Byte>, p: nat, args: seq<Expr>)
    requires |args| > 0 && p <= |input| && input[p..] == " " + ArgsText(args)
    requires Reparsable(args[0])
    ensures ClosedAt(input, p) && WhitespaceEnd(input, p) == p + 1
    ensures var k := Lex(input, p).tok.kind; k != Eof && k != Newline
  {
    ArgsLayout(input, p, args);
    assert input[p] == input[p..][0];
    StartsToken(input, p + 1, p + 1 + |Render(args[0])|, args[0]);
    RenderStart(args[0]);
    Placed(input, p + 1, Render(args[0]), p + 1);
    assert WhitespaceEnd(input, p + 1) == p + 1;
  }

  /** The lexer delivers the tokens of reparsable arguments rendered after `p`, each preceded
      by one space, with only spaces after the last. */
  lemma {:induction false} ArgsLexYield(src: Source, input: seq<Byte>, q: nat, p: nat, args: seq<Expr>)
    requires LexedBy(src, input) && Step(src, q) == p && p <= |input|
    requires forall i :: 0 <= i < |args| ==> Reparsable(args[i])
    requires args == [] ==> forall k :: p <= k < |input| ==> input[k] == ' '
    requires args != [] ==> input[p..] == " " + ArgsText(args)
    decreases |args|
    ensures ArgsYield(src, q, args)
  {
    if args == [] {
      SpacesToEnd(input, p);
    } else {
      var a, rest := args[0], args[1..];
      var e := p + 1 + |Render(a)|;
      ArgsLayout(input, p, args);
      ArgumentAhead(input, p, args);
      if rest == [] {
        assert WhitespaceEnd(input, e) == e;
      } else {
        ArgumentAhead(input, e, rest);
      }
      LexYields(src, input, p, p + 1, e, a);
      ArgsLexYield(src, input, LastToken(src, p, a).value, e, rest);
    }
  }

  /** Where the name and the arguments lie in a command's rendering. */
  lemma CommandLayout(c: RedisCommand, input: seq<Byte>)
    requires input == CommandString(c)
    ensures var w := c.command; |w| < |input| && input[0..|w|] == w && input[|w|] == ' '
    ensures var w := c.command;
      && (c.arguments == [] ==> |input| == |w| + 1)
      && (c.arguments != [] ==> input[|w|..] == " " + ArgsText(c.arguments))
  {
    var w := c.command;
    assert input == w + " " + ArgsText(c.arguments);
    assert input[0..|w|] == w;
    assert input[|w|..] == " " + ArgsText(c.arguments);
  }

  /** The command rule over a command's rendering builds that command without error, and
      the token source then stands before EOF. */
  lemma CommandParses(c: RedisCommand, input: seq<Byte>)
    requires IsWord(c.command) && Upper(c.command) !in Keywords
    requires forall i :: 0 <= i < |c.arguments| ==> Reparsable(c.arguments[i])
    requires input == CommandString(c)
    ensures var src := LexSource(input); var r := ParseCommandAt(src, |input|, 0);
      && r.value == Some(c) && r.errors == []
      && Cur(src, 0).kind == Ident && Peek(src, r.last).kind == Eof
  {
    var src := LexSource(input);
    var w := c.command;
    assert LexedBy(src, input);
    CommandLayout(c, input);
    WordAtOffset(input, 0, w);
    SourceAt(src, input, 0, 0);
    ArgsLexYield(src, input, 0, |w|, c.arguments);
    ArgsParseBack(src, |input|, 0, c.arguments);
  }

  /** A script whose first token starts a command that parses without error and is followed
      by EOF holds that one command. */
  lemma LoneCommand(src: Source, n: nat, c: RedisCommand)
    requires Scanner(src, n) && Cur(src, 0).kind == Ident
    requires var r := ParseCommandAt(src, n, 0);
      r.value == Some(c) && r.errors == [] && Peek(src, r.last).kind == Eof
    ensures ProgramFrom(src, n, 0).value == Some([c]) && ProgramFrom(src, n, 0).errors == []
  {
    var r := ParseCommandAt(src, n, 0);
    assert SkipNewlines(src, n, 0) == 0;
    assert ParseStatementAt(src, n, 0) == r;
    ProgramStep(src, n, 0);
    assert ProgramFrom(src, n, Step(src, r.last)) == Parsed(Some([]), Step(src, r.last), []);
    assert Built(r.value) + [] == [c] && r.errors + [] == [];
  }

  /** A command whose name is an unreserved word and whose arguments are reparsable renders
      to byte text that parses back into the same command without error, alone in its
      script. */
  lemma CommandRoundTrip(c: RedisCommand)
    requires IsWord(c.command) && Upper(c.command) !in Keywords
    requires forall i :: 0 <= i < |c.arguments| ==> Reparsable(c.arguments[i])
    ensures IsByteText(CommandString(c))
    ensures var input: seq<Byte> := CommandString(c); var src := LexSource(input);
      && ParseCommandAt(src, |input|, 0).value == Some(c) && ParseCommandAt(src, |input|, 0).errors == []
      && ProgramFrom(src, |input|, 0).value == Some([c]) && ProgramFrom(src, |input|, 0).errors == []
  {
    CommandIsByteText(c);
    var input: seq<Byte> := CommandString(c);
    CommandParses(c, input);
    LoneCommand(LexSource(input), |input|, c);
  }

  // ---------------------------------------------------------------------------------------
  // A string read from single quotes

  /** What `SET k 'a"b'` parses into: a string argument holding a bare `"`. */
  const QuotedCommand := RedisCommand("SET", [Identifier("k"), StringLiteral("a\"b")])

  /** A word placed at `s`, reached from `q` over whitespace and followed by a byte that
      cannot continue it, is the next token from `q`. */
  lemma WordLexed(input: seq<Byte>, q: nat, s: nat, w: string)
    requires IsWord(w) && WhitespaceEnd(input, q) == s
    requires s + |w| <= |input| && input[s..s + |w|] == w && !IsIdentChar(CharAt(input, s + |w|))
    ensures Lex(input, q).tok.kind == LookupIdent(Upper(w)) && Lex(input, q).tok.literal == w
    ensures Lex(input, q).next == s + |w|
  {
    WordAtOffset(input, s, w);
  }

  /** A quoted string placed at `s` and reached from `q` over whitespace is the next token
      from `q`. */
  lemma StringLexed(input: seq<Byte>, q: nat, s: nat, quote: Byte, body: seq<Byte>)
    requires (quote == '"' || quote == '\'') && WhitespaceEnd(input, q) == s
    requires s + 2 + |body| <= |input| && input[s] == quote
    requires input[s + 1..s + 1 + |body|] == body && input[s + 1 + |body|] == quote
    requires WellEscaped(body, quote)
    ensures Lex(input, q).tok.kind == StringLit && Lex(input, q).tok.literal == body
    ensures Lex(input, q).next == s + 2 + |body|
  {
    QuotedStringToken(input, s, quote, body);
  }

  /** The command word of a text that starts with `SET `. */
  lemma SetWord(input: seq<Byte>)
    requires |input| > 4 && input[..4] == "SET "
    ensures Lex(input, 0).tok.kind == Ident && Lex(input, 0).tok.literal == "SET" && Lex(input, 0).next == 3
  {
    assert input[0..3] == input[..4][0..3] == "SET";
    assert input[3] == input[..4][3] == ' ';
    assert WhitespaceEnd(input, 0) == 0;
    assert Upper("SET") == "SET";
    WordLexed(input, 0, 0, "SET");
  }

  /** The first argument of a text that starts with `SET k `. */
  lemma KeyWord(input: seq<Byte>)
    requires |input| > 6 && input[3..6] == " k "
    ensures Lex(input, 3).tok.kind == Ident && Lex(input, 3).tok.literal == "k" && Lex(input, 3).next == 5
  {
    assert input[4..5] == input[3..6][1..2] == "k";
    assert input[5] == input[3..6][2] == ' ';
    assert WhitespaceEnd(input, 3) == 4;
    assert Upper("k") == "K";
    WordLexed(input, 3, 4, "k");
  }

  /** The string of `SET k 'a"b'`, read from single quotes, holds a bare `"`. */
  lemma SingleQuotedString(input: seq<Byte>)
    requires input == "SET k 'a\"b'"
    ensures Lex(input, 5).tok.kind == StringLit && Lex(input, 5).tok.literal == "a\"b" && Lex(input, 5).next == 11
    ensures Lex(input, 11).tok.kind == Eof
  {
    assert WhitespaceEnd(input, 5) == 6;
    assert input[7..10] == "a\"b";
    StringLexed(input, 5, 6, '\'', "a\"b");
    EndIsEof(input);
  }

  /** In `SET k "a"b"` the string closes at the second `"`, and `b` is a word. */
  lemma RenderedString(input: seq<Byte>)
    requires input == "SET k \"a\"b\""
    ensures Lex(input, 5).tok.kind == StringLit && Lex(input, 5).tok.literal == "a" && Lex(input, 5).next == 9
    ensures Lex(input, 9).tok.kind == Ident && Lex(input, 9).tok.literal == "b" && Lex(input, 9).next == 10
  {
    assert WhitespaceEnd(input, 5) == 6 && WhitespaceEnd(input, 9) == 9;
    assert input[7..8] == "a" && input[9..10] == "b";
    StringLexed(input, 5, 6, '"', "a");
    assert Upper("b") == "B";
    WordLexed(input, 9, 9, "b");
  }

  /** In `SET k "a"b"` the last `"` opens an empty string that runs to the end. */
  lemma RenderedTail(input: seq<Byte>)
    requires input == "SET k \"a\"b\""
    ensures Lex(input, 10).tok.kind == StringLit && Lex(input, 10).tok.literal == "" && Lex(input, 10).next == 11
    ensures Lex(input, 11).tok.kind == Eof
  {
    assert WhitespaceEnd(input, 10) == 10;
    assert input[11..] == [];
    UnterminatedString(input, 10, '"');
    EndIsEof(input);
  }

  /** A command word, an unreserved word `w`, a string `v` and EOF: the command rule builds
      the command with an identifier and a string argument, without error. */
  lemma WordThenString(src: Source, n: nat, p1: nat, p2: nat, w: string, v: string)
    requires Scanner(src, n) && Cur(src, 0).kind == Ident
    requires Step(src, 0) == p1 && Cur(src, p1).kind == LookupIdent(Upper(w)) && Cur(src, p1).literal == w
    requires Upper(w) !in Keywords
    requires Step(src, p1) == p2 && Cur(src, p2).kind == StringLit && Cur(src, p2).literal == v
    requires Peek(src, p2).kind == Eof
    ensures ParseCommandAt(src, n, 0)
      == Parsed(Some(RedisCommand(Cur(src, 0).literal, [Identifier(w), StringLiteral(v)])), p2, [])
  {
    var none: seq<ParseError> := [];
    assert none + none == none;
    WordToken(src, n, p1, w);
    assert ParseExpr(src, n, p2) == Parsed(Some(StringLiteral(v)), p2, []);
    assert ArgsFrom(src, n, p2) == Parsed(Some([]), p2, []);
    ArgsStep(src, n, p1);
    assert Built(Some(StringLiteral(v))) + [] == [StringLiteral(v)];
    assert ArgsFrom(src, n, p1) == Parsed(Some([StringLiteral(v)]), p2, []);
    ArgsStep(src, n, 0);
    assert Built(Some(Identifier(w))) + [StringLiteral(v)] == [Identifier(w), StringLiteral(v)];
  }

  /** The arguments a source delivering `k`, the string `a`, `b` and an empty string yields. */
  lemma SplitQuoteArgs(src: Source)
    requires Step(src, 0) == 3 && Cur(src, 3).kind == Ident && Cur(src, 3).literal == "k"
    requires Step(src, 3) == 5 && Cur(src, 5).kind == StringLit && Cur(src, 5).literal == "a"
    requires Step(src, 5) == 9 && Cur(src, 9).kind == Ident && Cur(src, 9).literal == "b"
    requires Step(src, 9) == 10 && Cur(src, 10).kind == StringLit && Cur(src, 10).literal == ""
    requires Step(src, 10) == 11 && Cur(src, 11).kind == Eof
    ensures ArgsYield(src, 0, SplitArgs)
  {
    assert Upper("k") == "K" && Upper("b") == "B";
    var args := SplitArgs;
    assert ArgsYield(src, 10, args[4..]);
    assert ArgsYield(src, 9, args[3..]);
    assert ArgsYield(src, 5, args[2..]);
    assert ArgsYield(src, 3, args[1..]);
  }

  /** `SET k 'a"b'` parses into a command whose string argument holds a bare `"`. */
  lemma SingleQuotedParse(input: seq<Byte>)
    requires input == "SET k 'a\"b'"
    ensures ParseCommandAt(LexSource(input), |input|, 0) == Parsed(Some(QuotedCommand), 5, [])
  {
    assert input[..4] == "SET " && input[3..6] == " k ";
    SetWord(input);
    KeyWord(input);
    SingleQuotedString(input);
    assert Upper("k") == "K";
    WordThenString(LexSource(input), |input|, 3, 5, "k", "a\"b");
  }

  /** The rendering of that command: the string goes back between double quotes, where its
      `"` is bare. */
  lemma QuotedRendering()
    ensures CommandString(QuotedCommand) == "SET k \"a\"b\""
  {
    var rs := Renderings(QuotedCommand.arguments);
    assert rs[0] == Render(Identifier("k")) == "k";
    assert rs[1] == Render(StringLiteral("a\"b")) == "\"a\"b\"";
    assert rs[..1] == ["k"];
    assert Join(rs, " ") == "k" + " " + "\"a\"b\"";
  }

  /** The four arguments `SET k "a"b"` is read as. */
  const SplitArgs := [Identifier("k"), StringLiteral("a"), Identifier("b"), StringLiteral("")]

  /** Those four arguments survive a round trip of their own. */
  lemma SplitArgsReparsable()
    ensures forall i :: 0 <= i < |SplitArgs| ==> Reparsable(SplitArgs[i])
  {
    assert Upper("k") == "K" && Upper("b") == "B";
    assert Reparsable(SplitArgs[0]) && Reparsable(SplitArgs[1]);
    assert Reparsable(SplitArgs[2]) && Reparsable(SplitArgs[3]);
  }

  /** A command word followed by the tokens of `k`, the string `a`, `b`, an empty string and
      EOF: the command rule builds those four arguments without error. */
  lemma SplitQuoteCommand(src: Source, n: nat)
    requires Scanner(src, n) && Cur(src, 0).kind == Ident
    requires Step(src, 0) == 3 && Cur(src, 3).kind == Ident && Cur(src, 3).literal == "k"
    requires Step(src, 3) == 5 && Cur(src, 5).kind == StringLit && Cur(src, 5).literal == "a"
    requires Step(src, 5) == 9 && Cur(src, 9).kind == Ident && Cur(src, 9).literal == "b"
    requires Step(src, 9) == 10 && Cur(src, 10).kind == StringLit && Cur(src, 10).literal == ""
    requires Step(src, 10) == 11 && Cur(src, 11).kind == Eof
    ensures var r := ParseCommandAt(src, n, 0);
      r.value == Some(RedisCommand(Cur(src, 0).literal, SplitArgs)) && r.errors == []
  {
    SplitQuoteArgs(src);
    SplitArgsReparsable();
    ArgsParseBack(src, n, 0, SplitArgs);
  }

  /** `SET k "a"b"` parses into a command with four arguments: `k`, the string `a`, `b` and
      an empty string. */
  lemma RenderedParse(rendered: seq<Byte>)
    requires rendered == "SET k \"a\"b\""
    ensures var r := ParseCommandAt(LexSource(rendered), |rendered|, 0);
      r.value == Some(RedisCommand("SET", SplitArgs)) && r.errors == []
  {
    assert rendered[..4] == "SET " && rendered[3..6] == " k ";
    SetWord(rendered);
    KeyWord(rendered);
    RenderedString(rendered);
    RenderedTail(rendered);
    SplitQuoteCommand(LexSource(rendered), |rendered|);
  }

  /** `SET k 'a"b'` parses into a command whose string argument holds a bare `"`; its
      rendering `SET k "a"b"` parses into a different command, with four arguments. */
  lemma QuoteBreaksRoundTrip(input: seq<Byte>, rendered: seq<Byte>)
    requires input == "SET k 'a\"b'" && rendered == "SET k \"a\"b\""
    ensures ParseCommandAt(LexSource(input), |input|, 0).value == Some(QuotedCommand)
    ensures CommandString(QuotedCommand) == rendered
    ensures ParseCommandAt(LexSource(rendered), |rendered|, 0).value != Some(QuotedCommand)
  {
    SingleQuotedParse(input);
    QuotedRendering();
    RenderedParse(rendered);
  }
}
