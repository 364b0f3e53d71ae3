// Pattern expressions: how the parser merges a glob such as `user:*` out of several tokens.
//
// The lexer has no pattern token: `user:*` arrives as IDENT `user`, COLON and ASTERISK.  The
// parser starts a pattern at an identifier followed by `:` or at a bare `*` or `?`, then keeps
// appending the literal of every lookahead that is `*`, `?`, an identifier or `:`, and stops at
// the first lookahead that is anything else (an integer or a keyword among them).  This module
// states that run in terms of the tokens passed over, and works it through three texts.

module Patterns {
  import opened Wrappers
  import opened Text
  import opened Tokens
  import opened Lexer
  import opened Ast
  import opened Parser
  import opened ParserProperties
  import opened RoundTrip

  // ---------------------------------------------------------------------------------------
  // The run of pattern tokens

  /** The position the token source stands on `k` tokens after the one scanned from `q`. */
  function Walk(src: Source, q: nat, k: nat): nat
    decreases k
  {
    if k == 0 then q else Walk(src, Step(src, q), k - 1)
  }

  /** The literals of the `k` tokens that follow the one scanned from `q`, one after another. */
  function Literals(src: Source, q: nat, k: nat): string
    decreases k
  {
    if k == 0 then "" else Peek(src, q).literal + Literals(src, Step(src, q), k - 1)
  }

  /** The `k` tokens after the one scanned from `q` are all pattern parts and the token after
      them is not: a run of pattern tokens that cannot be extended. */
  predicate MaximalRun(src: Source, q: nat, k: nat)
  {
    (forall i :: 0 < i <= k ==> IsPatternPart(Cur(src, Walk(src, q, i)).kind))
    && !IsPatternPart(Peek(src, Walk(src, q, k)).kind)
  }

  /** One more token along: the walk ends on the position after the one it ended on. */
  lemma {:induction false} WalkOn(src: Source, q: nat, k: nat)
    decreases k
    ensures Walk(src, q, k + 1) == Step(src, Walk(src, q, k))
  {
    if k > 0 {
      WalkOn(src, Step(src, q), k - 1);
    }
  }

  /** A run of pattern tokens that cannot be extended has one length only. */
  lemma RunIsUnique(src: Source, q: nat, k: nat, m: nat)
    requires MaximalRun(src, q, k) && MaximalRun(src, q, m)
    ensures k == m
  {
    if k < m {
      WalkOn(src, q, k);
    } else if m < k {
      WalkOn(src, q, m);
    }
  }

  /** The pattern loop passes over exactly the maximal run of pattern tokens after `q`: it
      gathers their literals in order and stops on the last of them. */
  lemma {:induction false} PatternRunTokens(src: Source, n: nat, q: nat)
    requires Scanner(src, n)
    decreases Rem(n, q)
    ensures exists k: nat ::
      MaximalRun(src, q, k) && PatternRun(src, n, q) == (Literals(src, q, k), Walk(src, q, k))
  {
    if IsPatternPart(Peek(src, q).kind) {
      var p := Step(src, q);
      PatternRunTokens(src, n, p);
      var k: nat :| MaximalRun(src, p, k) && PatternRun(src, n, p) == (Literals(src, p, k), Walk(src, p, k));
      assert Walk(src, q, k + 1) == Walk(src, p, k);
      forall i | 0 < i <= k + 1
        ensures IsPatternPart(Cur(src, Walk(src, q, i)).kind)
      {
        assert Walk(src, q, i) == Walk(src, p, i - 1);
      }
      assert MaximalRun(src, q, k + 1);
    } else {
      assert MaximalRun(src, q, 0);
    }
  }

  /** `parsePatternExpression`: the current token's literal followed by the literals of the
      maximal run of pattern tokens after it, merged into one pattern with no error; the
      parser stands on the last token of the run. */
  lemma PatternMerges(src: Source, n: nat, q: nat)
    requires Scanner(src, n)
    ensures exists k: nat ::
      MaximalRun(src, q, k) && ParsePattern(src, n, q)
        == Parsed(Some(PatternExpression(Cur(src, q).literal + Literals(src, q, k))), Walk(src, q, k), [])
  {
    PatternRunTokens(src, n, q);
  }

  /** A pattern starts at an identifier followed by `:` or at a bare `*` or `?`, and nowhere
      else; there the expression rule is the pattern rule. */
  lemma PatternStarts(src: Source, n: nat, q: nat)
    requires Scanner(src, n)
    ensures var r := ParseExpr(src, n, q); var t := Cur(src, q);
      (r.value.Some? && r.value.value.PatternExpression?)
      <==> (t.kind == Ident && Peek(src, q).kind == Colon) || t.kind == Asterisk || t.kind == Question
    ensures var t := Cur(src, q);
      (t.kind == Ident && Peek(src, q).kind == Colon) || t.kind == Asterisk || t.kind == Question
      ==> ParseExpr(src, n, q) == ParsePattern(src, n, q)
  {
  }

  // ---------------------------------------------------------------------------------------
  // Three texts, one token at a time

  /** A one-byte `:`, `*` or `?` reached from `q` over whitespace is the next token. */
  lemma SymbolLexed(input: seq<Byte>, q: nat, s: nat)
    requires WhitespaceEnd(input, q) == s && s < |input| && input[s] in ":*?"
    ensures Lex(input, q).tok.kind == SymbolKind(input[s]) && Lex(input, q).tok.literal == [input[s]]
    ensures Lex(input, q).next == s + 1
  {
    assert CharAt(input, s) == input[s];
  }

  /** One space before a byte that is not whitespace is skipped, and no more. */
  lemma OneSpace(input: seq<Byte>, q: nat)
    requires q + 1 < |input| && input[q] == ' ' && !IsWhitespace(input[q + 1])
    ensures WhitespaceEnd(input, q) == q + 1
  {
    assert CharAt(input, q + 1) == input[q + 1];
    assert WhitespaceEnd(input, q + 1) == q + 1;
  }

  /** An argument that parses without error in front of arguments that do. */
  lemma ArgsPrepend(src: Source, n: nat, q: nat, e: Expr, l: nat, rest: seq<Expr>, last: nat)
    requires Scanner(src, n) && Peek(src, q).kind != Eof && Peek(src, q).kind != Newline
    requires ParseExpr(src, n, Step(src, q)) == Parsed(Some(e), l, [])
    requires ArgsFrom(src, n, l) == Parsed(Some(rest), last, [])
    ensures ArgsFrom(src, n, q) == Parsed(Some([e] + rest), last, [])
  {
    ArgsStep(src, n, q);
    var none: seq<ParseError> := [];
    assert none + none == none;
  }

  /** The word `user` is not reserved. */
  lemma UserUnreserved()
    ensures LookupIdent(Upper("user")) == Ident
  {
    assert Upper("user") == "USER";
  }

  /** Neither command word is reserved. */
  lemma CommandWordsUnreserved()
    ensures LookupIdent(Upper("GET")) == Ident && LookupIdent(Upper("SCAN")) == Ident
  {
    assert Upper("GET") == "GET" && Upper("SCAN") == "SCAN";
  }

  /** `MATCH` and `COUNT` are the reserved words of their keyword kinds. */
  lemma ScanKeywords()
    ensures LookupIdent(Upper("MATCH")) == Match && LookupIdent(Upper("COUNT")) == Count
  {
    assert Upper("MATCH") == "MATCH" && Upper("COUNT") == "COUNT";
  }

  // `user:*`

  /** The first token of `user:*`. */
  lemma UserStarWord(input: seq<Byte>)
    requires input == "user:*"
    ensures Lex(input, 0).tok.kind == Ident && Lex(input, 0).tok.literal == "user" && Lex(input, 0).next == 4
  {
    assert WhitespaceEnd(input, 0) == 0;
    assert input[0..4] == "user";
    assert CharAt(input, 4) == ':';
    WordAtOffset(input, 0, "user");
    UserUnreserved();
  }

  /** The last tokens of `user:*`: COLON, ASTERISK, then EOF. */
  lemma UserStarSymbols(input: seq<Byte>)
    requires input == "user:*"
    ensures Lex(input, 4).tok.kind == Colon && Lex(input, 4).tok.literal == ":" && Lex(input, 4).next == 5
    ensures Lex(input, 5).tok.kind == Asterisk && Lex(input, 5).tok.literal == "*" && Lex(input, 5).next == 6
    ensures Lex(input, 6).tok.kind == Eof
  {
    assert WhitespaceEnd(input, 4) == 4 && WhitespaceEnd(input, 5) == 5;
    SymbolLexed(input, 4, 4);
    SymbolLexed(input, 5, 5);
    EndIsEof(input);
  }

  /** An identifier, `:` and `*` before EOF: one pattern holding all three literals. */
  lemma IdentColonStar(src: Source, n: nat, w: string)
    requires Scanner(src, n)
    requires Cur(src, 0).kind == Ident && Cur(src, 0).literal == w && Step(src, 0) == 4
    requires Cur(src, 4).kind == Colon && Cur(src, 4).literal == ":" && Step(src, 4) == 5
    requires Cur(src, 5).kind == Asterisk && Cur(src, 5).literal == "*" && Step(src, 5) == 6
    requires Cur(src, 6).kind == Eof
    ensures ParseExpr(src, n, 0) == Parsed(Some(PatternExpression(w + ":*")), 5, [])
  {
    assert PatternRun(src, n, 5) == ("", 5);
    PatternRunStep(src, n, 4);
    PatternRunStep(src, n, 0);
    assert w + (":" + ("*" + "")) == w + ":*";
  }

  /** `user:*` is one pattern expression. */
  lemma UserStarPattern(input: seq<Byte>)
    requires input == "user:*"
    ensures ParseExpr(LexSource(input), |input|, 0) == Parsed(Some(PatternExpression("user:*")), 5, [])
  {
    UserStarWord(input);
    UserStarSymbols(input);
    IdentColonStar(LexSource(input), |input|, "user");
    assert "user" + ":*" == "user:*";
  }

  // `GET user:1`

  /** The command word of `GET user:1`. */
  lemma GetWord(input: seq<Byte>)
    requires input == "GET user:1"
    ensures Lex(input, 0).tok.kind == Ident && Lex(input, 0).tok.literal == "GET" && Lex(input, 0).next == 3
  {
    assert WhitespaceEnd(input, 0) == 0;
    assert input[0..3] == "GET";
    assert CharAt(input, 3) == ' ';
    WordAtOffset(input, 0, "GET");
    CommandWordsUnreserved();
  }

  /** The identifier of `GET user:1`. */
  lemma GetUserWord(input: seq<Byte>)
    requires input == "GET user:1"
    ensures Lex(input, 3).tok.kind == Ident && Lex(input, 3).tok.literal == "user" && Lex(input, 3).next == 8
  {
    OneSpace(input, 3);
    assert input[4..8] == "user";
    assert CharAt(input, 8) == ':';
    WordAtOffset(input, 4, "user");
    UserUnreserved();
  }

  /** The colon of `GET user:1`. */
  lemma GetUserColon(input: seq<Byte>)
    requires input == "GET user:1"
    ensures Lex(input, 8).tok.kind == Colon && Lex(input, 8).tok.literal == ":" && Lex(input, 8).next == 9
  {
    assert WhitespaceEnd(input, 8) == 8;
    SymbolLexed(input, 8, 8);
  }

  /** The integer of `GET user:1`, then EOF. */
  lemma GetUserInteger(input: seq<Byte>)
    requires input == "GET user:1"
    ensures Lex(input, 9).tok.kind == IntLit && Lex(input, 9).tok.literal == "1" && Lex(input, 9).next == 10
    ensures Lex(input, 10).tok.kind == Eof
  {
    assert WhitespaceEnd(input, 9) == 9;
    assert IntToString(1) == "1";
    assert input[9..10] == "1";
    IntegerAtOffset(input, 9, 1);
    EndIsEof(input);
  }

  /** An identifier and `:` with an INT after them: the integer is not a pattern part, so the
      pattern is the identifier and the colon and stops on the colon. */
  lemma IntegerAfterColon(src: Source, n: nat, w: string)
    requires Scanner(src, n)
    requires Cur(src, 3).kind == Ident && Cur(src, 3).literal == w && Step(src, 3) == 8
    requires Cur(src, 8).kind == Colon && Cur(src, 8).literal == ":" && Step(src, 8) == 9
    requires Cur(src, 9).kind == IntLit
    ensures ParseExpr(src, n, 3) == Parsed(Some(PatternExpression(w + ":")), 8, [])
  {
    assert PatternRun(src, n, 8) == ("", 8);
    PatternRunStep(src, n, 3);
    assert w + (":" + "") == w + ":";
  }

  /** A command word, then an identifier, `:` and INT `1` before EOF: the pattern stops before
      the integer, and the integer is a second argument. */
  lemma IntegerEndsPattern(src: Source, n: nat, w: string)
    requires Scanner(src, n) && Cur(src, 0).kind == Ident && Step(src, 0) == 3
    requires Cur(src, 3).kind == Ident && Cur(src, 3).literal == w && Step(src, 3) == 8
    requires Cur(src, 8).kind == Colon && Cur(src, 8).literal == ":" && Step(src, 8) == 9
    requires Cur(src, 9).kind == IntLit && Cur(src, 9).literal == "1" && Step(src, 9) == 10
    requires Cur(src, 10).kind == Eof
    ensures ParseCommandAt(src, n, 0)
      == Parsed(Some(RedisCommand(Cur(src, 0).literal, [PatternExpression(w + ":"), IntegerLiteral(1)])), 9, [])
  {
    IntegerAfterColon(src, n, w);
    ParseGoIntRoundTrip(1);
    assert IntToString(1) == "1";
    IntegerToken(src, n, 9, 1);
    assert ArgsFrom(src, n, 9) == Parsed(Some([]), 9, []);
    ArgsPrepend(src, n, 8, IntegerLiteral(1), 9, [], 9);
    assert [IntegerLiteral(1)] + [] == [IntegerLiteral(1)];
    ArgsPrepend(src, n, 0, PatternExpression(w + ":"), 8, [IntegerLiteral(1)], 9);
    assert [PatternExpression(w + ":")] + [IntegerLiteral(1)] == [PatternExpression(w + ":"), IntegerLiteral(1)];
  }

  /** `GET user:1` has two arguments: the pattern `user:` and the integer 1. */
  lemma GetUserOneParse(input: seq<Byte>)
    requires input == "GET user:1"
    ensures ParseCommandAt(LexSource(input), |input|, 0)
      == Parsed(Some(RedisCommand("GET", [PatternExpression("user:"), IntegerLiteral(1)])), 9, [])
  {
    GetWord(input);
    GetUserWord(input);
    GetUserColon(input);
    GetUserInteger(input);
    IntegerEndsPattern(LexSource(input), |input|, "user");
    assert "user" + ":" == "user:";
  }

  // `SCAN 0 MATCH user:* COUNT 10`

  /** The arguments of `SCAN 0 MATCH user:* COUNT 10`. */
  const ScanArgs := [IntegerLiteral(0), KeywordExpression("MATCH"), PatternExpression("user:*"),
                     KeywordExpression("COUNT"), IntegerLiteral(10)]

  /** The command word of the SCAN text. */
  lemma ScanWord(input: seq<Byte>)
    requires input == "SCAN 0 MATCH user:* COUNT 10"
    ensures Lex(input, 0).tok.kind == Ident && Lex(input, 0).tok.literal == "SCAN" && Lex(input, 0).next == 4
  {
    assert WhitespaceEnd(input, 0) == 0;
    assert input[0..4] == "SCAN";
    assert CharAt(input, 4) == ' ';
    WordAtOffset(input, 0, "SCAN");
    CommandWordsUnreserved();
  }

  /** The cursor argument of the SCAN text. */
  lemma ScanZero(input: seq<Byte>)
    requires input == "SCAN 0 MATCH user:* COUNT 10"
    ensures Lex(input, 4).tok.kind == IntLit && Lex(input, 4).tok.literal == "0" && Lex(input, 4).next == 6
  {
    assert WhitespaceEnd(input, 4) == 5;
    assert IntToString(0) == "0";
    assert input[5..6] == "0";
    IntegerAtOffset(input, 5, 0);
  }

  /** The keyword `MATCH` of the SCAN text. */
  lemma ScanMatch(input: seq<Byte>)
    requires input == "SCAN 0 MATCH user:* COUNT 10"
    ensures Lex(input, 6).tok.kind == Match && Lex(input, 6).tok.literal == "MATCH" && Lex(input, 6).next == 12
  {
    OneSpace(input, 6);
    assert input[7..12] == "MATCH";
    assert CharAt(input, 12) == ' ';
    WordAtOffset(input, 7, "MATCH");
    ScanKeywords();
  }

  /** The identifier that starts the pattern of the SCAN text. */
  lemma ScanUser(input: seq<Byte>)
    requires input == "SCAN 0 MATCH user:* COUNT 10"
    ensures Lex(input, 12).tok.kind == Ident && Lex(input, 12).tok.literal == "user" && Lex(input, 12).next == 17
  {
    OneSpace(input, 12);
    assert input[13..17] == "user";
    assert CharAt(input, 17) == ':';
    WordAtOffset(input, 13, "user");
    UserUnreserved();
  }

  /** The `:` and `*` of the pattern of the SCAN text. */
  lemma ScanSymbols(input: seq<Byte>)
    requires input == "SCAN 0 MATCH user:* COUNT 10"
    ensures Lex(input, 17).tok.kind == Colon && Lex(input, 17).tok.literal == ":" && Lex(input, 17).next == 18
    ensures Lex(input, 18).tok.kind == Asterisk && Lex(input, 18).tok.literal == "*" && Lex(input, 18).next == 19
  {
    assert WhitespaceEnd(input, 17) == 17 && WhitespaceEnd(input, 18) == 18;
    SymbolLexed(input, 17, 17);
    SymbolLexed(input, 18, 18);
  }

  /** The keyword `COUNT` of the SCAN text. */
  lemma ScanCount(input: seq<Byte>)
    requires input == "SCAN 0 MATCH user:* COUNT 10"
    ensures Lex(input, 19).tok.kind == Count && Lex(input, 19).tok.literal == "COUNT" && Lex(input, 19).next == 25
  {
    OneSpace(input, 19);
    assert input[20..25] == "COUNT";
    assert CharAt(input, 25) == ' ';
    WordAtOffset(input, 20, "COUNT");
    ScanKeywords();
  }

  /** The count argument of the SCAN text, then EOF. */
  lemma ScanTen(input: seq<Byte>)
    requires input == "SCAN 0 MATCH user:* COUNT 10"
    ensures Lex(input, 25).tok.kind == IntLit && Lex(input, 25).tok.literal == "10" && Lex(input, 25).next == 28
    ensures Lex(input, 28).tok.kind == Eof
  {
    assert WhitespaceEnd(input, 25) == 26;
    assert IntToString(10) == "10";
    assert input[26..28] == "10";
    IntegerAtOffset(input, 26, 10);
    EndIsEof(input);
  }

  /** The pattern between the two keywords of the SCAN text stops at `COUNT`. */
  lemma ScanPattern(src: Source, n: nat)
    requires Scanner(src, n)
    requires Cur(src, 12).kind == Ident && Cur(src, 12).literal == "user" && Step(src, 12) == 17
    requires Cur(src, 17).kind == Colon && Cur(src, 17).literal == ":" && Step(src, 17) == 18
    requires Cur(src, 18).kind == Asterisk && Cur(src, 18).literal == "*" && Step(src, 18) == 19
    requires Cur(src, 19).kind == Count
    ensures ParseExpr(src, n, 12) == Parsed(Some(PatternExpression("user:*")), 18, [])
  {
    assert PatternRun(src, n, 18) == ("", 18);
    PatternRunStep(src, n, 17);
    PatternRunStep(src, n, 12);
    assert "user" + (":" + ("*" + "")) == "user:*";
  }

  /** The arguments after the pattern of the SCAN text: `COUNT` and 10. */
  lemma ScanTail(src: Source, n: nat)
    requires Scanner(src, n)
    requires Step(src, 18) == 19 && Cur(src, 19).kind == Count && Cur(src, 19).literal == "COUNT"
    requires Step(src, 19) == 25 && Cur(src, 25).kind == IntLit && Cur(src, 25).literal == "10"
    requires Step(src, 25) == 28 && Cur(src, 28).kind == Eof
    ensures ArgsFrom(src, n, 18) == Parsed(Some(ScanArgs[3..]), 25, [])
  {
    ParseGoIntRoundTrip(10);
    assert IntToString(10) == "10";
    IntegerToken(src, n, 25, 10);
    assert ArgsFrom(src, n, 25) == Parsed(Some([]), 25, []);
    ArgsPrepend(src, n, 19, IntegerLiteral(10), 25, [], 25);
    assert [IntegerLiteral(10)] + [] == ScanArgs[4..];
    assert ParseExpr(src, n, 19) == Parsed(Some(KeywordExpression("COUNT")), 19, []);
    ArgsPrepend(src, n, 18, KeywordExpression("COUNT"), 19, ScanArgs[4..], 25);
    assert [KeywordExpression("COUNT")] + ScanArgs[4..] == ScanArgs[3..];
  }

  /** A source delivering the tokens of the SCAN text yields its five arguments, the pattern
      among them as one node. */
  lemma ScanArguments(src: Source, n: nat)
    requires Scanner(src, n) && Step(src, 0) == 4
    requires Cur(src, 4).kind == IntLit && Cur(src, 4).literal == "0" && Step(src, 4) == 6
    requires Cur(src, 6).kind == Match && Cur(src, 6).literal == "MATCH" && Step(src, 6) == 12
    requires Cur(src, 12).kind == Ident && Cur(src, 12).literal == "user" && Step(src, 12) == 17
    requires ArgsFrom(src, n, 18) == Parsed(Some(ScanArgs[3..]), 25, [])
    requires ParseExpr(src, n, 12) == Parsed(Some(PatternExpression("user:*")), 18, [])
    ensures ArgsFrom(src, n, 0) == Parsed(Some(ScanArgs), 25, [])
  {
    ArgsPrepend(src, n, 6, PatternExpression("user:*"), 18, ScanArgs[3..], 25);
    assert [PatternExpression("user:*")] + ScanArgs[3..] == ScanArgs[2..];
    assert ParseExpr(src, n, 6) == Parsed(Some(KeywordExpression("MATCH")), 6, []);
    ArgsPrepend(src, n, 4, KeywordExpression("MATCH"), 6, ScanArgs[2..], 25);
    assert [KeywordExpression("MATCH")] + ScanArgs[2..] == ScanArgs[1..];
    ParseGoIntZero();
    IntegerToken(src, n, 4, 0);
    ArgsPrepend(src, n, 0, IntegerLiteral(0), 4, ScanArgs[1..], 25);
    assert [IntegerLiteral(0)] + ScanArgs[1..] == ScanArgs;
  }

  /** `SCAN 0 MATCH user:* COUNT 10` parses without error into one SCAN command with five
      arguments, the third of them the pattern `user:*`. */
  lemma ScanMatchParse(input: seq<Byte>)
    requires input == "SCAN 0 MATCH user:* COUNT 10"
    ensures ParseCommandAt(LexSource(input), |input|, 0) == Parsed(Some(RedisCommand("SCAN", ScanArgs)), 25, [])
    ensures ProgramFrom(LexSource(input), |input|, 0).value == Some([RedisCommand("SCAN", ScanArgs)])
    ensures ProgramFrom(LexSource(input), |input|, 0).errors == []
  {
    var src := LexSource(input);
    ScanWord(input);
    ScanZero(input);
    ScanMatch(input);
    ScanUser(input);
    ScanSymbols(input);
    ScanCount(input);
    ScanTen(input);
    ScanPattern(src, |input|);
    ScanTail(src, |input|);
    ScanArguments(src, |input|);
    LoneCommand(src, |input|, RedisCommand("SCAN", ScanArgs));
  }
}
