/** Option-scan and validation behaviours of the built-in specs, for commands shaped like the
    ones backend/semantic/analyzer_test.go exercises.  The key and value arguments are left
    open: any expressions that are not keywords. */
module SemanticExamples {
  import opened Wrappers
  import opened Text
  import opened Ast
  import opened Semantic

  function Kw(s: string): Expr { KeywordExpression(s) }
  function Int(n: int): Expr { IntegerLiteral(n) }

  /** The key and the value of a command are not keywords, so the option scan passes over
      them without a finding. */
  lemma KeyAndValueSkipped(cmd: RedisCommand, spec: CommandSpec)
    requires |cmd.arguments| >= 2
    requires !cmd.arguments[0].KeywordExpression? && !cmd.arguments[1].KeywordExpression?
    ensures OptionIssues(cmd, spec) == OptionScan(cmd, spec, 2, {})
  {
    ScanPassesOver(cmd, spec, 0, {});
    ScanPassesOver(cmd, spec, 1, {});
  }

  /** The options of SET. */
  lemma SetOptions()
    ensures SetSpec.options.Keys == {"EX", "PX", "NX", "XX"}
    ensures SetSpec.options["EX"] == OptionSpec(true, "integer", "Set expiry in seconds", [])
    ensures SetSpec.options["PX"] == OptionSpec(true, "integer", "Set expiry in milliseconds", ["EX"])
    ensures SetSpec.options["NX"].conflicts == ["XX"] && !SetSpec.options["NX"].hasValue
    ensures SetSpec.options["XX"].conflicts == ["NX"] && !SetSpec.options["XX"].hasValue
  {
  }

  /** SET k v EX 60 PX 60000: PX lists EX among its conflicts, and EX was seen first. */
  lemma ExThenPxConflicts(k: Expr, v: Expr)
    requires !k.KeywordExpression? && !v.KeywordExpression?
    ensures OptionIssues(RedisCommand("SET", [k, v, Kw("EX"), Int(60), Kw("PX"), Int(60000)]), SetSpec)
      == Issues([SemanticError(OptionConflict("PX", "EX"), "SET")], [])
  {
    var cmd := RedisCommand("SET", [k, v, Kw("EX"), Int(60), Kw("PX"), Int(60000)]);
    KeyAndValueSkipped(cmd, SetSpec);
    ExPxAtEnd(cmd, 60, 60000);
  }

  /** SET k v PX 60000 EX 60: EX lists no conflicts, so the reverse order is accepted. */
  lemma PxThenExAccepted(k: Expr, v: Expr)
    requires !k.KeywordExpression? && !v.KeywordExpression?
    ensures OptionIssues(RedisCommand("SET", [k, v, Kw("PX"), Int(60000), Kw("EX"), Int(60)]), SetSpec)
      == NoIssues
  {
    var cmd := RedisCommand("SET", [k, v, Kw("PX"), Int(60000), Kw("EX"), Int(60)]);
    KeyAndValueSkipped(cmd, SetSpec);
    PxExAtEnd(cmd, 60000, 60);
  }

  /** EX then PX, both positive, as the last four arguments of a SET: PX conflicts. */
  lemma ExPxAtEnd(cmd: RedisCommand, m: int, n: int)
    requires cmd.command == "SET" && |cmd.arguments| == 6 && m > 0 && n > 0
    requires cmd.arguments[2] == Kw("EX") && cmd.arguments[3] == Int(m)
    requires cmd.arguments[4] == Kw("PX") && cmd.arguments[5] == Int(n)
    ensures OptionScan(cmd, SetSpec, 2, {}) == Issues([SemanticError(OptionConflict("PX", "EX"), "SET")], [])
  {
    SetOptions();
    PositiveExpiry(cmd, 2, {}, "EX", m);
    PositiveExpiry(cmd, 4, {"EX"}, "PX", n);
    assert {} + {"EX"} == {"EX"};
    assert ConflictErrors([], {}, "EX", "SET") == [];
    assert ConflictErrors(["EX"], {"EX"}, "PX", "SET") == [SemanticError(OptionConflict("PX", "EX"), "SET")];
    assert OptionScan(cmd, SetSpec, 6, {"EX", "PX"}) == NoIssues;
  }

  /** PX then EX, both positive, as the last four arguments of a SET: no issue. */
  lemma PxExAtEnd(cmd: RedisCommand, m: int, n: int)
    requires cmd.command == "SET" && |cmd.arguments| == 6 && m > 0 && n > 0
    requires cmd.arguments[2] == Kw("PX") && cmd.arguments[3] == Int(m)
    requires cmd.arguments[4] == Kw("EX") && cmd.arguments[5] == Int(n)
    ensures OptionScan(cmd, SetSpec, 2, {}) == NoIssues
  {
    SetOptions();
    PositiveExpiry(cmd, 2, {}, "PX", m);
    PositiveExpiry(cmd, 4, {"PX"}, "EX", n);
    assert {} + {"PX"} == {"PX"};
    assert ConflictErrors(["EX"], {}, "PX", "SET") == [];
    assert ConflictErrors([], {"PX"}, "EX", "SET") == [];
    assert OptionScan(cmd, SetSpec, 6, {"PX", "EX"}) == NoIssues;
  }

  /** A positive EX or PX value: the only issues are the option's conflicts, and the scan
      goes on after the value. */
  lemma PositiveExpiry(cmd: RedisCommand, i: nat, used: set<string>, name: string, n: int)
    requires i + 1 < |cmd.arguments| && (name == "EX" || name == "PX")
    requires cmd.arguments[i] == Kw(name) && cmd.arguments[i + 1] == Int(n) && n > 0
    ensures OptionScan(cmd, SetSpec, i, used) ==
      Then(Issues(ConflictErrors(SetSpec.options[name].conflicts, used, name, cmd.command), []),
           OptionScan(cmd, SetSpec, i + 2, used + {name}))
  {
    SetOptions();
    assert Upper("EX") == "EX" && Upper("PX") == "PX";
    ScanValued(cmd, SetSpec, i, used, name);
    IntegerOptionValue(name, SetSpec.options[name], n);
    var conflicts := ConflictErrors(SetSpec.options[name].conflicts, used, name, cmd.command);
    assert conflicts + [] == conflicts;
  }

  /** NX then XX as the last two arguments of a SET, with no option seen before: XX lists
      NX, seen before it. */
  lemma NxXxAtEnd(cmd: RedisCommand, i: nat)
    requires cmd.command == "SET" && |cmd.arguments| == i + 2
    requires cmd.arguments[i] == Kw("NX") && cmd.arguments[i + 1] == Kw("XX")
    ensures OptionScan(cmd, SetSpec, i, {}) == Issues([SemanticError(OptionConflict("XX", "NX"), "SET")], [])
  {
    assert Upper("NX") == "NX" && Upper("XX") == "XX";
    SetOptions();
    ScanFlag(cmd, SetSpec, i, {}, "NX");
    ScanFlag(cmd, SetSpec, i + 1, {"NX"}, "XX");
    assert ConflictErrors(["XX"], {}, "NX", "SET") == [];
    assert ConflictErrors(["NX"], {"NX"}, "XX", "SET") == [SemanticError(OptionConflict("XX", "NX"), "SET")];
    assert {} + {"NX"} == {"NX"};
  }

  /** SET k v NX XX: the pair conflicts. */
  lemma NxThenXxConflicts(k: Expr, v: Expr)
    requires !k.KeywordExpression? && !v.KeywordExpression?
    ensures OptionIssues(RedisCommand("SET", [k, v, Kw("NX"), Kw("XX")]), SetSpec)
      == Issues([SemanticError(OptionConflict("XX", "NX"), "SET")], [])
  {
    var cmd := RedisCommand("SET", [k, v, Kw("NX"), Kw("XX")]);
    KeyAndValueSkipped(cmd, SetSpec);
    NxXxAtEnd(cmd, 2);
  }

  /** SET k v XX NX: NX lists XX, seen before it, so the pair conflicts in this order too. */
  lemma XxThenNxConflicts(k: Expr, v: Expr)
    requires !k.KeywordExpression? && !v.KeywordExpression?
    ensures OptionIssues(RedisCommand("SET", [k, v, Kw("XX"), Kw("NX")]), SetSpec)
      == Issues([SemanticError(OptionConflict("NX", "XX"), "SET")], [])
  {
    var cmd := RedisCommand("SET", [k, v, Kw("XX"), Kw("NX")]);
    assert Upper("NX") == "NX" && Upper("XX") == "XX";
    KeyAndValueSkipped(cmd, SetSpec);
    SetOptions();
    ScanFlag(cmd, SetSpec, 2, {}, "XX");
    ScanFlag(cmd, SetSpec, 3, {"XX"}, "NX");
    assert ConflictErrors(["NX"], {}, "XX", "SET") == [];
    assert ConflictErrors(["XX"], {"XX"}, "NX", "SET") == [SemanticError(OptionConflict("NX", "XX"), "SET")];
    assert {} + {"XX"} == {"XX"};
  }

  /** SET k v ex t with t <= 0: the expiry is out of range, the error names the command
      "unknown", and the keyword is matched whatever its letter case. */
  lemma ExpiryMustBePositive(k: Expr, v: Expr, t: int)
    requires !k.KeywordExpression? && !v.KeywordExpression? && t <= 0
    ensures OptionIssues(RedisCommand("SET", [k, v, Kw("ex"), Int(t)]), SetSpec)
      == Issues([SemanticError(InvalidValueRange(t), "unknown")], [])
  {
    var cmd := RedisCommand("SET", [k, v, Kw("ex"), Int(t)]);
    assert Upper("ex") == "EX";
    KeyAndValueSkipped(cmd, SetSpec);
    SetOptions();
    ScanValued(cmd, SetSpec, 2, {}, "ex");
    IntegerOptionValue("EX", SetSpec.options["EX"], t);
    assert ConflictErrors([], {}, "EX", "SET") == [];
  }

  /** SET k v EX: the option needs a value and none is left. */
  lemma MissingExpiry(k: Expr, v: Expr)
    requires !k.KeywordExpression? && !v.KeywordExpression?
    ensures OptionIssues(RedisCommand("SET", [k, v, Kw("EX")]), SetSpec)
      == Issues([SemanticError(MissingOptionValue("EX"), "SET")], [])
  {
    var cmd := RedisCommand("SET", [k, v, Kw("EX")]);
    assert Upper("EX") == "EX";
    KeyAndValueSkipped(cmd, SetSpec);
    SetOptions();
    ScanValued(cmd, SetSpec, 2, {}, "EX");
    assert ConflictErrors([], {}, "EX", "SET") == [];
  }

  /** SET k v EX NX XX: EX takes NX as its value whatever its kind, so NX is never seen as an
      option and XX does not conflict. */
  lemma ValueTakenWhateverItsKind(k: Expr, v: Expr)
    requires !k.KeywordExpression? && !v.KeywordExpression?
    ensures OptionIssues(RedisCommand("SET", [k, v, Kw("EX"), Kw("NX"), Kw("XX")]), SetSpec)
      == Issues([SemanticError(OptionTypeMismatch("EX", "KeywordExpression"), "unknown")], [])
  {
    var cmd := RedisCommand("SET", [k, v, Kw("EX"), Kw("NX"), Kw("XX")]);
    KeyAndValueSkipped(cmd, SetSpec);
    ExNxXxAtEnd(cmd);
  }

  /** EX, NX, XX as the last three arguments of a SET. */
  lemma ExNxXxAtEnd(cmd: RedisCommand)
    requires cmd.command == "SET" && |cmd.arguments| == 5
    requires cmd.arguments[2] == Kw("EX") && cmd.arguments[3] == Kw("NX") && cmd.arguments[4] == Kw("XX")
    ensures OptionScan(cmd, SetSpec, 2, {})
      == Issues([SemanticError(OptionTypeMismatch("EX", "KeywordExpression"), "unknown")], [])
  {
    assert Upper("EX") == "EX" && Upper("XX") == "XX";
    SetOptions();
    ScanValued(cmd, SetSpec, 2, {}, "EX");
    ScanFlag(cmd, SetSpec, 4, {"EX"}, "XX");
    assert ValueIssues("EX", SetSpec.options["EX"], Kw("NX"))
      == Issues([SemanticError(OptionTypeMismatch("EX", "KeywordExpression"), "unknown")], []);
    assert ConflictErrors([], {}, "EX", "SET") == [];
    assert ConflictErrors(["NX"], {"EX"}, "XX", "SET") == [];
    assert {} + {"EX"} == {"EX"};
    assert OptionScan(cmd, SetSpec, 5, {"EX", "XX"}) == NoIssues;
  }

  lemma MatchIsNotASetOption()
    ensures Upper("MATCH") == "MATCH" && "MATCH" !in SetSpec.options
  {
    SetOptions();
  }

  /** SET k v MATCH NX XX: MATCH is not an option of SET; it only warns and does not take NX,
      so NX and XX still conflict. */
  lemma UnknownOptionOnlyWarns(k: Expr, v: Expr)
    requires !k.KeywordExpression? && !v.KeywordExpression?
    ensures OptionIssues(RedisCommand("SET", [k, v, Kw("MATCH"), Kw("NX"), Kw("XX")]), SetSpec)
      == Issues([SemanticError(OptionConflict("XX", "NX"), "SET")], [UnknownOption("MATCH", "SET")])
  {
    var cmd := RedisCommand("SET", [k, v, Kw("MATCH"), Kw("NX"), Kw("XX")]);
    KeyAndValueSkipped(cmd, SetSpec);
    MatchNxXxAtEnd(cmd);
  }

  /** MATCH, NX, XX as the last three arguments of a SET. */
  lemma MatchNxXxAtEnd(cmd: RedisCommand)
    requires cmd.command == "SET" && |cmd.arguments| == 5
    requires cmd.arguments[2] == Kw("MATCH") && cmd.arguments[3] == Kw("NX") && cmd.arguments[4] == Kw("XX")
    ensures OptionScan(cmd, SetSpec, 2, {})
      == Issues([SemanticError(OptionConflict("XX", "NX"), "SET")], [UnknownOption("MATCH", "SET")])
  {
    var conflict := SemanticError(OptionConflict("XX", "NX"), "SET");
    NxXxAtEnd(cmd, 3);
    MatchIsNotASetOption();
    ScanUnknownOption(cmd, SetSpec, 2, {}, "MATCH");
    assert Then(Issues([], [UnknownOption("MATCH", "SET")]), Issues([conflict], [])) ==
      Issues([conflict], [UnknownOption("MATCH", "SET")]);
  }

  /** The options of SCAN. */
  lemma ScanOptions()
    ensures ScanSpec.options.Keys == {"MATCH", "COUNT", "TYPE"}
    ensures ScanSpec.options["MATCH"] == OptionSpec(true, "pattern", "Match pattern", [])
    ensures ScanSpec.options["COUNT"] == OptionSpec(true, "integer", "Number of elements to return", [])
    ensures ScanSpec.options["TYPE"] == OptionSpec(true, "string", "Filter by type", [])
  {
  }

  /** SCAN c COUNT 0: only EX and PX are range-checked. */
  lemma CountHasNoRangeCheck(c: Expr)
    requires !c.KeywordExpression?
    ensures OptionIssues(RedisCommand("SCAN", [c, Kw("COUNT"), Int(0)]), ScanSpec) == NoIssues
  {
    var cmd := RedisCommand("SCAN", [c, Kw("COUNT"), Int(0)]);
    assert Upper("COUNT") == "COUNT";
    ScanPassesOver(cmd, ScanSpec, 0, {});
    ScanOptions();
    ScanValued(cmd, ScanSpec, 1, {}, "COUNT");
    IntegerOptionValue("COUNT", ScanSpec.options["COUNT"], 0);
    assert ConflictErrors([], {}, "COUNT", "SCAN") == [];
  }

  /** SCAN c MATCH 5 TYPE 7: pattern and string options only warn about a value's kind. */
  lemma PatternAndStringOnlyWarn(c: Expr)
    requires !c.KeywordExpression?
    ensures OptionIssues(RedisCommand("SCAN", [c, Kw("MATCH"), Int(5), Kw("TYPE"), Int(7)]), ScanSpec)
      == Issues([], [PatternExpected("MATCH", "IntegerLiteral"), StringExpected("TYPE", "IntegerLiteral")])
  {
    var cmd := RedisCommand("SCAN", [c, Kw("MATCH"), Int(5), Kw("TYPE"), Int(7)]);
    ScanPassesOver(cmd, ScanSpec, 0, {});
    MatchTypeAtEnd(cmd, 5, 7);
  }

  /** MATCH and TYPE, each with an integer, as the last four arguments of a SCAN. */
  lemma MatchTypeAtEnd(cmd: RedisCommand, m: int, n: int)
    requires cmd.command == "SCAN" && |cmd.arguments| == 5
    requires cmd.arguments[1] == Kw("MATCH") && cmd.arguments[2] == Int(m)
    requires cmd.arguments[3] == Kw("TYPE") && cmd.arguments[4] == Int(n)
    ensures OptionScan(cmd, ScanSpec, 1, {})
      == Issues([], [PatternExpected("MATCH", "IntegerLiteral"), StringExpected("TYPE", "IntegerLiteral")])
  {
    IntegerPattern(cmd, m);
    IntegerTypeAtEnd(cmd, n);
  }

  /** MATCH with an integer at index 1 of a SCAN only warns and is marked as seen. */
  lemma IntegerPattern(cmd: RedisCommand, m: int)
    requires cmd.command == "SCAN" && |cmd.arguments| > 2
    requires cmd.arguments[1] == Kw("MATCH") && cmd.arguments[2] == Int(m)
    ensures OptionScan(cmd, ScanSpec, 1, {})
      == Then(Issues([], [PatternExpected("MATCH", "IntegerLiteral")]), OptionScan(cmd, ScanSpec, 3, {"MATCH"}))
  {
    assert Upper("MATCH") == "MATCH";
    ScanOptions();
    ScanValued(cmd, ScanSpec, 1, {}, "MATCH");
    assert ValueIssues("MATCH", ScanSpec.options["MATCH"], Int(m)) == Issues([], [PatternExpected("MATCH", "IntegerLiteral")]);
    assert ConflictErrors([], {}, "MATCH", "SCAN") == [];
    assert {} + {"MATCH"} == {"MATCH"};
  }

  /** TYPE with an integer as the last two arguments of a SCAN, after MATCH, only warns. */
  lemma IntegerTypeAtEnd(cmd: RedisCommand, n: int)
    requires cmd.command == "SCAN" && |cmd.arguments| == 5
    requires cmd.arguments[3] == Kw("TYPE") && cmd.arguments[4] == Int(n)
    ensures OptionScan(cmd, ScanSpec, 3, {"MATCH"}) == Issues([], [StringExpected("TYPE", "IntegerLiteral")])
  {
    assert Upper("TYPE") == "TYPE";
    ScanOptions();
    ScanValued(cmd, ScanSpec, 3, {"MATCH"}, "TYPE");
    assert ValueIssues("TYPE", ScanSpec.options["TYPE"], Int(n)) == Issues([], [StringExpected("TYPE", "IntegerLiteral")]);
    assert ConflictErrors([], {"MATCH"}, "TYPE", "SCAN") == [];
    assert OptionScan(cmd, ScanSpec, 5, {"MATCH", "TYPE"}) == NoIssues;
  }

  lemma StringScoreRefused(key: string, member: string, s: string)
    ensures TypeErrors(RedisCommand("ZADD", [Identifier(key), StringLiteral(s), Identifier(member)]), ZAddSpec)
      == [SemanticError(TypeMismatch(2, "score", "StringLiteral"), "ZADD")]
  {
    var cmd := RedisCommand("ZADD", [Identifier(key), StringLiteral(s), Identifier(member)]);
    assert TypeErrorsUpTo(cmd, ZAddSpec, 1) == [];
    assert TypeErrorsUpTo(cmd, ZAddSpec, 2) == [SemanticError(TypeMismatch(2, "score", "StringLiteral"), "ZADD")];
  }

  /** ZADD k 1.5 m: a float score is accepted. */
  lemma FloatScoreAccepted(key: string, member: string)
    ensures TypeErrors(RedisCommand("ZADD", [Identifier(key), FloatLiteral("1.5"), Identifier(member)]), ZAddSpec)
      == []
  {
    var cmd := RedisCommand("ZADD", [Identifier(key), FloatLiteral("1.5"), Identifier(member)]);
    assert TypeErrorsUpTo(cmd, ZAddSpec, 1) == [];
    assert TypeErrorsUpTo(cmd, ZAddSpec, 2) == [];
  }

  /** SCAN "s": the cursor must be an integer. */
  lemma StringCursorRefused(s: string)
    ensures TypeErrors(RedisCommand("SCAN", [StringLiteral(s)]), ScanSpec)
      == [SemanticError(TypeMismatch(1, "cursor", "StringLiteral"), "SCAN")]
  {
    var cmd := RedisCommand("SCAN", [StringLiteral(s)]);
    assert TypeErrorsUpTo(cmd, ScanSpec, 0) == [];
  }

  /** With the built-in GET in the table, GET k is valid and reports its key. */
  lemma GetIsValid(commands: map<string, CommandSpec>, key: string)
    requires "GET" in commands && commands["GET"] == GetSpec
    ensures Validation(commands, RedisCommand("GET", [Identifier(key)]))
      == ValidationResult(true, [], [], Some(Summary("GET", "Get the value of a key", true, Some(key))))
  {
    var cmd := RedisCommand("GET", [Identifier(key)]);
    assert Upper("GET") == "GET";
    NoKeywordsNoIssues(cmd, GetSpec, 0, {});
    assert TypeErrorsUpTo(cmd, GetSpec, 0) == [];
    assert TypeErrors(cmd, GetSpec) == [];
  }

  /** GET with two keys has too many arguments. */
  lemma GetWithTwoKeys(commands: map<string, CommandSpec>, key: string, other: string)
    requires "GET" in commands && commands["GET"] == GetSpec
    ensures Validation(commands, RedisCommand("GET", [Identifier(key), Identifier(other)])).errors
      == [SemanticError(ExcessiveArgs(1, 2), "GET")]
  {
    var cmd := RedisCommand("GET", [Identifier(key), Identifier(other)]);
    assert Upper("GET") == "GET";
    NoKeywordsNoIssues(cmd, GetSpec, 0, {});
    assert TypeErrorsUpTo(cmd, GetSpec, 0) == [];
    assert TypeErrors(cmd, GetSpec) == [];
  }

  /** GET alone has too few arguments. */
  lemma GetWithoutKey(commands: map<string, CommandSpec>)
    requires "GET" in commands && commands["GET"] == GetSpec
    ensures Validation(commands, RedisCommand("GET", [])).errors
      == [SemanticError(InsufficientArgs(1, 0), "GET")]
  {
    var cmd := RedisCommand("GET", []);
    assert Upper("GET") == "GET";
    assert TypeErrors(cmd, GetSpec) == [];
  }
}
