/** The semantic validator: backend/semantic/analyzer.go.

    A table of command specifications, keyed by upper-case name, checks a parsed command for
    arity, for the kind of each positional argument and for its options.  Errors and warnings
    are structured values; the message texts are not modelled. */
module Semantic {
  import opened Wrappers
  import opened Text
  import opened Ast
  import opened Parser

  /** `OptionSpec`. */
  datatype OptionSpec = OptionSpec(hasValue: bool, valueType: string, description: string,
                                   conflicts: seq<string>)

  /** `CommandSpec`: `maxArgs == -1` means unlimited, `keyPosition == -1` means no key. */
  datatype CommandSpec = CommandSpec(name: string, minArgs: int, maxArgs: int, keyPosition: int,
                                     valueTypes: seq<string>, options: map<string, OptionSpec>,
                                     description: string)

  /** The kind of a semantic error, with the numbers and names its message mentions. */
  datatype ErrorKind =
    | UnknownCommand
    | InsufficientArgs(min: int, got: nat)
    | ExcessiveArgs(max: int, got: nat)
    | TypeMismatch(argument: nat, expected: string, actual: string)
    | OptionConflict(option: string, conflict: string)
    | MissingOptionValue(option: string)
    | OptionTypeMismatch(option: string, actual: string)
    | InvalidValueRange(value: int)

  /** `SemanticError`: its kind and the command name it reports. */
  datatype SemanticError = SemanticError(kind: ErrorKind, command: string)

  /** The `Type` string of each error kind. */
  function ErrorType(k: ErrorKind): string
  {
    match k
    case UnknownCommand => "UNKNOWN_COMMAND"
    case InsufficientArgs(_, _) => "INSUFFICIENT_ARGS"
    case ExcessiveArgs(_, _) => "EXCESSIVE_ARGS"
    case TypeMismatch(_, _, _) => "TYPE_MISMATCH"
    case OptionConflict(_, _) => "OPTION_CONFLICT"
    case MissingOptionValue(_) => "MISSING_OPTION_VALUE"
    case OptionTypeMismatch(_, _) => "OPTION_TYPE_MISMATCH"
    case InvalidValueRange(_) => "INVALID_VALUE_RANGE"
  }

  /** A warning: an option the command does not know, or an option value of a doubtful kind. */
  datatype Warning =
    | UnknownOption(option: string, command: string)
    | PatternExpected(option: string, actual: string)
    | StringExpected(option: string, actual: string)

  /** The `CommandInfo` map of a result for a known command: `name`, `description`,
      `has_key`, and `key` when the key argument was supplied. */
  datatype Summary = Summary(name: string, description: string, hasKey: bool, key: Option<string>)

  /** `ValidationResult`; `info` is `None` where the source leaves `CommandInfo` empty. */
  datatype ValidationResult = ValidationResult(valid: bool, errors: seq<SemanticError>,
                                               warnings: seq<Warning>, info: Option<Summary>)

  /** Errors and warnings produced by one part of the validation. */
  datatype Issues = Issues(errors: seq<SemanticError>, warnings: seq<Warning>)

  const NoIssues := Issues([], [])

  /** Issues of `a`, then those of `b`. */
  function Then(a: Issues, b: Issues): Issues
  {
    Issues(a.errors + b.errors, a.warnings + b.warnings)
  }

  // ---------------------------------------------------------------------------------------
  // The built-in table.

  const GetSpec := CommandSpec("GET", 1, 1, 0, ["key"], map[], "Get the value of a key")

  const SetSpec := CommandSpec("SET", 2, -1, 0, ["key", "value"], map[
    "EX" := OptionSpec(true, "integer", "Set expiry in seconds", []),
    "PX" := OptionSpec(true, "integer", "Set expiry in milliseconds", ["EX"]),
    "NX" := OptionSpec(false, "", "Only set if key doesn't exist", ["XX"]),
    "XX" := OptionSpec(false, "", "Only set if key exists", ["NX"])],
    "Set the string value of a key")

  const DelSpec := CommandSpec("DEL", 1, -1, 0, ["key"], map[], "Delete one or more keys")

  const HGetSpec := CommandSpec("HGET", 2, 2, 0, ["key", "field"], map[],
    "Get the value of a hash field")

  const HSetSpec := CommandSpec("HSET", 3, -1, 0, ["key", "field", "value"], map[],
    "Set the string value of a hash field")

  const ZAddSpec := CommandSpec("ZADD", 3, -1, 0, ["key", "score", "member"], map[
    "NX" := OptionSpec(false, "", "Only add new elements", ["XX"]),
    "XX" := OptionSpec(false, "", "Only update existing elements", ["NX"])],
    "Add one or more members to a sorted set")

  const ZRangeSpec := CommandSpec("ZRANGE", 3, -1, 0, ["key", "start", "stop"], map[
    "WITHSCORES" := OptionSpec(false, "", "Return scores along with members", [])],
    "Return a range of members in a sorted set")

  const ScanSpec := CommandSpec("SCAN", 1, -1, -1, ["cursor"], map[
    "MATCH" := OptionSpec(true, "pattern", "Match pattern", []),
    "COUNT" := OptionSpec(true, "integer", "Number of elements to return", []),
    "TYPE" := OptionSpec(true, "string", "Filter by type", [])],
    "Incrementally iterate over keys")

  /** The table `initializeCommands` writes. */
  const Builtins: map<string, CommandSpec> := map[]
    ["GET" := GetSpec]
    ["SET" := SetSpec]
    ["DEL" := DelSpec]
    ["HGET" := HGetSpec]
    ["HSET" := HSetSpec]
    ["ZADD" := ZAddSpec]
    ["ZRANGE" := ZRangeSpec]
    ["SCAN" := ScanSpec]

  /** Every entry is stored under its own upper-case name. */
  ghost predicate KeyedByName(commands: map<string, CommandSpec>)
  {
    forall k :: k in commands ==> k == Upper(commands[k].name)
  }

  /** The built-in table holds exactly the eight commands. */
  lemma BuiltinKeys()
    ensures Builtins.Keys == {"GET", "SET", "DEL", "HGET", "HSET", "ZADD", "ZRANGE", "SCAN"}
  {
  }

  /** Storing a spec under its upper-cased name keeps the table keyed by name. */
  lemma StoreKeepsKeyed(m: map<string, CommandSpec>, spec: CommandSpec)
    requires KeyedByName(m)
    ensures KeyedByName(m[Upper(spec.name) := spec])
  {
  }

  /** The eight writes of `initializeCommands` lay the built-in table over `m`. */
  lemma BuiltinWrites(m: map<string, CommandSpec>)
    ensures m["GET" := GetSpec]["SET" := SetSpec]["DEL" := DelSpec]["HGET" := HGetSpec]
             ["HSET" := HSetSpec]["ZADD" := ZAddSpec]["ZRANGE" := ZRangeSpec]["SCAN" := ScanSpec]
            == m + Builtins
  {
  }

  /** Writing one table keyed by name over another keeps it keyed by name. */
  lemma MergeKeepsKeyed(a: map<string, CommandSpec>, b: map<string, CommandSpec>)
    requires KeyedByName(a) && KeyedByName(b)
    ensures KeyedByName(a + b)
  {
  }

  /** Writing a table's entries into an empty map gives that table. */
  lemma MergeIntoEmpty<K, V>(m: map<K, V>)
    ensures map[] + m == m
  {
  }

  /** The built-in names are already upper-case. */
  lemma NamesAreUpper()
    ensures Upper("GET") == "GET" && Upper("SET") == "SET" && Upper("DEL") == "DEL"
    ensures Upper("HGET") == "HGET" && Upper("HSET") == "HSET" && Upper("ZADD") == "ZADD"
    ensures Upper("ZRANGE") == "ZRANGE" && Upper("SCAN") == "SCAN"
  {
    ShortNamesAreUpper();
    LongNamesAreUpper();
  }

  lemma ShortNamesAreUpper()
    ensures Upper("GET") == "GET" && Upper("SET") == "SET" && Upper("DEL") == "DEL"
    ensures Upper("SCAN") == "SCAN"
  {
  }

  lemma LongNamesAreUpper()
    ensures Upper("HGET") == "HGET" && Upper("HSET") == "HSET" && Upper("ZADD") == "ZADD"
    ensures Upper("ZRANGE") == "ZRANGE"
  {
  }

  /** Each built-in entry is stored under its own upper-case name. */
  lemma BuiltinNames()
    ensures KeyedByName(Builtins)
  {
    var m: map<string, CommandSpec> := map[];
    NamesAreUpper();
    StoreKeepsKeyed(m, GetSpec);
    m := m["GET" := GetSpec];
    StoreKeepsKeyed(m, SetSpec);
    m := m["SET" := SetSpec];
    StoreKeepsKeyed(m, DelSpec);
    m := m["DEL" := DelSpec];
    StoreKeepsKeyed(m, HGetSpec);
    m := m["HGET" := HGetSpec];
    StoreKeepsKeyed(m, HSetSpec);
    m := m["HSET" := HSetSpec];
    StoreKeepsKeyed(m, ZAddSpec);
    m := m["ZADD" := ZAddSpec];
    StoreKeepsKeyed(m, ZRangeSpec);
    m := m["ZRANGE" := ZRangeSpec];
    StoreKeepsKeyed(m, ScanSpec);
    m := m["SCAN" := ScanSpec];
    assert m == Builtins;
  }

  /** No built-in spec asks for more arguments than it allows. */
  lemma BuiltinArity()
    ensures forall k :: k in Builtins ==>
      0 <= Builtins[k].minArgs && (Builtins[k].maxArgs == -1 || Builtins[k].minArgs <= Builtins[k].maxArgs)
  {
  }

  // ---------------------------------------------------------------------------------------
  // Arity.

  /** The arity errors for `count` arguments, reported under `name`. */
  function ArityErrors(spec: CommandSpec, count: nat, name: string): (es: seq<SemanticError>)
    ensures SemanticError(InsufficientArgs(spec.minArgs, count), name) in es <==> count < spec.minArgs
    ensures SemanticError(ExcessiveArgs(spec.maxArgs, count), name) in es <==>
      spec.maxArgs != -1 && count > spec.maxArgs
    ensures forall e :: e in es ==> e.kind.InsufficientArgs? || e.kind.ExcessiveArgs?
    ensures es == [] <==> spec.minArgs <= count && (spec.maxArgs == -1 || count <= spec.maxArgs)
  {
    (if count < spec.minArgs then [SemanticError(InsufficientArgs(spec.minArgs, count), name)] else [])
    + (if spec.maxArgs != -1 && count > spec.maxArgs
       then [SemanticError(ExcessiveArgs(spec.maxArgs, count), name)] else [])
  }

  // ---------------------------------------------------------------------------------------
  // Positional argument kinds.

  /** Whether an argument of kind `actual` (a `Type()` name) is acceptable where the spec asks
      for `category`; "value" and any other category accept everything. */
  predicate Accepts(category: string, actual: string)
  {
    match category
    case "key" => actual == "Identifier" || actual == "StringLiteral" || actual == "PatternExpression"
    case "field" => actual == "Identifier" || actual == "StringLiteral"
    case "score" => actual == "IntegerLiteral" || actual == "FloatLiteral"
    case "member" => actual == "Identifier" || actual == "StringLiteral"
    case "cursor" => actual == "IntegerLiteral"
    case "start" => actual == "IntegerLiteral"
    case "stop" => actual == "IntegerLiteral"
    case _ => true
  }

  /** The kinds of expression each category accepts. */
  lemma AcceptedKinds(e: Expr, category: string)
    ensures category == "key" ==>
      (Accepts(category, NodeType(e)) <==> e.Identifier? || e.StringLiteral? || e.PatternExpression?)
    ensures category == "field" || category == "member" ==>
      (Accepts(category, NodeType(e)) <==> e.Identifier? || e.StringLiteral?)
    ensures category == "score" ==>
      (Accepts(category, NodeType(e)) <==> e.IntegerLiteral? || e.FloatLiteral?)
    ensures category == "cursor" || category == "start" || category == "stop" ==>
      (Accepts(category, NodeType(e)) <==> e.IntegerLiteral?)
    ensures category !in {"key", "field", "member", "score", "cursor", "start", "stop"} ==>
      Accepts(category, NodeType(e))
  {
    NodeTypeNames(e);
  }

  /** How many positions the type check looks at. */
  function Checked(cmd: RedisCommand, spec: CommandSpec): nat
  {
    if |cmd.arguments| < |spec.valueTypes| then |cmd.arguments| else |spec.valueTypes|
  }

  /** The type errors for the first `k` positions, in order; reported under the command name
      as written. */
  function TypeErrorsUpTo(cmd: RedisCommand, spec: CommandSpec, k: nat): seq<SemanticError>
    requires k <= |cmd.arguments| && k <= |spec.valueTypes|
  {
    if k == 0 then []
    else
      var actual := NodeType(cmd.arguments[k - 1]);
      TypeErrorsUpTo(cmd, spec, k - 1)
      + (if Accepts(spec.valueTypes[k - 1], actual) then []
         else [SemanticError(TypeMismatch(k, spec.valueTypes[k - 1], actual), cmd.command)])
  }

  function TypeErrors(cmd: RedisCommand, spec: CommandSpec): seq<SemanticError>
  {
    TypeErrorsUpTo(cmd, spec, Checked(cmd, spec))
  }

  /** The error for position `i`, when that position is checked and its argument is not of an
      accepted kind. */
  predicate IsTypeError(cmd: RedisCommand, spec: CommandSpec, i: nat, e: SemanticError)
  {
    && i < |cmd.arguments| && i < |spec.valueTypes|
    && !Accepts(spec.valueTypes[i], NodeType(cmd.arguments[i]))
    && e == SemanticError(TypeMismatch(i + 1, spec.valueTypes[i], NodeType(cmd.arguments[i])), cmd.command)
  }

  /** Each type error of the first `k` positions is the error of a mismatched position
      `i` below `k`. */
  lemma {:induction false} ErrorPosition(cmd: RedisCommand, spec: CommandSpec, k: nat, e: SemanticError)
    returns (i: nat)
    requires k <= |cmd.arguments| && k <= |spec.valueTypes|
    requires e in TypeErrorsUpTo(cmd, spec, k)
    ensures i < k && IsTypeError(cmd, spec, i, e)
    decreases k
  {
    if e in TypeErrorsUpTo(cmd, spec, k - 1) {
      i := ErrorPosition(cmd, spec, k - 1, e);
    } else {
      i := k - 1;
    }
  }

  /** Each position adds at most one type error. */
  lemma {:induction false} TypeErrorsBound(cmd: RedisCommand, spec: CommandSpec, k: nat)
    requires k <= |cmd.arguments| && k <= |spec.valueTypes|
    ensures |TypeErrorsUpTo(cmd, spec, k)| <= k
  {
    if k > 0 {
      TypeErrorsBound(cmd, spec, k - 1);
    }
  }

  /** Every type error of the first `k` positions is the error of a mismatched position
      below `k`. */
  lemma TypeErrorsSound(cmd: RedisCommand, spec: CommandSpec, k: nat)
    requires k <= |cmd.arguments| && k <= |spec.valueTypes|
    ensures forall e :: e in TypeErrorsUpTo(cmd, spec, k) ==> exists i :: 0 <= i < k && IsTypeError(cmd, spec, i, e)
  {
    forall e | e in TypeErrorsUpTo(cmd, spec, k)
      ensures exists i :: 0 <= i < k && IsTypeError(cmd, spec, i, e)
    {
      var i := ErrorPosition(cmd, spec, k, e);
    }
  }

  /** A mismatched position `i` below `k` has its error among the type errors of the first
      `k` positions: later positions only append. */
  lemma {:induction false} MismatchReported(cmd: RedisCommand, spec: CommandSpec, k: nat, i: nat)
    requires k <= |cmd.arguments| && k <= |spec.valueTypes| && i < k
    requires !Accepts(spec.valueTypes[i], NodeType(cmd.arguments[i]))
    ensures SemanticError(TypeMismatch(i + 1, spec.valueTypes[i], NodeType(cmd.arguments[i])), cmd.command)
      in TypeErrorsUpTo(cmd, spec, k)
    decreases k
  {
    if i < k - 1 {
      MismatchReported(cmd, spec, k - 1, i);
    }
  }

  /** Every mismatched position below `k` has its error among the type errors of the first
      `k` positions: a mismatch does not stop the check. */
  lemma {:induction false} TypeErrorsComplete(cmd: RedisCommand, spec: CommandSpec, k: nat)
    requires k <= |cmd.arguments| && k <= |spec.valueTypes|
    ensures forall e, i :: 0 <= i < k && IsTypeError(cmd, spec, i, e) ==> e in TypeErrorsUpTo(cmd, spec, k)
  {
    forall e, i | 0 <= i < k && IsTypeError(cmd, spec, i, e) ensures e in TypeErrorsUpTo(cmd, spec, k)
    {
      MismatchReported(cmd, spec, k, i);
    }
  }

  /** The type errors of the first `k` positions are exactly one error per mismatched
      position below `k`: a mismatch does not stop the check. */
  lemma TypeErrorsUpToExact(cmd: RedisCommand, spec: CommandSpec, k: nat)
    requires k <= |cmd.arguments| && k <= |spec.valueTypes|
    ensures forall e :: e in TypeErrorsUpTo(cmd, spec, k) <==>
      exists i :: 0 <= i < k && IsTypeError(cmd, spec, i, e)
    ensures |TypeErrorsUpTo(cmd, spec, k)| <= k
  {
    TypeErrorsSound(cmd, spec, k);
    TypeErrorsComplete(cmd, spec, k);
    TypeErrorsBound(cmd, spec, k);
  }

  /** The type check reports exactly the checked positions whose argument is of a kind the
      category refuses, and nothing at all when every checked position is acceptable. */
  lemma TypeErrorsExact(cmd: RedisCommand, spec: CommandSpec)
    ensures forall e :: e in TypeErrors(cmd, spec) <==> exists i :: IsTypeError(cmd, spec, i, e)
    ensures TypeErrors(cmd, spec) == [] <==>
      forall i :: 0 <= i < Checked(cmd, spec) ==> Accepts(spec.valueTypes[i], NodeType(cmd.arguments[i]))
    ensures forall e :: e in TypeErrors(cmd, spec) ==> e.kind.TypeMismatch? && e.command == cmd.command
  {
    var k := Checked(cmd, spec);
    TypeErrorsUpToExact(cmd, spec, k);
    if TypeErrors(cmd, spec) == [] {
      forall i | 0 <= i < k ensures Accepts(spec.valueTypes[i], NodeType(cmd.arguments[i]))
      {
        var e := SemanticError(TypeMismatch(i + 1, spec.valueTypes[i], NodeType(cmd.arguments[i])), cmd.command);
        assert IsTypeError(cmd, spec, i, e) ==> e in TypeErrors(cmd, spec);
      }
    } else {
      var e := TypeErrors(cmd, spec)[0];
      assert e in TypeErrors(cmd, spec);
    }
  }

  // ---------------------------------------------------------------------------------------
  // Options.

  /** The name the option-value check reports: the source reads it from `CommandInfo`, which
      is still empty while options are scanned. */
  const UnknownName := "unknown"

  /** `validateOptionValue`: the issues of `value` given as the value of option `name`.  The
      source tests the value's `Type()` name; each name belongs to exactly one constructor
      (NodeTypeNames), so the tests are written on the constructors here. */
  function ValueIssues(name: string, option: OptionSpec, value: Expr): Issues
  {
    var actual := NodeType(value);
    match option.valueType
    case "integer" =>
      if !value.IntegerLiteral? then
        Issues([SemanticError(OptionTypeMismatch(name, actual), UnknownName)], [])
      else if (name == "EX" || name == "PX") && value.n <= 0 then
        Issues([SemanticError(InvalidValueRange(value.n), UnknownName)], [])
      else NoIssues
    case "pattern" =>
      if !(value.PatternExpression? || value.StringLiteral? || value.Identifier?)
      then Issues([], [PatternExpected(name, actual)]) else NoIssues
    case "string" =>
      if !(value.StringLiteral? || value.Identifier?)
      then Issues([], [StringExpected(name, actual)]) else NoIssues
    case _ => NoIssues
  }

  /** What the value check decides for each value type: integers are range-checked only for EX
      and PX, patterns and strings only ever give warnings, and the errors carry the name
      "unknown". */
  lemma ValueIssuesFacts(name: string, option: OptionSpec, value: Expr)
    ensures var r := ValueIssues(name, option, value);
      && (option.valueType == "integer" ==>
            (r.errors == [] <==> value.IntegerLiteral? && (value.n > 0 || (name != "EX" && name != "PX")))
            && r.warnings == [])
      && (option.valueType != "integer" ==> r.errors == [])
      && (option.valueType == "pattern" ==>
            (r.warnings == [] <==> value.PatternExpression? || value.StringLiteral? || value.Identifier?))
      && (option.valueType == "string" ==>
            (r.warnings == [] <==> value.StringLiteral? || value.Identifier?))
      && (forall e :: e in r.errors ==>
            && e.command == UnknownName
            && (e.kind.OptionTypeMismatch? || (e.kind.InvalidValueRange? && e.kind.value <= 0)))
  {
    NodeTypeNames(value);
  }

  /** An integer literal given to an integer option: only an EX or PX value that is not
      positive is refused. */
  lemma IntegerOptionValue(name: string, option: OptionSpec, n: int)
    requires option.valueType == "integer"
    ensures ValueIssues(name, option, IntegerLiteral(n)) ==
      if (name == "EX" || name == "PX") && n <= 0
      then Issues([SemanticError(InvalidValueRange(n), UnknownName)], []) else NoIssues
  {
  }

  /** The conflict errors of option `name` against the options already `used`, for the
      listed conflicts in order. */
  function ConflictErrors(conflicts: seq<string>, used: set<string>, name: string, command: string)
    : seq<SemanticError>
  {
    if conflicts == [] then []
    else
      var c := conflicts[|conflicts| - 1];
      ConflictErrors(conflicts[..|conflicts| - 1], used, name, command)
      + (if c in used then [SemanticError(OptionConflict(name, c), command)] else [])
  }

  /** A conflict is reported exactly for the listed conflicts that were seen before. */
  lemma {:induction false} ConflictErrorsExact(conflicts: seq<string>, used: set<string>, name: string,
                                               command: string)
    ensures forall e :: e in ConflictErrors(conflicts, used, name, command) <==>
      e.kind.OptionConflict? && e.kind.option == name && e.command == command
      && e.kind.conflict in conflicts && e.kind.conflict in used
  {
    if conflicts != [] {
      var init, c := conflicts[..|conflicts| - 1], conflicts[|conflicts| - 1];
      ConflictErrorsExact(init, used, name, command);
      assert conflicts == init + [c];
    }
  }

  /** One step of the option scan: the issues found at index `i`, where the scan goes on, and
      the options seen so far. */
  datatype Step = Step(issues: Issues, next: nat, used: set<string>)

  /** The body of `validateOptions`' loop at index `i` (the keyword test is written on the
      constructor, as in ValueIssues). */
  function OptionAt(cmd: RedisCommand, spec: CommandSpec, i: nat, used: set<string>): (s: Step)
    requires i < |cmd.arguments|
    ensures i < s.next <= |cmd.arguments|
  {
    var args := cmd.arguments;
    if !args[i].KeywordExpression? then Step(NoIssues, i + 1, used)
    else
      var name := Upper(Render(args[i]));
      if name !in spec.options then Step(Issues([], [UnknownOption(name, cmd.command)]), i + 1, used)
      else
        var option := spec.options[name];
        var conflicts := ConflictErrors(option.conflicts, used, name, cmd.command);
        if !option.hasValue then Step(Issues(conflicts, []), i + 1, used + {name})
        else if i + 1 >= |args| then
          Step(Issues(conflicts + [SemanticError(MissingOptionValue(name), cmd.command)], []), i + 1, used + {name})
        else
          var v := ValueIssues(name, option, args[i + 1]);
          Step(Issues(conflicts + v.errors, v.warnings), i + 2, used + {name})
  }

  /** The option scan from index `i` with the options `used` already seen. */
  function OptionScan(cmd: RedisCommand, spec: CommandSpec, i: nat, used: set<string>): Issues
    decreases |cmd.arguments| - i
  {
    if i >= |cmd.arguments| then NoIssues
    else
      var s := OptionAt(cmd, spec, i, used);
      Then(s.issues, OptionScan(cmd, spec, s.next, s.used))
  }

  /** The whole option scan of a command. */
  function OptionIssues(cmd: RedisCommand, spec: CommandSpec): Issues
  {
    OptionScan(cmd, spec, 0, {})
  }

  /** The kinds of error an option scan can report: conflicts and missing values under the
      command name as written, value errors under "unknown". */
  predicate IsOptionError(cmd: RedisCommand, e: SemanticError)
  {
    || ((e.kind.OptionConflict? || e.kind.MissingOptionValue?) && e.command == cmd.command)
    || ((e.kind.OptionTypeMismatch? || (e.kind.InvalidValueRange? && e.kind.value <= 0))
        && e.command == UnknownName)
  }

  lemma {:induction false} OptionScanErrors(cmd: RedisCommand, spec: CommandSpec, i: nat, used: set<string>)
    ensures forall e :: e in OptionScan(cmd, spec, i, used).errors ==> IsOptionError(cmd, e)
    decreases |cmd.arguments| - i
  {
    if i < |cmd.arguments| {
      var s := OptionAt(cmd, spec, i, used);
      OptionScanErrors(cmd, spec, s.next, s.used);
      var args := cmd.arguments;
      if args[i].KeywordExpression? {
        var name := Upper(Render(args[i]));
        if name in spec.options {
          var option := spec.options[name];
          ConflictErrorsExact(option.conflicts, used, name, cmd.command);
          if option.hasValue && i + 1 < |args| {
            ValueIssuesFacts(name, option, args[i + 1]);
          }
        }
      }
    }
  }

  /** A non-keyword argument is passed over. */
  lemma ScanPassesOver(cmd: RedisCommand, spec: CommandSpec, i: nat, used: set<string>)
    requires i < |cmd.arguments| && !cmd.arguments[i].KeywordExpression?
    ensures OptionScan(cmd, spec, i, used) == OptionScan(cmd, spec, i + 1, used)
  {
    NodeTypeNames(cmd.arguments[i]);
    assert Then(NoIssues, OptionScan(cmd, spec, i + 1, used)).errors == [] + OptionScan(cmd, spec, i + 1, used).errors;
    assert Then(NoIssues, OptionScan(cmd, spec, i + 1, used)).warnings == [] + OptionScan(cmd, spec, i + 1, used).warnings;
  }

  /** A keyword the spec does not list only gives a warning: it is not marked as seen and the
      scan goes on with the very next argument. */
  lemma ScanUnknownOption(cmd: RedisCommand, spec: CommandSpec, i: nat, used: set<string>, w: string)
    requires i < |cmd.arguments| && cmd.arguments[i] == KeywordExpression(w) && Upper(w) !in spec.options
    ensures OptionScan(cmd, spec, i, used) ==
      Then(Issues([], [UnknownOption(Upper(w), cmd.command)]), OptionScan(cmd, spec, i + 1, used))
  {
  }

  /** A listed option without a value reports its conflicts with the options seen before it,
      is marked as seen, and the scan goes on with the next argument. */
  lemma ScanFlag(cmd: RedisCommand, spec: CommandSpec, i: nat, used: set<string>, w: string)
    requires i < |cmd.arguments| && cmd.arguments[i] == KeywordExpression(w)
    requires Upper(w) in spec.options && !spec.options[Upper(w)].hasValue
    ensures OptionScan(cmd, spec, i, used) ==
      Then(Issues(ConflictErrors(spec.options[Upper(w)].conflicts, used, Upper(w), cmd.command), []),
           OptionScan(cmd, spec, i + 1, used + {Upper(w)}))
  {
  }

  /** A listed option with a value takes the next argument as its value whatever its kind,
      and the scan goes on after that value; with no argument left, the value is missing. */
  lemma ScanValued(cmd: RedisCommand, spec: CommandSpec, i: nat, used: set<string>, w: string)
    requires i < |cmd.arguments| && cmd.arguments[i] == KeywordExpression(w)
    requires Upper(w) in spec.options && spec.options[Upper(w)].hasValue
    ensures var name := Upper(w);
      var option := spec.options[name];
      var conflicts := ConflictErrors(option.conflicts, used, name, cmd.command);
      && (i + 1 < |cmd.arguments| ==>
            var v := ValueIssues(name, option, cmd.arguments[i + 1]);
            OptionScan(cmd, spec, i, used) ==
              Then(Issues(conflicts + v.errors, v.warnings), OptionScan(cmd, spec, i + 2, used + {name})))
      && (i + 1 == |cmd.arguments| ==>
            OptionScan(cmd, spec, i, used) ==
              Issues(conflicts + [SemanticError(MissingOptionValue(name), cmd.command)], []))
  {
    var name := Upper(w);
    if i + 1 == |cmd.arguments| {
      var conflicts := ConflictErrors(spec.options[name].conflicts, used, name, cmd.command);
      assert OptionScan(cmd, spec, i + 1, used + {name}) == NoIssues;
      assert (conflicts + [SemanticError(MissingOptionValue(name), cmd.command)]) + [] ==
        conflicts + [SemanticError(MissingOptionValue(name), cmd.command)];
    }
  }

  /** Arguments that are not keywords are never read as options: a scan over a command
      without keyword arguments finds nothing. */
  lemma {:induction false} NoKeywordsNoIssues(cmd: RedisCommand, spec: CommandSpec, i: nat, used: set<string>)
    requires forall k :: 0 <= k < |cmd.arguments| ==> !cmd.arguments[k].KeywordExpression?
    ensures OptionScan(cmd, spec, i, used) == NoIssues
    decreases |cmd.arguments| - i
  {
    if i < |cmd.arguments| {
      NodeTypeNames(cmd.arguments[i]);
      NoKeywordsNoIssues(cmd, spec, i + 1, used);
    }
  }

  // ---------------------------------------------------------------------------------------
  // Whole commands and programs.

  /** What `ValidateCommand` returns for `cmd` given the table `commands`. */
  function Validation(commands: map<string, CommandSpec>, cmd: RedisCommand): ValidationResult
  {
    var name := Upper(cmd.command);
    if name !in commands then
      ValidationResult(false, [SemanticError(UnknownCommand, name)], [], None)
    else
      var spec := commands[name];
      var count := |cmd.arguments|;
      var arity := ArityErrors(spec, count, name);
      var types := TypeErrors(cmd, spec);
      var options := OptionIssues(cmd, spec);
      var kp := spec.keyPosition;
      ValidationResult(
        count >= spec.minArgs && !(spec.maxArgs != -1 && count > spec.maxArgs)
          && types == [] && options.errors == [],
        arity + types + options.errors,
        options.warnings,
        Some(Summary(name, spec.description, kp >= 0,
                     if 0 <= kp < count then Some(Render(cmd.arguments[kp])) else None)))
  }

  /** A result is valid exactly when it has no errors, and warnings never affect validity. */
  lemma ValidIffNoErrors(commands: map<string, CommandSpec>, cmd: RedisCommand)
    ensures Validation(commands, cmd).valid <==> Validation(commands, cmd).errors == []
  {
    var name := Upper(cmd.command);
    if name in commands {
      var spec := commands[name];
      var _ := ArityErrors(spec, |cmd.arguments|, name);
    }
  }

  /** A name missing from the table gives UNKNOWN_COMMAND and nothing else. */
  lemma UnknownLookup(commands: map<string, CommandSpec>, cmd: RedisCommand)
    requires Upper(cmd.command) !in commands
    ensures Validation(commands, cmd)
      == ValidationResult(false, [SemanticError(UnknownCommand, Upper(cmd.command))], [], None)
  {
  }

  /** A name found in the table never gives UNKNOWN_COMMAND. */
  lemma KnownNotUnknown(commands: map<string, CommandSpec>, cmd: RedisCommand)
    requires Upper(cmd.command) in commands
    ensures forall e :: e in Validation(commands, cmd).errors ==> !e.kind.UnknownCommand?
  {
    var spec := commands[Upper(cmd.command)];
    TypeErrorsExact(cmd, spec);
    OptionScanErrors(cmd, spec, 0, {});
  }

  /** A name found in the table is summarised with the upper-cased name, the spec's
      description, whether the spec has a key, and the key argument's rendering when that
      argument was supplied. */
  lemma KnownSummary(commands: map<string, CommandSpec>, cmd: RedisCommand)
    requires Upper(cmd.command) in commands
    ensures var r := Validation(commands, cmd); var spec := commands[Upper(cmd.command)];
      r.info.Some? && r.info.value.name == Upper(cmd.command)
      && r.info.value.description == spec.description
      && r.info.value.hasKey == (spec.keyPosition >= 0)
      && (r.info.value.key.Some? <==> 0 <= spec.keyPosition < |cmd.arguments|)
      && (r.info.value.key.Some? ==> r.info.value.key.value == Render(cmd.arguments[spec.keyPosition]))
  {
  }

  /** The command name is looked up upper-cased.  An unknown name gives one UNKNOWN_COMMAND
      error and nothing else; a known name never gives that error, and its summary carries
      the upper-cased name, the description, whether the spec has a key, and the key
      argument's rendering when that argument was supplied. */
  lemma CommandLookup(commands: map<string, CommandSpec>, cmd: RedisCommand)
    ensures var r := Validation(commands, cmd);
      && (Upper(cmd.command) !in commands ==>
            r == ValidationResult(false, [SemanticError(UnknownCommand, Upper(cmd.command))], [], None))
      && (Upper(cmd.command) in commands ==>
            && (forall e :: e in r.errors ==> !e.kind.UnknownCommand?)
            && var spec := commands[Upper(cmd.command)];
               r.info.Some? && r.info.value.name == Upper(cmd.command)
               && r.info.value.description == spec.description
               && r.info.value.hasKey == (spec.keyPosition >= 0)
               && (r.info.value.key.Some? <==> 0 <= spec.keyPosition < |cmd.arguments|)
               && (r.info.value.key.Some? ==> r.info.value.key.value == Render(cmd.arguments[spec.keyPosition])))
  {
    if Upper(cmd.command) in commands {
      KnownNotUnknown(commands, cmd);
      KnownSummary(commands, cmd);
    } else {
      UnknownLookup(commands, cmd);
    }
  }

  /** Arity: too few arguments give INSUFFICIENT_ARGS, too many (when there is a maximum)
      give EXCESSIVE_ARGS, and no other check reports either. */
  lemma ArityChecks(commands: map<string, CommandSpec>, cmd: RedisCommand)
    requires Upper(cmd.command) in commands
    ensures var spec := commands[Upper(cmd.command)];
      var r := Validation(commands, cmd);
      var n := |cmd.arguments|;
      var few := SemanticError(InsufficientArgs(spec.minArgs, n), Upper(cmd.command));
      var many := SemanticError(ExcessiveArgs(spec.maxArgs, n), Upper(cmd.command));
      && (few in r.errors <==> n < spec.minArgs)
      && (many in r.errors <==> spec.maxArgs != -1 && n > spec.maxArgs)
      && (forall e :: e in r.errors && (e.kind.InsufficientArgs? || e.kind.ExcessiveArgs?) ==> e == few || e == many)
  {
    var name := Upper(cmd.command);
    var spec := commands[name];
    var arity := ArityErrors(spec, |cmd.arguments|, name);
    var rest := LaterErrors(cmd, spec);
    Associative(arity, TypeErrors(cmd, spec), OptionIssues(cmd, spec).errors);
    assert Validation(commands, cmd).errors == arity + rest;
  }

  /** The errors of the checks after the arity check: none of them is an arity error. */
  function LaterErrors(cmd: RedisCommand, spec: CommandSpec): (es: seq<SemanticError>)
    ensures forall e :: e in es ==> !e.kind.InsufficientArgs? && !e.kind.ExcessiveArgs?
  {
    TypeErrorsExact(cmd, spec);
    OptionScanErrors(cmd, spec, 0, {});
    TypeErrors(cmd, spec) + OptionIssues(cmd, spec).errors
  }

  /** A known command's errors are its arity errors, then one TYPE_MISMATCH per refused
      checked position, then the option errors; it is valid exactly when it has the right
      number of arguments, every checked position is acceptable and the option scan finds no
      error. */
  lemma KnownCommandErrors(commands: map<string, CommandSpec>, cmd: RedisCommand)
    requires Upper(cmd.command) in commands
    ensures var spec := commands[Upper(cmd.command)];
      var r := Validation(commands, cmd);
      && (forall i, e :: IsTypeError(cmd, spec, i, e) ==> e in r.errors)
      && (forall e :: e in r.errors && e.kind.TypeMismatch? ==> exists i :: IsTypeError(cmd, spec, i, e))
      && (forall e :: e in r.errors ==> e.kind.InsufficientArgs? || e.kind.ExcessiveArgs?
                                        || e.kind.TypeMismatch? || IsOptionError(cmd, e))
      && r.warnings == OptionIssues(cmd, spec).warnings
  {
    var spec := commands[Upper(cmd.command)];
    TypeErrorsExact(cmd, spec);
    OptionScanErrors(cmd, spec, 0, {});
  }

  /** In a table keyed by name, a command that is found is summarised under the upper-case
      name of the spec it was checked against. */
  lemma KeyedSummary(commands: map<string, CommandSpec>, cmd: RedisCommand)
    requires KeyedByName(commands)
    ensures Upper(cmd.command) in commands ==>
      Validation(commands, cmd).info.Some?
      && Validation(commands, cmd).info.value.name == Upper(commands[Upper(cmd.command)].name)
  {
    CommandLookup(commands, cmd);
  }

  /** `ValidateProgram`: one result per command, in order. */
  function ValidateProgram(commands: map<string, CommandSpec>, program: Program): (rs: seq<ValidationResult>)
    ensures |rs| == |program|
    ensures forall i :: 0 <= i < |program| ==> rs[i] == Validation(commands, program[i])
  {
    if program == [] then [] else [Validation(commands, program[0])] + ValidateProgram(commands, program[1..])
  }

  /** Each command is validated on its own: validating two scripts one after the other is
      validating their concatenation. */
  lemma ValidateProgramAppend(commands: map<string, CommandSpec>, p: Program, q: Program)
    ensures ValidateProgram(commands, p + q) == ValidateProgram(commands, p) + ValidateProgram(commands, q)
  {
  }

  // ---------------------------------------------------------------------------------------
  // The analyzer object.

  class Analyzer {
    var commands: map<string, CommandSpec>

    /** Every spec is stored under its own upper-case name. */
    ghost predicate Valid()
      reads this
    {
      KeyedByName(commands)
    }

    /** `New`: an empty table filled by `initializeCommands`. */
    constructor ()
      ensures Valid() && commands == Builtins
    {
      commands := map[];
      new;
      InitializeCommands();
      MergeIntoEmpty(Builtins);
      BuiltinNames();
    }

    /** `initializeCommands`: writes the eight built-in specs; each is stored under its own
        name, so the table stays keyed by name. */
    method InitializeCommands()
      requires Valid()
      modifies this
      ensures Valid()
      ensures commands == old(commands) + Builtins
    {
      ghost var before := commands;
      commands := commands
        ["GET" := GetSpec]
        ["SET" := SetSpec]
        ["DEL" := DelSpec]
        ["HGET" := HGetSpec]
        ["HSET" := HSetSpec]
        ["ZADD" := ZAddSpec]
        ["ZRANGE" := ZRangeSpec]
        ["SCAN" := ScanSpec];
      BuiltinWrites(before);
      BuiltinNames();
      MergeKeepsKeyed(before, Builtins);
    }

    /** `AddCommandSpec`: stores `spec` under its upper-cased name, replacing any entry there;
        a command of that name in any letter case is then validated against `spec`. */
    method AddCommandSpec(spec: CommandSpec)
      requires Valid()
      modifies this
      ensures Valid()
      ensures commands == old(commands)[Upper(spec.name) := spec]
      ensures forall cmd: RedisCommand :: Upper(cmd.command) == Upper(spec.name) ==>
        Validation(commands, cmd).info.Some? && Validation(commands, cmd).info.value.description == spec.description
    {
      commands := commands[Upper(spec.name) := spec];
    }

    /** `validateArgumentTypes`: checks the first positions against the spec's categories,
        appending one TYPE_MISMATCH per refused argument. */
    method ValidateArgumentTypes(cmd: RedisCommand, spec: CommandSpec, result: ValidationResult)
      returns (r: ValidationResult)
      ensures r == result.(valid := result.valid && TypeErrors(cmd, spec) == [],
                           errors := result.errors + TypeErrors(cmd, spec))
    {
      r := result;
      var i := 0;
      while i < |cmd.arguments|
        invariant 0 <= i <= |cmd.arguments| && i <= |spec.valueTypes|
        invariant r.errors == result.errors + TypeErrorsUpTo(cmd, spec, i)
        invariant r.valid == (result.valid && TypeErrorsUpTo(cmd, spec, i) == [])
        invariant r.warnings == result.warnings && r.info == result.info
        decreases |cmd.arguments| - i
      {
        if i >= |spec.valueTypes| {
          break;
        }
        var expected := spec.valueTypes[i];
        var actual := NodeType(cmd.arguments[i]);
        ghost var before := TypeErrorsUpTo(cmd, spec, i);
        if !Accepts(expected, actual) {
          var e := SemanticError(TypeMismatch(i + 1, expected, actual), cmd.command);
          Associative(result.errors, before, [e]);
          r := r.(errors := r.errors + [e], valid := false);
        } else {
          assert TypeErrorsUpTo(cmd, spec, i + 1) == before + [];
        }
        i := i + 1;
      }
    }

    /** `validateOptions`: the index scan over the arguments, with the set of options seen so
        far; a known option with a value takes the next argument as its value and the scan
        steps over it. */
    method ValidateOptions(cmd: RedisCommand, spec: CommandSpec, result: ValidationResult)
      returns (r: ValidationResult)
      ensures r == result.(valid := result.valid && OptionIssues(cmd, spec).errors == [],
                           errors := result.errors + OptionIssues(cmd, spec).errors,
                           warnings := result.warnings + OptionIssues(cmd, spec).warnings)
    {
      var args := cmd.arguments;
      ghost var total := OptionIssues(cmd, spec);
      var used: set<string> := {};
      var errors, warnings, valid := result.errors, result.warnings, result.valid;
      var i := 0;
      while i < |args|
        invariant 0 <= i <= |args|
        invariant errors + OptionScan(cmd, spec, i, used).errors == result.errors + total.errors
        invariant warnings + OptionScan(cmd, spec, i, used).warnings == result.warnings + total.warnings
        invariant |result.errors| <= |errors| && valid == (result.valid && |errors| == |result.errors|)
        decreases |args| - i
      {
        ghost var step := OptionAt(cmd, spec, i, used);
        ghost var errors0, warnings0 := errors, warnings;
        if args[i].KeywordExpression? {
          var name := Upper(Render(args[i]));
          if name !in spec.options {
            warnings := warnings + [UnknownOption(name, cmd.command)];
            i := i + 1;
          } else {
            var found, noted, next := KnownOption(cmd, spec, i, used, name);
            if found != [] {
              valid := false;
            }
            errors, warnings := errors + found, warnings + noted;
            used := used + {name};
            i := next;
          }
        } else {
          i := i + 1;
        }
        assert errors == errors0 + step.issues.errors && warnings == warnings0 + step.issues.warnings;
        assert i == step.next && used == step.used;
        Associative(errors0, step.issues.errors, OptionScan(cmd, spec, i, used).errors);
        Associative(warnings0, step.issues.warnings, OptionScan(cmd, spec, i, used).warnings);
      }
      assert errors == result.errors + total.errors && warnings == result.warnings + total.warnings;
      r := result.(valid := valid, errors := errors, warnings := warnings);
    }

    /** `validateOptions`' loop body for an option the command declares: the conflicts with
        options already seen, then, for an option that takes a value, the missing value or
        the checks on the next argument, which the scan then steps over. */
    method KnownOption(cmd: RedisCommand, spec: CommandSpec, i: nat, used: set<string>, name: string)
      returns (errors: seq<SemanticError>, warnings: seq<Warning>, next: nat)
      requires i < |cmd.arguments| && cmd.arguments[i].KeywordExpression?
      requires name == Upper(Render(cmd.arguments[i])) && name in spec.options
      ensures OptionAt(cmd, spec, i, used) == Step(Issues(errors, warnings), next, used + {name})
    {
      var args := cmd.arguments;
      var option := spec.options[name];
      errors := ConflictsWith(option.conflicts, used, name, cmd.command);
      warnings := [];
      next := i + 1;
      if option.hasValue {
        if i + 1 >= |args| {
          errors := errors + [SemanticError(MissingOptionValue(name), cmd.command)];
        } else {
          var v := ValueIssues(name, option, args[i + 1]);
          errors, warnings := errors + v.errors, v.warnings;
          next := i + 2;
        }
      }
    }

    /** The conflict loop of `validateOptions`: one OPTION_CONFLICT for each listed conflict
        already seen, in list order. */
    method ConflictsWith(conflicts: seq<string>, used: set<string>, name: string, command: string)
      returns (errors: seq<SemanticError>)
      ensures errors == ConflictErrors(conflicts, used, name, command)
    {
      errors := [];
      var j := 0;
      while j < |conflicts|
        invariant 0 <= j <= |conflicts|
        invariant errors == ConflictErrors(conflicts[..j], used, name, command)
      {
        assert conflicts[..j + 1][..j] == conflicts[..j];
        if conflicts[j] in used {
          errors := errors + [SemanticError(OptionConflict(name, conflicts[j]), command)];
        }
        j := j + 1;
      }
      assert conflicts[..j] == conflicts;
    }

    /** `ValidateCommand`: the result `Validation` describes for this table. */
    method ValidateCommand(cmd: RedisCommand) returns (r: ValidationResult)
      ensures r == Validation(commands, cmd)
    {
      r := ValidationResult(true, [], [], None);
      var name := Upper(cmd.command);
      if name !in commands {
        r := r.(valid := false, errors := r.errors + [SemanticError(UnknownCommand, name)]);
        return;
      }
      var spec := commands[name];
      var count := |cmd.arguments|;
      if count < spec.minArgs {
        r := r.(valid := false, errors := r.errors + [SemanticError(InsufficientArgs(spec.minArgs, count), name)]);
      }
      if spec.maxArgs != -1 && count > spec.maxArgs {
        r := r.(valid := false, errors := r.errors + [SemanticError(ExcessiveArgs(spec.maxArgs, count), name)]);
      }
      assert r.errors == ArityErrors(spec, count, name);
      r := ValidateArgumentTypes(cmd, spec, r);
      r := ValidateOptions(cmd, spec, r);
      var key := None;
      if spec.keyPosition >= 0 && spec.keyPosition < count {
        key := Some(Render(cmd.arguments[spec.keyPosition]));
      }
      r := r.(info := Some(Summary(name, spec.description, spec.keyPosition >= 0, key)));
    }
  }
}
