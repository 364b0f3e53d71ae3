/** The syntax tree of a command script: backend/parser/ast.go.

    Every node kind becomes a constructor of `Expr`; `String()` becomes `Render` and `Type()`
    becomes `NodeType`.  The lexer token each node keeps in the source is not part of the tree
    here (the analyzer never looks at it). */
module Ast {
  import opened Wrappers
  import opened Text

  /** An argument expression. */
  datatype Expr =
    | Identifier(value: string)
    | StringLiteral(value: string)
    | IntegerLiteral(n: int)
    | FloatLiteral(text: string)
    | KeywordExpression(value: string)
    | PatternExpression(value: string)
    | RangeExpression(start: Expr, end: Expr)
    | OptionExpression(option: Expr, optionValue: Option<Expr>)

  /** A command: its name and its arguments, in source order. */
  datatype RedisCommand = RedisCommand(command: string, arguments: seq<Expr>)

  /** A script: its commands, in source order. */
  type Program = seq<RedisCommand>

  /** `String()` of an expression. */
  function Render(e: Expr): string
  {
    match e
    case Identifier(v) => v
    case StringLiteral(v) => "\"" + v + "\""
    case IntegerLiteral(n) => IntToString(n)
    case FloatLiteral(t) => t
    case KeywordExpression(v) => v
    case PatternExpression(v) => v
    case RangeExpression(s, t) => "[" + Render(s) + ", " + Render(t) + "]"
    case OptionExpression(o, v) => if v.Some? then Render(o) + " " + Render(v.value) else Render(o)
  }

  /** `Type()` of an expression: the node kind's name. */
  function NodeType(e: Expr): string
  {
    match e
    case Identifier(_) => "Identifier"
    case StringLiteral(_) => "StringLiteral"
    case IntegerLiteral(_) => "IntegerLiteral"
    case FloatLiteral(_) => "FloatLiteral"
    case KeywordExpression(_) => "KeywordExpression"
    case PatternExpression(_) => "PatternExpression"
    case RangeExpression(_, _) => "RangeExpression"
    case OptionExpression(_, _) => "OptionExpression"
  }

  const CommandTypeName := "RedisCommand"
  const ProgramTypeName := "Program"

  /** Two expressions have the same kind name exactly when they are built by the same
      constructor, and no expression is named like a command or a program. */
  lemma TypeNamesDistinct(a: Expr, b: Expr)
    ensures NodeType(a) == NodeType(b) <==> SameKind(a, b)
    ensures NodeType(a) != CommandTypeName && NodeType(a) != ProgramTypeName
  {
  }

  /** Each kind name belongs to exactly one constructor. */
  lemma NodeTypeNames(e: Expr)
    ensures NodeType(e) == "Identifier" <==> e.Identifier?
    ensures NodeType(e) == "StringLiteral" <==> e.StringLiteral?
    ensures NodeType(e) == "IntegerLiteral" <==> e.IntegerLiteral?
    ensures NodeType(e) == "FloatLiteral" <==> e.FloatLiteral?
    ensures NodeType(e) == "KeywordExpression" <==> e.KeywordExpression?
    ensures NodeType(e) == "PatternExpression" <==> e.PatternExpression?
    ensures NodeType(e) == "RangeExpression" <==> e.RangeExpression?
    ensures NodeType(e) == "OptionExpression" <==> e.OptionExpression?
  {
  }

  predicate SameKind(a: Expr, b: Expr)
  {
    || (a.Identifier? && b.Identifier?)
    || (a.StringLiteral? && b.StringLiteral?)
    || (a.IntegerLiteral? && b.IntegerLiteral?)
    || (a.FloatLiteral? && b.FloatLiteral?)
    || (a.KeywordExpression? && b.KeywordExpression?)
    || (a.PatternExpression? && b.PatternExpression?)
    || (a.RangeExpression? && b.RangeExpression?)
    || (a.OptionExpression? && b.OptionExpression?)
  }

  /** The source's accumulation loop: the parts in order, `sep` between neighbours. */
  function Join(parts: seq<string>, sep: string): string
  {
    if |parts| == 0 then ""
    else if |parts| == 1 then parts[0]
    else Join(parts[..|parts| - 1], sep) + sep + parts[|parts| - 1]
  }

  /** Joining is the same whether the parts are taken from the left or from the right. */
  lemma {:induction false} JoinCons(x: string, rest: seq<string>, sep: string)
    requires |rest| > 0
    ensures Join([x] + rest, sep) == x + sep + Join(rest, sep)
  {
    var xs := [x] + rest;
    if |rest| == 1 {
      assert xs[..1] == [x];
    } else {
      var init := rest[..|rest| - 1];
      var last := rest[|rest| - 1];
      assert xs[..|xs| - 1] == [x] + init;
      assert xs[|xs| - 1] == last;
      calc {
        Join(xs, sep);
        Join([x] + init, sep) + sep + last;
        { JoinCons(x, init, sep); }
        x + sep + Join(init, sep) + sep + last;
        x + sep + (Join(init, sep) + sep + last);
        x + sep + Join(rest, sep);
      }
    }
  }

  /** The renderings of a list of expressions. */
  function Renderings(args: seq<Expr>): (rs: seq<string>)
    ensures |rs| == |args| && forall i :: 0 <= i < |args| ==> rs[i] == Render(args[i])
  {
    seq(|args|, i requires 0 <= i < |args| => Render(args[i]))
  }

  /** `RedisCommand.String()`: the name, one space, then the arguments separated by single
      spaces. */
  function CommandString(c: RedisCommand): string
  {
    c.command + " " + Join(Renderings(c.arguments), " ")
  }

  /** `Program.String()`: the commands, one per line. */
  function ProgramString(p: Program): string
  {
    Join(seq(|p|, i requires 0 <= i < |p| => CommandString(p[i])), "\n")
  }

  /** A command without arguments renders with a trailing space, and an empty program renders
      as the empty string. */
  lemma RenderEdgeCases(name: string)
    ensures CommandString(RedisCommand(name, [])) == name + " "
    ensures ProgramString([]) == ""
  {
  }

  /** Where `c` first occurs in `s`, or `|s|` when it does not. */
  function FirstIndex(s: string, c: char): (i: nat)
    ensures i <= |s| && (i < |s| ==> s[i] == c)
    ensures forall k :: 0 <= k < i ==> s[k] != c
  {
    if s == [] then 0 else if s[0] == c then 0 else 1 + FirstIndex(s[1..], c)
  }

  /** Cutting a text at every `c`. */
  function Split(s: string, c: char): seq<string>
    decreases |s|
  {
    var i := FirstIndex(s, c);
    if i == |s| then [s] else [s[..i]] + Split(s[i + 1..], c)
  }

  /** Splitting at `c` undoes joining with `c`, when no part contains `c`. */
  lemma {:induction false} SplitJoin(parts: seq<string>, c: char)
    requires |parts| > 0
    requires forall k :: 0 <= k < |parts| ==> c !in parts[k]
    ensures Split(Join(parts, [c]), c) == parts
  {
    if |parts| == 1 {
      assert FirstIndex(parts[0], c) == |parts[0]|;
    } else {
      var x, rest := parts[0], parts[1..];
      assert parts == [x] + rest;
      JoinCons(x, rest, [c]);
      var j := Join(rest, [c]);
      var s := x + [c] + j;
      assert FirstIndex(s, c) == |x| by {
        assert s[|x|] == c;
        forall k | 0 <= k < |x| ensures s[k] != c { assert s[k] == x[k]; }
        FirstIndexIsFirst(s, c, |x|);
      }
      assert s[..|x|] == x && s[|x| + 1..] == j;
      SplitJoin(rest, c);
    }
  }

  lemma FirstIndexIsFirst(s: string, c: char, i: nat)
    requires i < |s| && s[i] == c
    requires forall k :: 0 <= k < i ==> s[k] != c
    ensures FirstIndex(s, c) == i
  {
  }

  /** A script whose command renderings hold no line break can be cut back into those
      renderings at its line breaks. */
  lemma ProgramLines(p: Program)
    requires |p| > 0
    requires forall k :: 0 <= k < |p| ==> '\n' !in CommandString(p[k])
    ensures Split(ProgramString(p), '\n') == seq(|p|, i requires 0 <= i < |p| => CommandString(p[i]))
  {
    SplitJoin(seq(|p|, i requires 0 <= i < |p| => CommandString(p[i])), '\n');
  }
}
