# Redis command analyzer — a verified model of its core

The analyzer reads Redis commands as text and reports on them in three stages:

- a **lexer** turns the text into tokens: identifiers, the nine reserved option words, strings, integers, floats, newlines, one-byte symbols and EOF;
- a **parser** builds one `RedisCommand` per line from the tokens, collecting positioned syntax errors;
- a **semantic validator** checks each command against a table of command specifications. It checks arity, the kind of each positional argument and the command's options, and returns a `ValidationResult` of errors, warnings and a summary.

The project models these three stages in Dafny, in the same form as the Go code:

- `tokens.dfy`, modules `Wrappers`, `Text` and `Tokens`:
  - the token kinds and their numeric codes and names;
  - the reserved-word table;
  - ASCII upper-casing;
  - decimal rendering of integers.
- `lexer.dfy`, module `Lexer`:
  - a pure specification of the scan, with `Lex` giving the token at a cursor and the cursor after it;
  - the `Lexer` class. Its methods update the cursor, the current byte, the line and the column in place, as the Go methods do.
  - Every method is proved to agree with the specification.
- `ast.dfy`, module `Ast`: the expression nodes, their `String()` and `Type()` renderings, and the rendering of a command and of a program.
- `parser.dfy`, module `Parser`:
  - Go's base-0 `ParseInt`;
  - a pure specification of every parsing rule over an abstract token source;
  - the `Parser` class, with its two tokens of lookahead and its error list, proved against the specification;
  - `ParseCommand` and `ParseCommands`;
  - `GetCommandInfo`, as a loop proved against a fold.
- `parser_props.dfy`, module `ParserProperties`: properties of the parser, including round trips from a rendered node back through the lexer and the parser.
- `patterns.dfy`, module `Patterns`: how a glob such as `user:*` is merged from several tokens, stated as a run of tokens and worked through `user:*`, `GET user:1` and `SCAN 0 MATCH user:* COUNT 10`.
- `round_trip.dfy`, module `RoundTrip`: the round trip of whole commands, from `String()` back through the lexer and the parser, and a command read from single quotes that does not survive it.
- `analyzer.dfy`, module `Semantic`:
  - the specification table written by `initializeCommands`;
  - the checks as pure functions;
  - the `Analyzer` class, whose methods are proved against those functions.
- `analyzer_examples.dfy`, module `SemanticExamples`: option scans and validations of commands shaped like the ones the Go tests use.
- `findings.dfy`, module `Findings`: four places where the code does not do what it evidently means to do.

Bytes are `char`s below 256. The input is a sequence of them, and reading past the end gives NUL, as `readChar` does.

Some of what the code does is easy to misread; the model follows the code in each case:

- A keyword argument keeps its text as written (`ex` stays `ex`); it is not upper-cased.
- Option conflicts are one-sided. `PX` lists `EX` as a conflict but `EX` lists nothing, so `EX … PX` is an error and `PX … EX` is accepted (`SemanticExamples.PxThenExAccepted`).
- Errors about an option's value name the command `unknown`. `validateOptionValue` reads the command name from the result's info map, and that map is only filled after the option scan.
- The escape handling of quoted strings and the nil checks of the parser and of the range rule are corrected in the model and logged under "## Findings".

## Model

| member | source | states |
|---|---|---|
| Text.UpperChar | backend/lexer/lexer.go:124 | the result is never a lower-case letter; a lower-case letter becomes the capital at the same place in the alphabet; a byte changes exactly when it is a lower-case letter |
| Text.Upper | backend/lexer/lexer.go:124 | the result has the input's length and is upper-cased byte by byte |
| Text.UpperIdempotent | backend/lexer/lexer.go:124 | upper-casing twice is the same as once |
| Text.DigitChar | backend/parser/ast.go:72 | the digit character of d reads back as d |
| Text.NatToString | backend/parser/ast.go:72 | a non-empty string of digits, with a leading 0 only for the number 0 |
| Text.NatToStringRoundTrip | backend/parser/ast.go:72 | the decimal rendering of n reads back as n |
| Text.IntToString | backend/parser/ast.go:72 | the rendering of an integer is never empty |
| Tokens.KindNamesDistinct | backend/lexer/token.go:64-125 | `KindName`: no declared kind is named UNKNOWN, and each kind's name maps back to that kind |
| Tokens.LiteralKindNames | backend/lexer/token.go:66-81 | the names of ILLEGAL to NEWLINE map back to their kinds |
| Tokens.SymbolKindNames | backend/lexer/token.go:82-103 | the names of the eleven symbol kinds map back to their kinds |
| Tokens.KeywordKindNames | backend/lexer/token.go:104-121 | the names of the nine keyword kinds map back to their kinds |
| Tokens.KindNameInjective | backend/lexer/token.go:64-125 | `KindName`: two kinds with the same name are the same kind |
| Tokens.UndeclaredValueIsUnknown | backend/lexer/token.go:8-46 | `TypeName`: kind codes are 0 to 27, and a value is named UNKNOWN exactly when it is outside that range |
| Tokens.LookupIdent | backend/lexer/token.go:141-146 | the lookup yields IDENT or a keyword kind |
| Tokens.LookupIdentKeywords | backend/lexer/token.go:128-146 | the lookup yields a keyword exactly for the nine reserved spellings |
| Tokens.KeywordTableMatchesNames | backend/lexer/token.go:128-146 | a reserved word is its kind's name, and every keyword kind is found under its name |
| Tokens.ReservedWordsNameTheirKinds | backend/lexer/token.go:128-138 | each entry of the reserved-word table is stored under its kind's name |
| Tokens.KeywordKindsAreReserved | backend/lexer/token.go:128-138 | each keyword kind is in the table under its own name |
| Tokens.LookupIdentIsCaseSensitive | backend/lexer/token.go:141-146 | the table lookup itself is case-sensitive: `ex` is IDENT and `EX` is EX |
| Lexer.WhitespaceEnd | backend/lexer/lexer.go:243-247 | the first byte at or after p that is not a space, tab or carriage return, with all bytes before it skipped |
| Lexer.IdentEnd | backend/lexer/lexer.go:161-167 | the end of the run of identifier bytes from p |
| Lexer.DigitsEnd | backend/lexer/lexer.go:179-181 | the end of the run of digits from p |
| Lexer.StringEnd | backend/lexer/lexer.go:195-216 | the quoted-string scan, corrected, ends on the closing quote or on NUL and stays within the input |
| Lexer.Lex | backend/lexer/lexer.go:55-147 | the next token: the cursor always advances, no SPACE token appears, and EOF comes with an empty literal |
| Lexer.LexAt | backend/lexer/lexer.go:61-143 | classification of the byte under the cursor, with the same guarantees as Lex |
| Lexer.TokenizeFrom | backend/lexer/lexer.go:260-276 | a token list that ends with its only EOF and holds no SPACE token |
| Lexer.Lexer.constructor | backend/lexer/lexer.go:18-26 | a new lexer stands on the first byte of its input |
| Lexer.Lexer.ReadChar | backend/lexer/lexer.go:29-44 | the cursor moves one byte, the current byte is read (NUL past the end), and the line and column follow it |
| Lexer.Lexer.PeekChar | backend/lexer/lexer.go:47-52 | the byte after the cursor, NUL past the end |
| Lexer.Lexer.SkipWhitespace | backend/lexer/lexer.go:243-247 | the cursor moves to WhitespaceEnd |
| Lexer.Lexer.ReadIdentifier | backend/lexer/lexer.go:161-167 | the cursor moves to IdentEnd and the literal is the bytes passed over |
| Lexer.Lexer.ReadNumber | backend/lexer/lexer.go:170-192 | the cursor moves to NumberEnd and the literal is the bytes passed over |
| Lexer.Lexer.ReadDigits | backend/lexer/lexer.go:179-181 | the cursor moves to DigitsEnd |
| Lexer.Lexer.ReadQuoted | backend/lexer/lexer.go:195-216 | the literal is the raw bytes between the quotes, and the cursor ends after the closing quote |
| Lexer.Lexer.ReadString | backend/lexer/lexer.go:195-216 | agrees with the specification of a double-quoted string |
| Lexer.Lexer.ReadSingleQuoteString | backend/lexer/lexer.go:219-240 | agrees with the specification of a single-quoted string |
| Lexer.Lexer.NextToken | backend/lexer/lexer.go:55-147 | the token returned and the new cursor are those of Lex |
| Lexer.Lexer.Classify | backend/lexer/lexer.go:61-143 | the token returned and the new cursor are those of LexAt |
| Lexer.Lexer.IdentifierToken | backend/lexer/lexer.go:122-128 | agrees with the identifier rule of the specification |
| Lexer.Lexer.NumberToken | backend/lexer/lexer.go:129-139 | agrees with the number rule of the specification |
| Lexer.Lexer.StringToken | backend/lexer/lexer.go:97-112 | agrees with the string rule of the specification, for either quote |
| Lexer.Lexer.TokenizeCommand | backend/lexer/lexer.go:260-276 | the tokens collected are TokenizeFrom of the starting cursor |
| Lexer.GetAllTokens | backend/lexer/lexer.go:279-282 | the token list of the whole input ends with its only EOF and holds no SPACE |
| Lexer.WhitespaceIsSkipped | backend/lexer/lexer.go:243-247 | a blank before the cursor changes nothing about the next token |
| Lexer.NewlineIsToken | backend/lexer/lexer.go:113-114 | `ByteToken`: a newline is a NEWLINE token at column 0 of the next line |
| Lexer.MinusRule | backend/lexer/lexer.go:82-96 | `LexNumber`, `ByteToken`: `-` followed by a digit starts a signed number; otherwise it is a one-byte MINUS |
| Lexer.LexAtIdentifier | backend/lexer/lexer.go:122-128 | `LexIdentifier`, `IsLetter`: a letter under the cursor starts an identifier |
| Lexer.LexAtNumber | backend/lexer/lexer.go:129-139 | `LexNumber`: a digit, or `-` then a digit, starts a number |
| Lexer.NumberEndShape | backend/lexer/lexer.go:170-192 | `NumberEnd`: a number's text is an optional `-`, digits, and at most one `.` followed by digits; a `.` left after an integer has no digit after it |
| Lexer.FractionShape | backend/lexer/lexer.go:183-189 | `NumberEnd`: with a `.` and a digit after the integer part, the number takes the fraction and contains `.` |
| Lexer.WholeShape | backend/lexer/lexer.go:178-181 | `NumberEnd`: without them, the number stops after the integer part and contains no `.` |
| Lexer.NumberScan | backend/lexer/lexer.go:129-139 | `LexNumber`: the number token is FLOAT exactly when its literal contains `.`, and its literal has the number shape |
| Lexer.IdentifierScan | backend/lexer/lexer.go:122-128 | `LexIdentifier`: an identifier token's kind is the lookup of its upper-cased literal, and the literal is the maximal run of identifier bytes |
| Lexer.KeywordsIgnoreCase | backend/lexer/lexer.go:124 | `ex` and `Ex` lex as EX, while `exs` is a plain identifier |
| Lexer.StringEndAfterBody | backend/lexer/lexer.go:197-209 | escaped quotes do not end a string: the scan stops right after a well-escaped body |
| Lexer.QuotedStringToken | backend/lexer/lexer.go:97-112 | `LexString`: a quoted string reads back its raw body, with escapes kept, and the scan resumes after the closing quote |
| Lexer.UnterminatedString | backend/lexer/lexer.go:197-201 | `LexString`: a string with no closing quote runs to the end of the input |
| Lexer.IllegalByte | backend/lexer/lexer.go:140-142 | `ByteToken`: any other byte is a one-byte ILLEGAL token, and the scan goes on after it |
| Lexer.NulIsEof | backend/lexer/lexer.go:115-120 | NUL, also the byte past the end, gives EOF |
| Lexer.EofIsSticky | backend/lexer/lexer.go:29-34 | once past the end, every further token is EOF |
| Lexer.EmbeddedNulEndsTokenize | backend/lexer/lexer.go:263-268 | a NUL inside the input ends the token list although bytes follow it |
| Lexer.GetBeforeNul | backend/lexer/lexer.go:122-128 | in `GET\0x` the first token is GET at column 1 |
| Lexer.NulAfterGet | backend/lexer/lexer.go:115-120 | in `GET\0x` the embedded NUL gives EOF at column 4 |
| Lexer.XAfterNul | backend/lexer/lexer.go:122-128 | in `GET\0x` the byte after the NUL would lex as the identifier `x` |
| Lexer.ColumnAdvance | backend/lexer/lexer.go:38-43 | over bytes that are not newlines, the line stays and the column grows by one per byte |
| Lexer.FirstLineColumn | backend/lexer/lexer.go:38-43 | before any newline, the line is 1 and the column is the offset plus one |
| Lexer.WordSpan | backend/lexer/lexer.go:122-139 | an identifier or number token covers exactly its literal's bytes, on one line |
| Lexer.IdentifierSpan | backend/lexer/lexer.go:125-127 | the same for identifiers |
| Lexer.NumberSpan | backend/lexer/lexer.go:136-138 | the same for numbers |
| Lexer.NumberBytes | backend/lexer/lexer.go:170-192 | a number's bytes are digits, `-` and `.` only |
| Lexer.WordTokenPosition | backend/lexer/lexer.go:125-138 | an identifier or number token records its start offset, line and column; directly before a newline its line and column are those after the newline |
| Lexer.SpanPosition | backend/lexer/lexer.go:125-138 | the same, for any token that spans its literal |
| Lexer.SetKeyValueTokens | backend/lexer/lexer_test.go:102-115 | `SET key value` gives SET at 0, key at 4 and value at 8, on line 1 at columns 1, 5 and 9, then EOF |
| Lexer.EndOfInputIsEof | backend/lexer/lexer.go:115-120 | at the end of the input the token is EOF |
| Lexer.TokenizeStep | backend/lexer/lexer.go:263-273 | one turn of the tokenize loop |
| Lexer.SetKeyValueWords | backend/lexer/lexer_test.go:112-114 | the three tokens of `SET key value` with their cursors |
| Lexer.SetWord | backend/lexer/lexer_test.go:112 | the first of them |
| Lexer.KeyWord | backend/lexer/lexer_test.go:113 | the second |
| Lexer.ValueWord | backend/lexer/lexer_test.go:114 | the third |
| Lexer.WordAt | backend/lexer/lexer.go:122-128 | a word that is not reserved, on the first line, is an IDENT token at its offset |
| Lexer.IdentEndAt | backend/lexer/lexer.go:161-167 | an identifier ends at the first byte that cannot continue it |
| Ast.TypeNamesDistinct | backend/parser/ast.go:43-130 | `NodeType`: two nodes have the same `Type()` exactly when they are of the same kind, and no expression is typed like a command or a program |
| Ast.NodeTypeNames | backend/parser/ast.go:53-130 | `NodeType`: each `Type()` string identifies exactly one node kind |
| Ast.JoinCons | backend/parser/ast.go:33-42 | `CommandString`, `ProgramString`: joining a list is its head, the separator, then the join of the rest |
| Ast.Renderings | backend/parser/ast.go:35-40 | `CommandString`: one rendering per argument, in order |
| Ast.RenderEdgeCases | backend/parser/ast.go:33-42 | `CommandString`, `ProgramString`: a command without arguments renders with a trailing space, and an empty program renders empty |
| Ast.FirstIndex | backend/parser/ast.go:137-146 | the first position of a byte, or the length when it is absent |
| Ast.SplitJoin | backend/parser/ast.go:137-146 | splitting a join at its separator gives the parts back when no part holds the separator |
| Ast.FirstIndexIsFirst | backend/parser/ast.go:137-146 | the first occurrence is found |
| Ast.ProgramLines | backend/parser/ast.go:137-146 | `ProgramString`: a program's rendering splits at newlines into its commands' renderings |
| Parser.ParseGoInt | backend/parser/parser.go:157 | a value is produced only for text that ends in a digit and only within 64 bits |
| Parser.ParseGoIntRoundTrip | backend/parser/parser.go:157-163 | the decimal rendering of n parses back to n exactly when n fits in 64 bits |
| Parser.ParseGoIntOctal | backend/parser/parser.go:157 | a leading 0 means octal: `010` is 8 and `08` fails |
| Parser.ParseGoIntZero | backend/parser/parser.go:157 | `0`, `-0` and `+0` are 0 |
| Parser.LexSource | backend/parser/parser.go:33-37 | the lexer is a token source: it always advances and reaches EOF within the input |
| Parser.ParseExpr | backend/parser/parser.go:110-135 | parsing an expression never moves the parser back |
| Parser.PatternRun | backend/parser/parser.go:194-198 | the pattern loop never moves back and stops on a position whose lookahead is not `*`, `?`, an identifier or `:`; that it stops at the first such lookahead, having taken every token before it, is Patterns.PatternRunTokens |
| Parser.PatternRunStep | backend/parser/parser.go:194-198 | one turn of the pattern loop |
| Parser.ParsePattern | backend/parser/parser.go:190-204 | parsing a pattern never moves the parser back; the merged text is Patterns.PatternMerges |
| Parser.ParseRange | backend/parser/parser.go:207-242 | parsing a range never moves the parser back |
| Parser.ArgsFrom | backend/parser/parser.go:98-104 | the argument loop stops with NEWLINE or EOF as lookahead |
| Parser.ParseCommandAt | backend/parser/parser.go:83-107 | parsing a command never moves the parser back |
| Parser.SkipNewlines | backend/parser/parser.go:69-71 | blank lines are passed over up to the first token that is not NEWLINE |
| Parser.ParseStatementAt | backend/parser/parser.go:67-80 | parsing a statement never moves the parser back |
| Parser.ProgramFrom | backend/parser/parser.go:51-64 | the statement loop ends on EOF |
| Parser.ArgsStep | backend/parser/parser.go:98-104 | one turn of the argument loop |
| Parser.ProgramStep | backend/parser/parser.go:55-61 | one turn of the statement loop |
| Parser.Parser.constructor | backend/parser/parser.go:20-31 | two advances fill the current and the lookahead token, with no errors |
| Parser.Parser.NextToken | backend/parser/parser.go:34-37 | the lookahead becomes current and a new lookahead is lexed |
| Parser.Parser.AddError | backend/parser/parser.go:45-48 | one error is appended at the current token's line and column |
| Parser.Parser.ParseExpression | backend/parser/parser.go:110-135 | node, new position and errors are those of the specification |
| Parser.Parser.ParseIntegerLiteral | backend/parser/parser.go:154-165 | the same, for an INT token |
| Parser.Parser.ParsePatternExpression | backend/parser/parser.go:190-204 | the pattern is the concatenated literals of the specification, with no error |
| Parser.Parser.ParseRangeExpression | backend/parser/parser.go:207-242 | node, new position and errors are those of the specification |
| Parser.Parser.ParseRedisCommand | backend/parser/parser.go:83-107 | the same, for a command |
| Parser.Parser.ParseStatement | backend/parser/parser.go:67-80 | the same, for a statement |
| Parser.Parser.ParseProgram | backend/parser/parser.go:51-64 | the program and errors are those of the specification |
| Parser.ParseCommand | backend/parser/parser.go:245-251 | a command parsed from text, with its errors, as specified |
| Parser.ParseCommands | backend/parser/parser.go:254-260 | a program parsed from text, with its errors, as specified |
| Parser.KeywordOptions | backend/parser/parser.go:290-293 | there are no more options than arguments |
| Parser.InfoUpToTypes | backend/parser/parser.go:276-278 | `InfoUpTo`: the k-th type name is the k-th argument's `Type()` |
| Parser.InfoUpToOptions | backend/parser/parser.go:290-293 | `InfoUpTo`: the options are the renderings of the keyword arguments, in order |
| Parser.InfoUpToKey | backend/parser/parser.go:280-283 | `InfoUpTo`: has_key holds exactly when the first argument is an identifier or a string |
| Parser.InfoUpToValue | backend/parser/parser.go:285-288 | `InfoUpTo`: has_value holds exactly when some argument is a string, integer or float |
| Parser.CommandInfoFacts | backend/parser/parser.go:263-300 | `InfoUpTo`: all fields of the summary at once, in terms of the arguments |
| Parser.InfoStep | backend/parser/parser.go:276-294 | `InfoUpTo`: one turn of the summary loop |
| Parser.GetCommandInfo | backend/parser/parser.go:263-300 | the loop computes the summary fold |
| ParserProperties.ExprFacts | backend/parser/parser.go:110-135 | an expression is built exactly when no error is recorded, and never as an option node |
| ParserProperties.RangeFacts | backend/parser/parser.go:207-242 | the same for a range |
| ParserProperties.ArgsCount | backend/parser/parser.go:98-104 | an argument that fails is dropped: the list is shorter than the attempts exactly when errors were recorded |
| ParserProperties.ArgsNoOptions | backend/parser/parser.go:98-104 | no argument is an option node |
| ParserProperties.CommandFacts | backend/parser/parser.go:83-107 | a command is built exactly when the current token is an identifier; otherwise there is one error naming the kind found |
| ParserProperties.StatementSkipsBlankLines | backend/parser/parser.go:69-71 | a leading NEWLINE changes nothing about the statement |
| ParserProperties.ProgramFacts | backend/parser/parser.go:51-64 | no command of a parsed script has an option argument |
| ParserProperties.EndIsEof | backend/lexer/lexer.go:115-120 | the end of the input lexes as EOF |
| ParserProperties.EmptyInput | backend/parser/parser_test.go:271-278 | empty text is one error at line 1, column 1 as a command, and an empty program |
| ParserProperties.NumberIsNotACommand | backend/parser/parser.go:84-87 | `123` is not a command: one error at line 1, column 1 about an INT |
| ParserProperties.ParseSetKeyValue | backend/parser/parser.go:83-107 | any source producing SET, key, value and EOF parses into that command and that script |
| ParserProperties.SetKeyValueCommand | backend/parser/parser.go:83-107 | the text `SET key value` parses into SET with two identifiers |
| ParserProperties.IntegerToken | backend/parser/parser.go:154-165 | an INT token that parses gives its integer node without error |
| ParserProperties.IntegerScan | backend/lexer/lexer.go:129-139 | the rendering of an integer lexes as one INT token |
| ParserProperties.NumeralLexes | backend/lexer/lexer.go:170-192 | a text of digits with an optional `-` is one number to its end |
| ParserProperties.DigitsRunToEnd | backend/lexer/lexer.go:179-181 | a run of digits that reaches a non-digit ends at the end |
| ParserProperties.IntegerRoundTrip | backend/parser/ast.go:72 | `Render`: a 64-bit integer node renders to text that parses back to the same node |
| ParserProperties.StringRoundTrip | backend/parser/ast.go:62 | `Render`: a well-escaped string node renders to text that parses back to the same node |
| ParserProperties.WordExpr | backend/parser/parser.go:112-126 | a word is an identifier or keyword node, which renders as the word |
| ParserProperties.WordToken | backend/parser/parser.go:112-126 | a word token not followed by `:` parses into its word node |
| ParserProperties.WordRunsToEnd | backend/lexer/lexer.go:163 | a word made only of identifier bytes runs to its end |
| ParserProperties.WordScan | backend/lexer/lexer.go:122-128 | a word lexes as one token of its own text, then EOF |
| ParserProperties.WordLexes | backend/lexer/lexer.go:122-128 | a word is one identifier scan to its end |
| ParserProperties.WordRoundTrip | backend/parser/ast.go:52 | `Render`: an identifier or keyword renders to text that parses back to the same node |
| ParserProperties.WordSource | backend/lexer/lexer.go:122-128 | a word's token source has the word as current token and EOF as lookahead |
| ParserProperties.SetWithExpiryInfo | backend/parser/parser_test.go:196-226 | the summary of `SET mykey "value" EX 60`: 4 arguments, options `[EX]`, a key and a value |
| RoundTrip.RenderIsByteText | backend/parser/ast.go:52-114 | `Render`: the text of a node whose names and strings are bytes is bytes |
| RoundTrip.TokenStart | backend/lexer/lexer.go:61-143 | a letter, a digit, a quote, `[`, or `-` then a digit never starts a COLON, EOF or NEWLINE token |
| RoundTrip.StartsToken | backend/parser/ast.go:52-114 | the rendering of a reparsable argument starts with a byte that is not blank and starts a token that is not COLON, EOF or NEWLINE |
| RoundTrip.WordScanned | backend/lexer/lexer.go:122-128 | a word placed at an offset is one identifier token of its own text ending after it |
| RoundTrip.IntegerScanned | backend/lexer/lexer.go:129-139 | the rendering of an integer placed at an offset is one INT token of that text ending after it |
| RoundTrip.ParsesBack | backend/parser/parser.go:110-135 | a reparsable argument (word, well-escaped string, 64-bit integer, range of those) whose tokens stand in the source parses back into itself without error, up to its last token |
| RoundTrip.RangeToken | backend/parser/parser.go:207-242 | `[`, a bound that parses, `,`, a bound that parses and `]` give the range of the two bounds without error |
| RoundTrip.ArgsParseBack | backend/parser/parser.go:98-104 | tokens of reparsable arguments followed by EOF give exactly those arguments, in order and without error |
| RoundTrip.LexYields | backend/parser/ast.go:52-114 | the rendering of a reparsable argument, followed by a blank, NEWLINE or EOF, lexes as the tokens the parser reads it back from, ending where the rendering ends |
| RoundTrip.RangeYields | backend/parser/ast.go:112-113 | the same, for the rendering `[a, b]` of a range |
| RoundTrip.ArgsLexYield | backend/parser/ast.go:33-40 | the arguments of a command, rendered one after another with single spaces, lex as their tokens, followed by EOF |
| RoundTrip.CommandLayout | backend/parser/ast.go:33-40 | a command's rendering is its name, a space, then its arguments separated by spaces |
| RoundTrip.CommandParses | backend/parser/parser.go:83-107 | the command rule over a command's rendering builds that command without error, with EOF ahead |
| RoundTrip.LoneCommand | backend/parser/parser.go:51-64 | a script whose one command parses without error before EOF is that one command |
| RoundTrip.CommandRoundTrip | backend/parser/ast.go:33-40 | a command with an unreserved word as name and reparsable arguments renders to text that parses back into the same command and the same one-command script, without error |
| RoundTrip.SingleQuotedString | backend/lexer/lexer.go:219-240 | `'a"b'` is one STRING token whose literal `a"b` holds a bare `"` |
| RoundTrip.SingleQuotedParse | backend/parser/parser.go:83-107 | `SET k 'a"b'` parses into SET with the identifier `k` and the string `a"b`, without error |
| RoundTrip.QuotedRendering | backend/parser/ast.go:33-40 | that command renders as `SET k "a"b"` |
| RoundTrip.RenderedString | backend/lexer/lexer.go:195-216 | in `SET k "a"b"` the first string stops at the second `"`, and `b` follows as an identifier |
| RoundTrip.SplitQuoteCommand | backend/parser/parser.go:83-107 | a command word followed by `k`, the string `a`, `b`, an empty string and EOF parses into those four arguments |
| RoundTrip.RenderedParse | backend/parser/parser.go:83-107 | `SET k "a"b"` parses into SET with `k`, `"a"`, `b` and `""` |
| RoundTrip.QuoteBreaksRoundTrip | backend/parser/ast.go:62 | `String()` of a string read from single quotes that holds a bare `"` is text that parses into a different command |
| Patterns.WalkOn | backend/parser/parser.go:194-196 | `Walk`: one more `nextToken` moves from where the walk ended to the position after it |
| Patterns.RunIsUnique | backend/parser/parser.go:194-198 | `MaximalRun`: a run of `*`, `?`, identifier and `:` tokens that cannot be extended has exactly one length |
| Patterns.PatternRunTokens | backend/parser/parser.go:194-198 | `PatternRun`: the loop passes over exactly the maximal run of pattern tokens after the current one (every token it takes is `*`, `?`, an identifier or `:`, and the next one is not), gathers their literals in order and stops on the last of them |
| Patterns.PatternMerges | backend/parser/parser.go:190-204 | `ParsePattern`: the pattern is the current token's literal followed by the literals of that maximal run, without error, and the parser ends on the run's last token |
| Patterns.PatternStarts | backend/parser/parser.go:110-135 | `ParseExpr`: a pattern node is built exactly at an identifier followed by `:` or at a bare `*` or `?`, and there the expression rule is the pattern rule |
| Patterns.SymbolLexed | backend/lexer/lexer.go:55-78 | a `:`, `*` or `?` after whitespace is a one-byte token of its symbol kind |
| Patterns.OneSpace | backend/lexer/lexer.go:242-247 | whitespace skipping stops at the first byte that is not a space, tab or carriage return |
| Patterns.ArgsPrepend | backend/parser/parser.go:98-104 | an argument that parses without error goes in front of the arguments after it |
| Patterns.UserUnreserved | backend/lexer/token.go:141-146 | `user` is read as an identifier |
| Patterns.CommandWordsUnreserved | backend/lexer/token.go:141-146 | `GET` and `SCAN` are read as identifiers |
| Patterns.ScanKeywords | backend/lexer/token.go:127-146 | `MATCH` and `COUNT` are read as their keyword kinds |
| Patterns.UserStarWord | backend/lexer/lexer.go:121-128 | `user:*` starts with the identifier `user` |
| Patterns.UserStarSymbols | backend/lexer/lexer.go:55-78 | `user:*` goes on with COLON and ASTERISK, then EOF |
| Patterns.IdentColonStar | backend/parser/parser.go:190-204 | an identifier, `:` and `*` before EOF are one pattern of their three literals |
| Patterns.UserStarPattern | backend/parser/parser.go:113-116 | `user:*` is the one pattern expression `user:*`, without error |
| Patterns.GetWord | backend/lexer/lexer.go:121-128 | `GET user:1` starts with the identifier `GET` |
| Patterns.GetUserWord | backend/lexer/lexer.go:121-128 | then the identifier `user` |
| Patterns.GetUserColon | backend/lexer/lexer.go:76-77 | then COLON |
| Patterns.GetUserInteger | backend/lexer/lexer.go:129-139 | then the INT `1` and EOF |
| Patterns.IntegerAfterColon | backend/parser/parser.go:194-198 | an INT after `w:` is not taken into the pattern, which is `w:` |
| Patterns.IntegerEndsPattern | backend/parser/parser.go:190-204 | a command word, `w`, `:` and INT `1` give two arguments, the pattern `w:` and the integer 1, without error |
| Patterns.GetUserOneParse | backend/parser/parser.go:190-204 | `GET user:1` parses into GET with the pattern `user:` and the integer 1, without error |
| Patterns.ScanWord | backend/lexer/lexer.go:121-128 | the SCAN text starts with the identifier `SCAN` |
| Patterns.ScanZero | backend/lexer/lexer.go:129-139 | then the INT `0` |
| Patterns.ScanMatch | backend/lexer/lexer.go:121-128 | then the MATCH keyword |
| Patterns.ScanUser | backend/lexer/lexer.go:121-128 | then the identifier `user` |
| Patterns.ScanSymbols | backend/lexer/lexer.go:55-78 | then COLON and ASTERISK |
| Patterns.ScanCount | backend/lexer/lexer.go:121-128 | then the COUNT keyword |
| Patterns.ScanTen | backend/lexer/lexer.go:129-139 | then the INT `10` and EOF |
| Patterns.ScanPattern | backend/parser/parser.go:190-204 | between MATCH and COUNT, `user`, `:` and `*` merge into the pattern `user:*`, which stops before the keyword |
| Patterns.ScanTail | backend/parser/parser.go:98-104 | COUNT and 10 are the last two arguments |
| Patterns.ScanArguments | backend/parser/parser.go:98-104 | the tokens of the SCAN text yield its five arguments |
| Patterns.ScanMatchParse | backend/parser/parser_test.go:156-194 | `SCAN 0 MATCH user:* COUNT 10` parses without error into SCAN with 0, the keyword MATCH, the pattern `user:*`, the keyword COUNT and 10; as a script it is that one command |
| Semantic.BuiltinKeys | backend/semantic/analyzer.go:63-157 | the table holds exactly GET, SET, DEL, HGET, HSET, ZADD, ZRANGE and SCAN |
| Semantic.StoreKeepsKeyed | backend/semantic/analyzer.go:409-411 | storing a spec under its upper-case name keeps every entry under its own name |
| Semantic.BuiltinWrites | backend/semantic/analyzer.go:63-157 | the eight writes lay the built-in table over the one there |
| Semantic.MergeKeepsKeyed | backend/semantic/analyzer.go:63-157 | laying one table keyed by name over another keeps it keyed by name |
| Semantic.KeyedSummary | backend/semantic/analyzer.go:160-216 | in a table keyed by name, a command that is found is summarised under the upper-case name of its spec |
| Semantic.MergeIntoEmpty | backend/semantic/analyzer.go:54-60 | filling the empty table yields the built-in table |
| Semantic.NamesAreUpper | backend/semantic/analyzer.go:63-157 | the built-in names are already upper case |
| Semantic.ShortNamesAreUpper | backend/semantic/analyzer.go:63-157 | the same for GET, SET, DEL and SCAN |
| Semantic.LongNamesAreUpper | backend/semantic/analyzer.go:99-141 | the same for HGET, HSET, ZADD and ZRANGE |
| Semantic.BuiltinNames | backend/semantic/analyzer.go:63-157 | each built-in spec is stored under its own name |
| Semantic.BuiltinArity | backend/semantic/analyzer.go:63-157 | every built-in spec has 0 <= minArgs <= maxArgs or an unlimited maxArgs |
| Semantic.ArityErrors | backend/semantic/analyzer.go:181-199 | INSUFFICIENT_ARGS exactly when too few, EXCESSIVE_ARGS exactly when a bounded maximum is exceeded, nothing else |
| Semantic.AcceptedKinds | backend/semantic/analyzer.go:228-285 | `Accepts`: the node kinds each category accepts; `value` and unknown categories accept everything |
| Semantic.ErrorPosition | backend/semantic/analyzer.go:219-287 | `TypeErrorsUpTo`: each reported type error names a position below k whose argument the declared type does not accept, with that position, type and actual type |
| Semantic.TypeErrorsBound | backend/semantic/analyzer.go:219-287 | `TypeErrorsUpTo`: each position adds at most one type error |
| Semantic.TypeErrorsSound | backend/semantic/analyzer.go:219-287 | `TypeErrorsUpTo`: every reported type error is the error of a mismatched position below k |
| Semantic.MismatchReported | backend/semantic/analyzer.go:219-287 | `TypeErrorsUpTo`: a mismatched position below k has its error reported; later positions only append |
| Semantic.TypeErrorsComplete | backend/semantic/analyzer.go:219-287 | `TypeErrorsUpTo`: every mismatched position below k is reported, so a mismatch does not stop the check |
| Semantic.TypeErrorsUpToExact | backend/semantic/analyzer.go:219-287 | `TypeErrorsUpTo`: the type errors of the first k positions are exactly the mismatches there |
| Semantic.TypeErrorsExact | backend/semantic/analyzer.go:219-287 | `TypeErrors`: the type errors are exactly the mismatches at checked positions; there are none exactly when every checked argument is accepted |
| Semantic.ValueIssuesFacts | backend/semantic/analyzer.go:341-387 | `ValueIssues`: an integer option's value errors, and the pattern and string value warnings, in both directions |
| Semantic.IntegerOptionValue | backend/semantic/analyzer.go:352-375 | `ValueIssues`: an integer value is refused only for EX or PX and only when not positive |
| Semantic.ConflictErrorsExact | backend/semantic/analyzer.go:306-316 | `ConflictErrors`: a conflict is reported exactly for each listed conflict already seen |
| Semantic.OptionAt | backend/semantic/analyzer.go:293-336 | one step of the option scan moves forward and stays within the arguments |
| Semantic.OptionScanErrors | backend/semantic/analyzer.go:290-338 | `OptionScan`: the scan reports only conflicts and missing values under the command's name, and value errors under `unknown` |
| Semantic.ScanPassesOver | backend/semantic/analyzer.go:294-295 | `OptionScan`: an argument that is not a keyword is passed over silently |
| Semantic.ScanUnknownOption | backend/semantic/analyzer.go:299-303 | `OptionScan`: an unknown option only warns, and does not take a value |
| Semantic.ScanFlag | backend/semantic/analyzer.go:306-318 | `OptionScan`: an option without a value reports its conflicts and is marked as seen |
| Semantic.ScanValued | backend/semantic/analyzer.go:320-335 | `OptionScan`: an option with a value takes the next argument whatever its kind, or reports the value missing at the end |
| Semantic.NoKeywordsNoIssues | backend/semantic/analyzer.go:290-338 | `OptionIssues`: a command without keyword arguments has no option issues |
| Semantic.ValidIffNoErrors | backend/semantic/analyzer.go:160-216 | `Validation`: a result is valid exactly when it has no errors |
| Semantic.UnknownLookup | backend/semantic/analyzer.go:168-179 | `Validation`: a name missing from the table gives one UNKNOWN_COMMAND error and nothing else |
| Semantic.KnownNotUnknown | backend/semantic/analyzer.go:160-216 | `Validation`: a name found in the table never gives UNKNOWN_COMMAND |
| Semantic.KnownSummary | backend/semantic/analyzer.go:207-215 | `Validation`: a found command's summary holds the upper-cased name, the description, whether there is a key, and the key argument when it was given |
| Semantic.CommandLookup | backend/semantic/analyzer.go:160-216 | `Validation`: an unknown name gives only UNKNOWN_COMMAND; a known one gives its name, description, has_key and key text |
| Semantic.ArityChecks | backend/semantic/analyzer.go:181-199 | `Validation`: the arity errors of a validation and exactly when they occur |
| Semantic.LaterErrors | backend/semantic/analyzer.go:201-205 | `Validation`: the type and option checks report no arity error |
| Semantic.KnownCommandErrors | backend/semantic/analyzer.go:160-216 | `Validation`: every type mismatch is reported and every reported mismatch is real; every error is an arity, type or option error; the warnings are the option scan's |
| Semantic.ValidateProgram | backend/semantic/analyzer.go:390-401 | one result per command, in order, each the command's own validation |
| Semantic.ValidateProgramAppend | backend/semantic/analyzer.go:390-401 | validating two scripts one after the other is validating them joined |
| Semantic.Analyzer.constructor | backend/semantic/analyzer.go:54-60 | a new analyzer holds the built-in table |
| Semantic.Analyzer.InitializeCommands | backend/semantic/analyzer.go:63-157 | the built-in specs are written over the table, which stays keyed by name |
| Semantic.Analyzer.AddCommandSpec | backend/semantic/analyzer.go:409-411 | the spec is stored under its upper-case name, and commands of that name now validate against it |
| Semantic.Analyzer.ValidateArgumentTypes | backend/semantic/analyzer.go:219-287 | the loop appends exactly the type errors and clears `valid` when there are any |
| Semantic.Analyzer.ValidateOptions | backend/semantic/analyzer.go:290-338 | the loop appends exactly the option scan's errors and warnings |
| Semantic.Analyzer.KnownOption | backend/semantic/analyzer.go:306-335 | one listed option: its conflicts, its value check, and where the scan resumes |
| Semantic.Analyzer.ConflictsWith | backend/semantic/analyzer.go:307-316 | the conflict loop reports the listed conflicts already seen |
| Semantic.Analyzer.ValidateCommand | backend/semantic/analyzer.go:160-216 | the result is the specified validation against the current table |
| SemanticExamples.KeyAndValueSkipped | backend/semantic/analyzer.go:294-295 | the option scan passes over a key and a value |
| SemanticExamples.SetOptions | backend/semantic/analyzer.go:80-85 | the options of SET and their conflicts |
| SemanticExamples.ExThenPxConflicts | backend/semantic/analyzer_test.go:107-111 | `SET k v EX 60 PX 60000` has exactly one conflict, PX with EX |
| SemanticExamples.PxThenExAccepted | backend/semantic/analyzer.go:81-82 | `SET k v PX 60000 EX 60` has no issue: the conflict is listed only under PX |
| SemanticExamples.ExPxAtEnd | backend/semantic/analyzer.go:306-316 | EX then PX with positive values, at the end of a SET, conflict once |
| SemanticExamples.PxExAtEnd | backend/semantic/analyzer.go:306-316 | PX then EX with positive values, at the end of a SET, do not conflict |
| SemanticExamples.PositiveExpiry | backend/semantic/analyzer.go:362-373 | EX or PX with a positive integer reports only its conflicts and skips the value |
| SemanticExamples.NxXxAtEnd | backend/semantic/analyzer.go:83-84 | NX then XX at the end of a SET conflict once |
| SemanticExamples.NxThenXxConflicts | backend/semantic/analyzer_test.go:101-105 | `SET k v NX XX` has exactly one conflict |
| SemanticExamples.XxThenNxConflicts | backend/semantic/analyzer.go:83-84 | `SET k v XX NX` has exactly one conflict, the other way round |
| SemanticExamples.ExpiryMustBePositive | backend/semantic/analyzer_test.go:119-123 | `SET k v ex t` with t <= 0 is one range error, and a lower-case option is still recognised |
| SemanticExamples.MissingExpiry | backend/semantic/analyzer_test.go:113-117 | `SET k v EX` is one missing-value error |
| SemanticExamples.ValueTakenWhateverItsKind | backend/semantic/analyzer.go:329-333 | `SET k v EX NX XX`: NX is taken as EX's value and refused, so XX does not conflict |
| SemanticExamples.ExNxXxAtEnd | backend/semantic/analyzer.go:329-333 | the tail of that command |
| SemanticExamples.MatchIsNotASetOption | backend/semantic/analyzer.go:80-85 | MATCH is not an option of SET |
| SemanticExamples.UnknownOptionOnlyWarns | backend/semantic/analyzer.go:300-303 | `SET k v MATCH NX XX`: one warning for MATCH, and NX and XX still conflict |
| SemanticExamples.MatchNxXxAtEnd | backend/semantic/analyzer.go:300-303 | the tail of that command |
| SemanticExamples.ScanOptions | backend/semantic/analyzer.go:150-154 | the options of SCAN |
| SemanticExamples.CountHasNoRangeCheck | backend/semantic/analyzer.go:362-373 | `SCAN c COUNT 0` has no issue: only EX and PX are range-checked |
| SemanticExamples.PatternAndStringOnlyWarn | backend/semantic/analyzer.go:376-385 | integers after MATCH and TYPE give two warnings and no error |
| SemanticExamples.MatchTypeAtEnd | backend/semantic/analyzer.go:376-385 | the tail of that command |
| SemanticExamples.IntegerPattern | backend/semantic/analyzer.go:376-380 | MATCH with an integer only warns |
| SemanticExamples.IntegerTypeAtEnd | backend/semantic/analyzer.go:381-385 | TYPE with an integer only warns |
| SemanticExamples.StringScoreRefused | backend/semantic/analyzer_test.go:175-179 | a string score of ZADD is one type mismatch at argument 2 |
| SemanticExamples.FloatScoreAccepted | backend/semantic/analyzer_test.go:165-168 | a float score of ZADD is accepted |
| SemanticExamples.StringCursorRefused | backend/semantic/analyzer_test.go:247-251 | a string cursor of SCAN is one type mismatch at argument 1 |
| SemanticExamples.GetIsValid | backend/semantic/analyzer_test.go:18-22 | `GET key` is valid, with its name, description and key |
| SemanticExamples.GetWithTwoKeys | backend/semantic/analyzer_test.go:28-32 | `GET a b` is exactly one EXCESSIVE_ARGS error |
| SemanticExamples.GetWithoutKey | backend/semantic/analyzer_test.go:34-38 | `GET` is exactly one INSUFFICIENT_ARGS error |
| Findings.StringEndAsWritten | backend/lexer/lexer.go:197-209 | the string scan as written ends on a quote or NUL, but steps over the byte after each escape |
| Findings.EscapedByteHidesClosingQuote | backend/lexer/lexer.go:203-208 | as written, `"\n"` keeps its closing quote in the literal; corrected, it does not |
| Findings.TrailingBackslashOverruns | backend/lexer/lexer.go:203-210 | as written, `"\` ends the scan one past the input; corrected, at its end |
| Findings.GoRender | backend/parser/ast.go:112-113 | `String()` of a Go value succeeds exactly when it is a node with no nil in it; otherwise a nil is dereferenced |
| Findings.LiftRenders | backend/parser/ast.go:52-114 | a node of the corrected model renders in Go as the model renders it |
| Findings.ExprAsWritten | backend/parser/parser.go:110-135 | as written a failed integer, float or range is a nil pointer, not a nil interface; a plain nil comes only with the one unexpected-token error |
| Findings.RangeAsWritten | backend/parser/parser.go:207-242 | as written a range fails only as a nil pointer, never as a plain nil, and a bound that is a nil pointer goes into the range |
| Findings.ExprAgrees | backend/parser/parser.go:110-135 | where the corrected parser builds a node, the code as written builds the same node with the same position and errors; a nil-free node as written is one the corrected parser builds |
| Findings.BuiltRangeAgrees | backend/parser/parser.go:207-242 | a range the corrected parser builds is the range the code builds, with the same position and errors |
| Findings.NilFreeRangeAgrees | backend/parser/parser.go:207-242 | a range the code builds with no nil in it is one the corrected parser builds |
| Findings.OctalAsWritten | backend/parser/parser.go:154-161 | as written `08` is a nil `*IntegerLiteral` with one error |
| Findings.OneAsWritten | backend/parser/parser.go:154-165 | `1` is an integer node without error |
| Findings.NilBoundKept | backend/parser/parser.go:215-218 | as written `[08, 1]` is a range with a nil start and one error, whose `String()` dereferences the nil; corrected, the range fails at its start with the same error |
| Findings.AppendAsWritten | backend/parser/parser.go:101-103 | only a plain nil is left out of the list |
| Findings.TypedNilArgumentKept | backend/parser/parser.go:154-161 | `08` fails to parse, yet as written it is kept as an argument; corrected, it is dropped |
| Findings.FailedArgumentDropped | backend/parser/parser.go:98-104 | corrected: an argument that fails leaves at least one error and no node, and the loop goes on after it |
| Findings.StatementAsWritten | backend/parser/parser.go:67-80 | a failed command is a nil pointer, not a nil statement |
| Findings.NilCommandKept | backend/parser/parser.go:57-58 | as written, the script `123` keeps a nil command; corrected, it has none |
| Findings.FailedCommandDropped | backend/parser/parser.go:55-61 | corrected: a statement without a command adds nothing to the program, and it has errors exactly when it is not the end of the input |
| Findings.NumberStatement | backend/parser/parser.go:79 | the statement `123` yields no command and one error |

## Left out

- Message texts of errors and warnings are not modelled. Errors and warnings are structured values (`ErrorKind`, `Warning`, `ErrorReason`) that carry the numbers and names a message mentions.
- `SemanticError.Position` is never set by the analyzer and is not modelled.
- `GetCommandSpecs` only returns the table. The model's `commands` field is that table.
- The `CommandInfo` results are modelled as records instead of `map[string]interface{}`: `Parser.CommandInfo` for `GetCommandInfo`, and `Semantic.Summary` for the validation result. The record's fields are exactly the keys the code writes.
- Parser.ParseExpr: a float literal keeps its text, and `strconv.ParseFloat` and the `%f` rendering of floats are not modelled. The lexer reads no exponent (`1e400` is INT `1` then IDENT `e400`), so `ParseFloat` fails only on a FLOAT literal with more than about 309 integer digits, where it overflows. There the code records an error and keeps a nil `*FloatLiteral`, while `ParseExpr` builds a float node. No float round trip is stated.
- `Parser.ParseGoInt` models decimal and leading-zero octal syntax with the 64-bit bounds. The `0x`, `0o`, `0b` prefixes and `_` separators of Go's base-0 syntax cannot occur, because the lexer never puts letters or `_` into a number.
- `Text.Upper` upper-cases ASCII letters only. The lexer only passes it ASCII identifiers. Other non-ASCII case folding of `strings.ToUpper` is not modelled.
- AST nodes do not keep their `Token` field. No property of the core reads it back.
- The `'['` check at the top of `parseRangeExpression` cannot fail, because the range rule is only entered on `[`, so `Parser.ParseRange` requires `[`.
- The network API, the Redis client, the demos and the debug entry points are not part of this model.
- Parser.ParseExpr: the parsing rules are specified over any token source that advances and reaches EOF within the input. `LexSource` is the lexer's. The class ties its lexer to that source.
- Parser.InfoUpTo, Semantic.OptionAt and Semantic.ValueIssues test node kinds with constructor tests where the code compares `Type()` strings. `Ast.NodeTypeNames` proves the two tests agree.
- Semantic.Analyzer.ValidateOptions keeps the loop of `validateOptions`, but the handling of one listed option lives in `KnownOption` and its conflict loop in `ConflictsWith`.
- Lexer.Lexer.ReadQuoted and Lexer.StringEnd model the escape handling corrected (see "## Findings"), not as written.
- Parser.ParseRange and Parser.Parser.ParseRangeExpression model the nil checks of `parseRangeExpression` (parser.go:216 and 228) corrected: a bound that fails ends the range. As written, a bound that is a nil pointer goes into the range (see "## Findings", `Findings.RangeAsWritten`).
- Parser.ArgsFrom and Parser.ProgramFrom drop a failed node; the code keeps some as nil pointers (see "## Findings").
- RoundTrip.CommandRoundTrip covers commands whose arguments are unreserved identifiers, keywords, strings with a well-escaped body of bytes, 64-bit integers and ranges of those. Patterns, floats and option nodes are left out: patterns because their text can run into a neighbouring word, floats because their `%f` rendering is not modelled, and option nodes because the parser never builds them. A string with a bare `"` is left out because it does not survive: `String()` does not escape it, and RoundTrip.QuoteBreaksRoundTrip shows `SET k 'a"b'` rendering as `SET k "a"b"`, which parses with four arguments.

## Findings

| source | as written | input that shows it | evidently intended | confidence | as-written member | corrected member |
|---|---|---|---|---|---|---|
| backend/lexer/lexer.go:203-208 | after a backslash the loop reads the escaped byte and one more, then reads again at the top of the loop, so the byte right after an escaped byte is never compared with the quote | `"\n"`: the scan runs over the closing quote and the literal is `\n"`; `"\` at the end of the input ends the scan one past the end, where the slice at line 210 is out of range | a backslash makes the scan step over exactly the one byte it escapes | not executed | Findings.EscapedByteHidesClosingQuote | Lexer.QuotedStringToken |
| backend/parser/parser.go:101-103 | `parseIntegerLiteral` returns a nil `*IntegerLiteral` on failure; as an `Expression` it is not nil, so the argument loop keeps it | `GET 08`: `08` is not valid base-0 syntax, one error is recorded, and the argument list still holds a nil node that `String()` would dereference | a failed argument is dropped and only its error remains | not executed | Findings.TypedNilArgumentKept | Findings.FailedArgumentDropped |
| backend/parser/parser.go:57-58 | `parseStatement` returns the nil `*RedisCommand` of a failed command as a `Statement`, which is not nil, so `ParseProgram` keeps it | `123`: the program holds one nil command, and `ValidateProgram` would dereference it | a failed command adds nothing to the program | not executed | Findings.NilCommandKept | Findings.FailedCommandDropped |
| backend/parser/parser.go:215-230 | `parseRangeExpression` gives up on a bound only when it is a plain nil, but a failed integer or float is a nil pointer, so the range goes on and is built with a nil bound | `GET [08, 1]`: one error is recorded, and the argument is a range whose start is a nil `*IntegerLiteral`; `String()` of that argument, as at analyzer.go:212, dereferences the nil | a bound that fails ends the range, which fails with the bound's errors | not executed | Findings.NilBoundKept | ParserProperties.RangeFacts |
