# bool-calculator: a verified model of the evaluation core

This project models the core of bool-calculator. That core is the `evaluation` package: a lexer, a recursive-descent parser, an expression evaluator built on seven gate primitives, and the generator of truth-table assignments. The model is written in Dafny, and properties of it are proved.

The pipeline is modelled stage by stage:

- **Gates** (`gates.dfy`): `nand`, `not`, `and`, `or`, `xor`, `mux` and `dmux` as pure functions.
  - Each gate's contract states it through other gates or by case. For example, `Nand` is `Not(And(..))` and `Mux` selects by `sel`.
  - Their truth tables are lemmas.
- **Lexer** (`lexer.dfy`): `Lex` is the reference definition of tokenization.
  - It skips whitespace, reads `(`, `)`, `,`, `0` and `1` as one-character tokens, and reads maximal letter runs as keywords (case-sensitive) or variables.
  - It fails on the first other character.
  - The source's `nextToken` and `ParseTokens` loops are the methods `NextToken` (with `SkipWhitespace` and `ScanToken`), `ReadLetters` and `ParseTokens`.
  - `NextToken` and `ParseTokens` are proved to compute `Lex`; `SkipWhitespace` and `ReadLetters` are proved to return the first non-whitespace index and the maximal letter run.
  - Lemmas prove that:
    - every token is well formed;
    - the tokens' literals concatenate to the input with its whitespace removed;
    - conversely, well-formed tokens with no two words side by side tokenize back from their literals;
    - tokenizing fails exactly when the input holds an invalid character, and then it reports the first one.
- **Expressions** (`expressions.dfy`): the expression tree is one datatype with one constructor per Go expression type.
  - `Evaluate` mirrors each `Evaluate` method, including its panics, which are modelled as the error `InternalPanic`.
  - `CollectInputs` is the loop of `collectInputs`.
  - `Evaluate`'s own contract states that any successful evaluation yields `NumOutputs` bits.
  - Lemmas prove that:
    - on a well-formed tree, evaluation never panics;
    - on a well-formed tree, evaluation succeeds exactly when every variable is bound;
    - on a well-formed tree, a failed evaluation names an unbound variable;
    - children are evaluated left to right;
    - the result depends only on the tree's own variables.
  - A tree that is not well formed can panic: `not(dmux(1,0))` built directly, without the parser, evaluates to `InternalPanic`.
- **Parser** (`parser.dfy`): `ParseNode`, `ArgList`, `ArgsLoop`, `ArgsTail` and `CloseArgs` define parsing as functions.
  - Each takes the token list, the cursor and the variable names seen so far, and returns the outcome with the new cursor and names.
  - The class `Parser` is the source's cursor-advancing parser. Its methods `Expect`, `Parse` and `ParseArgs` are proved equal to those functions.
  - `VariableSet` is the variable collector, which the methods update in place.
  - `ParseExpression` is proved equal to `Parse`, which is tokenizing followed by `ParseTokenList`.
  - Every parsed tree is well formed, and its variable set is exactly the tree's variables.
- **Parser completeness** (`parser_completeness.dfy`): the converse.
  - `Tokens` writes a well-formed tree out as tokens, and `Text` prints those tokens without spaces.
  - `TokensParse` proves that the tokens of every well-formed tree parse back to that tree, with exactly its variables.
  - `TextParses` proves the same from the printed text, when every variable name is a non-keyword letter run.
- **Parser properties** (`parser_properties.dfy`):
  - The parse of a complete gate expression is unaffected by any tokens that follow it.
  - A parsed expression evaluates without panicking.
  - The lemmas also give the outcomes of the source's test examples and of a few more, on token lists and on text.
- **Calculator** (`calculator.dfy`): `GenerateCombinations` keeps the source's nested loops over a fresh row buffer, and is proved to yield `Row(n, i)` at each index `i`.
  - `Row(n, i)` is the binary spelling of `i`, most significant bit first.
  - Lemmas prove that the rows are every boolean sequence of length `n`, each exactly once, in ascending lexicographic order, from all false to all true.
- **Truth tables** (`truth_table.dfy`): `TruthTable` evaluates a tree under each row of `GenerateCombinations`. `Compute` is not modelled: `TruthTable` covers only what evaluation/calculator_test.go asserts about `Compute`'s output. The variable order is a parameter, and the examples use `X`, `Y`, the order the tests list.
  - A lemma characterises when the table exists and what each row holds.
  - Lemmas give the tables of the test cases `1`, `0`, `X`, `and(X,Y)`, `or(X,Y)` and `not(X)`.
  - `dmux(1,0)` is an example of the model's own, not a test case: a gate with two outputs and no variables has one row of two bits.
- **Calculator examples** (`calculator_examples.dfy`): each case of evaluation/calculator_test.go from its text: the text parses to the expected tree with the expected variables, and that tree has the expected table.

`ParseExpression` (evaluation/parser.go:21-52) never checks that every token was consumed. So `and(1,0) X` parses as `and(1,0)`, with no variables. `TrailingTokensIgnored` and `TextWithTrailingVariable` prove this.

The Go `VariableSet` is a `map[string]bool` whose values are always `true`. It is modelled as a `set<string>`.

## Model

| member | source | states |
|---|---|---|
| Gates.Nand | evaluation/gates.go:3-5 | nand is the negation of and |
| Gates.Not | evaluation/gates.go:7-9 | not flips its input |
| Gates.And | evaluation/gates.go:11-13 | and is a mux choosing `a` when `b` holds and false otherwise |
| Gates.Or | evaluation/gates.go:15-17 | or is the De Morgan dual of and |
| Gates.Xor | evaluation/gates.go:19-21 | xor holds when at least one input holds and not both |
| Gates.Mux | evaluation/gates.go:23-28 | mux yields `a` when `sel` holds and `b` otherwise |
| Gates.Dmux | evaluation/gates.go:30-35 | dmux routes `a` to the second output when `sel` holds and to the first otherwise; the other output is false |
| Gates.NotInvolution | evaluation/gates.go:7-9 | not applied twice is the identity |
| Gates.BinaryTruthTables | evaluation/gates.go:3-21 | the full truth tables of nand, and, or, xor and not |
| Gates.XorIsInequality | evaluation/gates.go:19-21 | xor is inequality of its inputs |
| Gates.MuxTruthTable | evaluation/gates.go:23-28 | the eight rows of the mux truth table |
| Gates.DmuxRoutes | evaluation/gates.go:30-35 | at most one dmux output is set; their or, and a mux of them by `sel`, give back the data input |
| Lexer.IsWhitespace | evaluation/lexer.go:116-118 | space, tab, newline and carriage return are whitespace; `LexSkipsWhitespace` and `LexOnlyWhitespace` state what the lexer does with them |
| Lexer.IsLetter | evaluation/lexer.go:120-122 | ASCII letters of either case; `LetterRun` and `LexIdentifier` state how runs of them are read |
| Lexer.Lex | evaluation/lexer.go:55-114 | the reference tokenization that `ParseTokens` is proved to compute; its properties are the lemmas `LexRoundTrip`, `LexLiterals`, `LexTokensWellFormed` and `LexFailsIff` |
| Lexer.Identifier | evaluation/lexer.go:102-107 | a letter run is a gate token exactly when it is one of the seven keywords, and a variable otherwise; the literal is the run itself |
| Lexer.LetterRun | evaluation/lexer.go:95-100 | the identifier loop reads the longest run of letters |
| Lexer.LexSkipsWhitespace | evaluation/lexer.go:70-73 | leading whitespace does not change the tokens |
| Lexer.LexIdentifier | evaluation/lexer.go:94-107 | a maximal letter run becomes one identifier token in front of the tokens of the rest |
| Lexer.LexSingleChar | evaluation/lexer.go:84-92 | each of `(`, `)`, `,`, `0` and `1` is one token in front of the tokens of the rest |
| Lexer.LexInvalid | evaluation/lexer.go:108-110 | a character that is no whitespace, letter or one-character token ends tokenizing with an error |
| Lexer.SkipWhitespace | evaluation/lexer.go:71-73 | the loop stops at the end of the text or at its first non-whitespace character from the index, skipping only whitespace |
| Lexer.LexAfterWhitespace | evaluation/lexer.go:71-73 | the tokens from the index are those from the end of the whitespace skipped |
| Lexer.ScanToken | evaluation/lexer.go:81-113 | the token read at a non-whitespace character is the first step of `Lex` from there; a letter token's run is maximal; its literal is the text just read |
| Lexer.ReadLetters | evaluation/lexer.go:95-100 | the loop returns the maximal letter run from the start and the index after it |
| Lexer.NextToken | evaluation/lexer.go:66-114 | the scan advances past the token it returns; end of input exactly when only whitespace remains; a token's literal is the text just before the new index; the outcome is the first step of `Lex` |
| Lexer.ParseTokens | evaluation/lexer.go:55-64 | the token loop returns exactly `Lex(text)`: all tokens, or the first error |
| Lexer.LexOnlyWhitespace | evaluation/lexer.go:70-78 | text made only of whitespace has no tokens |
| Lexer.RemoveWhitespaceOfLetters | evaluation/lexer.go:116-122 | letters are never whitespace, so removing whitespace keeps a letter run |
| Lexer.LexTokensWellFormed | evaluation/lexer.go:84-107 | every token is well formed: a value's literal is `0` or `1`, punctuation has its own character, a variable is a nonempty non-keyword letter run, a gate has its keyword |
| Lexer.LexRoundTrip | evaluation/lexer.go:55-114 | the tokens' literals, concatenated, are the input with its whitespace removed |
| Lexer.LexFirstStep | evaluation/lexer.go:66-114 | one scanning step consumes valid characters only and keeps whether tokenizing fails, and with which error |
| Lexer.LexFailsOnInvalid | evaluation/lexer.go:108-110 | any invalid character makes tokenizing fail |
| Lexer.LexErrorIsFirstInvalid | evaluation/lexer.go:57-60 | a failure reports an invalid character that no earlier invalid character precedes |
| Lexer.IdentifierOfWord | evaluation/lexer.go:102-107 | the literal of a well-formed keyword or variable token is read back as that token |
| Lexer.LexWordFirst | evaluation/lexer.go:94-107 | a word's literal in front of text that starts with no letter gives that word in front of the text's tokens |
| Lexer.LexPunctuationFirst | evaluation/lexer.go:84-92 | a one-character token's literal in front of any text gives that token in front of the text's tokens |
| Lexer.LexLiterals | evaluation/lexer.go:55-114 | well-formed tokens with no two words side by side, written out one after the other, tokenize back to themselves |
| Lexer.LexFailsIff | evaluation/lexer.go:55-114 | tokenizing fails exactly when the text holds an invalid character |
| Expressions.NumOutputs | evaluation/parser.go:166-266 | a dmux node has two outputs and every other node one; `Evaluate`'s contract and `EvaluateWellFormed` state that evaluation yields that many bits |
| Expressions.Evaluate | evaluation/parser.go:170-278 | each node's `Evaluate`, panics included; any successful evaluation, of any tree, returns `NumOutputs` bits |
| Expressions.CollectedInputs | evaluation/parser.go:280-290 | the children's outputs in order, or the first error; a success has as many bits as the children's outputs sum to |
| Expressions.CollectInputs | evaluation/parser.go:280-290 | the loop returns the children's outputs concatenated left to right, or the first child's error |
| Expressions.EvaluateWellFormed | evaluation/parser.go:170-278 | on a well-formed tree, evaluation never panics; it succeeds exactly when all variables are bound, then with `NumOutputs` bits, and otherwise names an unbound variable of the tree |
| Expressions.CollectedInputsWellFormed | evaluation/parser.go:280-290 | on well-formed children, collecting inputs succeeds exactly when their variables are bound, then with as many bits as their outputs sum to |
| Expressions.CollectedInputsOrder | evaluation/parser.go:280-290 | children are evaluated left to right: a failure is that of the first failing child, and a success starts with the first child's bits |
| Expressions.EvaluateDependsOnVars | evaluation/parser.go:182-188 | bindings of names outside the tree do not change its value |
| Expressions.CollectedInputsDependOnVars | evaluation/parser.go:280-290 | bindings of names outside the children do not change their inputs |
| Parser.ExpectAtSucceedsIff | evaluation/parser.go:142-152 | expecting a token type succeeds exactly when a next token exists and has that type; otherwise the error is the end of input or names the token found |
| Parser.ParseNode | evaluation/parser.go:59-101 | parsing a node always consumes at least one token, and a successful parse ends within the tokens |
| Parser.ArgList | evaluation/parser.go:107-140 | an argument list consumes at least its `(`, ends within the tokens when it succeeds, and holds a child when inputs are expected |
| Parser.ArgsLoop | evaluation/parser.go:114-133 | the argument loop advances the cursor, ends within the tokens when it succeeds, and yields a child when slots remain |
| Parser.ArgsTail | evaluation/parser.go:126-132 | what follows a child advances the cursor and ends within the tokens when it succeeds |
| Parser.CloseArgs | evaluation/parser.go:134-137 | closing succeeds exactly when the next token is `)`, and it consumes that token |
| Parser.NodeWellFormed | evaluation/parser.go:59-101 | a parsed node is well formed, and the names seen afterwards are those before plus the node's variables |
| Parser.ArgListWellFormed | evaluation/parser.go:107-140 | an argument list's children are well formed, their outputs fill exactly the inputs expected, and their variables are added to the names seen |
| Parser.ArgsLoopWellFormed | evaluation/parser.go:114-133 | the argument loop fills exactly the remaining input slots with well-formed children, adding their variables to the names seen |
| Parser.ArgsTailWellFormed | evaluation/parser.go:126-132 | after a child, the rest of the loop fills exactly the inputs left, with well-formed children |
| Parser.VariableSet.constructor | evaluation/parser.go:46 | the collector starts empty |
| Parser.Parser.constructor | evaluation/parser.go:45 | the parser starts before the first token |
| Parser.Parser.Expect | evaluation/parser.go:142-152 | consumes one token and reports end of input or a token of the wrong type |
| Parser.Parser.Parse | evaluation/parser.go:59-101 | the method parses as `ParseNode`, leaving the cursor and the collected names it gives |
| Parser.Parser.ParseArgs | evaluation/parser.go:107-140 | the method parses as `ArgList`, leaving the cursor and the collected names it gives |
| Parser.ParseTokenList | evaluation/parser.go:27-51 | no tokens is an empty-expression error; several tokens not led by a gate is an error; a parsed tree is well formed and comes with exactly its variables |
| Parser.Parse | evaluation/parser.go:21-52 | a tokenizing error is passed on unchanged; a parsed tree is well formed and comes with exactly its variables |
| Parser.ParseExpression | evaluation/parser.go:21-52 | the method returns exactly `Parse(input)`: a tokenizing error, or the parse of the token list |
| ParserProperties.NodeReadsConsumed | evaluation/parser.go:59-101 | a successful node parse reads only the tokens it consumes: any token list agreeing on them parses the same |
| ParserProperties.ArgListReadsConsumed | evaluation/parser.go:107-140 | a successful argument list reads only the tokens up to its `)` |
| ParserProperties.ArgsLoopReadsConsumed | evaluation/parser.go:114-137 | the successful argument loop reads only the tokens up to its `)` |
| ParserProperties.ArgsTailReadsConsumed | evaluation/parser.go:126-137 | what follows a child reads only the tokens up to the closing `)` |
| ParserProperties.TrailingTokensIgnored | evaluation/parser.go:41-51 | tokens after a complete gate expression do not change the result |
| ParserProperties.ParsedEvaluates | evaluation/parser.go:21-52 | a parsed expression evaluates without panicking: to `NumOutputs` bits when its variables are bound, otherwise to an error naming one of them |
| ParserProperties.MuxOfNotParses | evaluation/parser_test.go:9-13 | the tokens of `mux(Y,not(X), sel)` parse to a mux of `Y`, `not(X)` and `sel`, with exactly those three variables |
| ParserProperties.DmuxFillsBinaryGate | evaluation/parser.go:114-128 | `and(dmux(1,0))` parses: one dmux fills both inputs of `and` |
| ParserProperties.DmuxOverfillsNot | evaluation/parser.go:122-124 | `not(dmux(1,0))` is a too-many-inputs error |
| ParserProperties.DmuxOneZero | evaluation/parser.go:91-96 | `dmux(1,0)` at any position parses to a dmux of two literals |
| ParserProperties.MissingArgument | evaluation/parser.go:129-132 | `and(1)` fails while expecting a comma, having found `)` |
| ParserProperties.ExtraArgument | evaluation/parser.go:134-137 | `and(1,0,1)` fails while expecting `)`, having found a comma |
| ParserProperties.UnfinishedArguments | evaluation/parser.go:129-132 | `and(X` fails with an end of input while expecting a comma |
| ParserProperties.TrailingVariableIgnored | evaluation/parser.go:45-51 | the tokens of `and(1,0) X` parse as `and(1,0)` with no variables |
| ParserProperties.LeadingToken | evaluation/parser.go:27-43 | two variables are rejected for lacking a leading gate; a lone variable or literal parses; a lone `(` is an invalid token; a lone `and` ends before its `(` |
| ParserProperties.LexAndTrailing | evaluation/lexer.go:55-114 | `and(1,0) X` tokenizes to seven tokens, the space dropped |
| ParserProperties.LexArguments | evaluation/lexer.go:84-92 | `(1,0) X` tokenizes to five punctuation and value tokens and a variable |
| ParserProperties.LexSpaceVariable | evaluation/lexer.go:70-107 | ` X` tokenizes to the variable `X` |
| ParserProperties.LexVariable | evaluation/lexer.go:94-107 | `X` tokenizes to the variable `X` |
| ParserProperties.TextWithTrailingVariable | evaluation/parser.go:21-52 | `ParseExpression("and(1,0) X")` succeeds with `and(1,0)` and no variables |
| ParserProperties.TextWithInvalidCharacter | evaluation/parser.go:22-25 | `and(2,0)` fails while tokenizing, at the character `2` |
| ParserProperties.TextUnfinished | evaluation/calculator_test.go:79-83 | `and(X` is rejected, at the end of input while expecting a comma |
| ParserCompleteness.GateWord | evaluation/lexer.go:40-48 | each of the seven gates has a keyword that the keyword table maps back to it |
| ParserCompleteness.NodeParses | evaluation/parser.go:59-101 | the tokens of any well-formed tree, wherever they sit in the list, parse back to that tree, consume exactly those tokens and add exactly its variables |
| ParserCompleteness.NotParses | evaluation/parser.go:73-78 | the tokens of a well-formed `not` node parse back to it |
| ParserCompleteness.GateParses | evaluation/parser.go:79-96 | the tokens of a well-formed binary, mux or dmux node parse back to it |
| ParserCompleteness.ListParses | evaluation/parser.go:107-140 | the tokens of well-formed children, separated by commas and closed by `)`, fill the argument loop exactly and give back those children |
| ParserCompleteness.LastParses | evaluation/parser.go:126-137 | the last child, followed by `)`, closes the argument loop |
| ParserCompleteness.ConsParses | evaluation/parser.go:126-132 | a child followed by a comma leaves the loop to parse the remaining children |
| ParserCompleteness.TokensParse | evaluation/parser.go:21-52 | every well-formed tree written out as tokens parses back to itself, with exactly its variables |
| ParserCompleteness.TokensLexable | evaluation/lexer.go:84-107 | the tokens of a tree whose variables have valid names are well formed and have no two words side by side |
| ParserCompleteness.TextParses | evaluation/parser.go:21-52 | every well-formed tree whose variable names are non-keyword letter runs, printed without spaces, parses back to itself with exactly its variables |
| Calculator.Pow2 | evaluation/calculator.go:4 | `1 << n` is at least 1 |
| Calculator.GenerateCombinations | evaluation/calculator.go:3-16 | the result has `2^n` rows, and row `i` is `Row(n, i)`, the binary digits of `i`, most significant first |
| Calculator.Bit | evaluation/calculator.go:10 | `i & (1 << j) != 0`, the bit `j` of `i`; `BitShift` and `RowSplit` state how it relates to `i / 2` |
| Calculator.Row | evaluation/calculator.go:8-11 | a row has one entry per input; entry `n - j - 1` is bit `j` of `i` |
| Calculator.BitShift | evaluation/calculator.go:10 | bit `j + 1` of `i` is bit `j` of `i / 2` |
| Calculator.RowSplit | evaluation/calculator.go:9-11 | a row is the row of `i / 2` with one input fewer, followed by the lowest bit of `i` |
| Calculator.RowSpellsIndex | evaluation/calculator.go:7-13 | row `i` spells `i` in binary |
| Calculator.AssignmentIsRow | evaluation/calculator.go:7-13 | every boolean sequence of length `n` is the row of the number it spells, and that number is below `2^n` |
| Calculator.RowsAreAllAssignments | evaluation/calculator.go:3-16 | the rows are every assignment of `n` inputs, each exactly once |
| Calculator.RowsAscend | evaluation/calculator.go:7-13 | a later row is lexicographically greater than an earlier one |
| Calculator.FirstAndLastRows | evaluation/calculator.go:7-13 | the first row is all false and the last all true |
| Calculator.AllFalseSpells | evaluation/calculator.go:7-13 | all false spells 0 |
| Calculator.AllTrueSpells | evaluation/calculator.go:7-13 | all true spells `2^n - 1` |
| TruthTables.Bind | evaluation/calculator_test.go:43-55 | the environment binds exactly the listed names |
| TruthTables.TruthTable | evaluation/calculator_test.go:15-84 | the outputs of a tree under every row of `GenerateCombinations`, in row order; `TruthTableWellFormed` states when it exists and what each row holds |
| TruthTables.BindLookup | evaluation/calculator_test.go:43-55 | with distinct names, each name is bound to its own column of the assignment |
| TruthTables.TableFromRowsOk | evaluation/calculator_test.go:15-84 | a table from row `i` has a row for each later assignment, holding the outputs under it |
| TruthTables.TableFromSucceeds | evaluation/calculator_test.go:15-84 | a well-formed expression whose variables are all listed has a table |
| TruthTables.TruthTableFails | evaluation/parser.go:182-187 | a variable missing from the list makes the table fail |
| TruthTables.TableFromRows | evaluation/calculator_test.go:15-84 | when every row evaluates to the matching entry of a list of `2^n` rows, the table is that list |
| TruthTables.TruthTableWellFormed | evaluation/calculator_test.go:15-84 | a well-formed expression has a table exactly when its variables are listed; it then has `2^n` rows, row `i` being the outputs under `Row(n, i)`, each with `NumOutputs` bits |
| TruthTables.AndTable | evaluation/calculator_test.go:43-55 | the outputs of `and(X,Y)` are false, false, false, true |
| TruthTables.AndRow | evaluation/calculator_test.go:43-55 | `and(X,Y)` is true only on the last row of its table |
| TruthTables.LiteralTable | evaluation/calculator_test.go:15-32 | a literal without variables has one row, holding its value |
| TruthTables.VariableTable | evaluation/calculator_test.go:33-41 | the outputs of `X` are false, true |
| TruthTables.OrTable | evaluation/calculator_test.go:56-69 | the outputs of `or(X,Y)` are false, true, true, true |
| TruthTables.OrRow | evaluation/calculator_test.go:56-69 | `or(X,Y)` is false only on the first row of its table |
| TruthTables.DmuxTable | evaluation/parser.go:268-278 | `dmux(1,0)` without variables has one row, `[true, false]` |
| TruthTables.NotTable | evaluation/calculator_test.go:70-78 | the outputs of `not(X)` are true, false |
| TruthTables.NotRow | evaluation/calculator_test.go:70-78 | `not(X)` is true only on the first row of its table |
| CalculatorExamples.ConstantCases | evaluation/calculator_test.go:15-32 | the texts `1` and `0` parse to literals without variables, with the single rows `[true]` and `[false]` |
| CalculatorExamples.VariableCase | evaluation/calculator_test.go:33-41 | the text `X` parses to the variable `X`, whose outputs are false, true |
| CalculatorExamples.NotCase | evaluation/calculator_test.go:70-78 | the text `not(X)` parses to `not` of `X`, with the variable `X` and the outputs true, false |
| CalculatorExamples.AndCase | evaluation/calculator_test.go:42-55 | the text `and(X,Y)` parses with the variables `X` and `Y`, and its outputs are false, false, false, true |
| CalculatorExamples.OrCase | evaluation/calculator_test.go:56-69 | the text `or(X,Y)` parses with the variables `X` and `Y`, and its outputs are false, true, true, true |
| CalculatorExamples.BinaryCase | evaluation/parser.go:79-84 | the text `g(X,Y)` of a binary gate `g` parses to that gate over `X` and `Y`, with exactly those variables |

## Left out

- cmd/tui.go, cmd/repl.go and main.go are not part of the model: the two front ends and the process entry point do terminal I/O only.
- `Compute` and `Result` are not modelled. `TruthTable` covers only what evaluation/calculator_test.go asserts about `Compute`'s output. The variable order is a parameter, and the examples use `X`, `Y`, the order the tests list. The `Assignments` and `Variables` fields of `Result` are not modelled.
- The messages of errors are left out: the texts built with `fmt.Errorf`, the `argsError` wrapping that names the gate, and `tokenString`, which only builds text for a message. Errors are a datatype whose variants carry the same facts: the expected token type, the token found, and the invalid character.
- TokenType.String is left out, as it only prints three token types for errors.
- The internal `tokenEOF` token type is modelled as the `EndOfInput` step of `NextToken` rather than as a token type.
- Tokenizing reads the text as characters, where the source indexes bytes. A non-ASCII character is invalid in both. The model reports it whole, where the source reports its first byte.
- Calculator.GenerateCombinations: takes `n` as a natural number. A negative `n` makes the source panic, and that case is left out.
- Calculator.Pow2: is exactly `2^n` and does not model Go's 64-bit `1 << n`. For `n` of 63 the shift is negative, so `make` (evaluation/calculator.go:5) panics; for `n` of 64 or more it is 0, and the source returns an empty table. The model covers `n` below 63, where the two agree; tables that large would not fit in memory anyway.
- Go slices that share backing arrays are not modelled. Each row is an independent sequence, as the source makes a fresh slice per row.
- The text of evaluation/parser_test.go:9, `mux(Y,not(X), sel)`, is modelled from its tokens (`MuxOfNotParses`); the text-level lemma `TextParses` covers texts printed without spaces, and the space it holds is dropped by the lexer (`LexSkipsWhitespace`).
- The test of the lexer that expects an invalid-character token type checks behaviour the lexer no longer has, since the lexer fails instead. The model follows the lexer.
