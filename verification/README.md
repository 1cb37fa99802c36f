# A verified model of the Baby compiler's three stages

The Baby compiler translates a small keyword language into x86-64 NASM
assembly that exits through a raw `exit` system call. Its core is three
header-only C++ stages:

- **`Tokenizer`** (`src/tokenizer.hpp`) is a maximal-munch scanner.
  - It produces keywords, identifiers, digit runs, one- and two-character operators, and quoted strings.
  - It skips whitespace, `secret` line comments and `hide … hide` block comments.
- **`Parser`** (`src/parser.hpp`) is recursive descent over the tokens with lookahead of up to three tokens.
  - It recognises `bye ( e ) ;` and `hope x = e ;`.
  - An expression is one integer literal or one identifier.
- **`Generator`** (`src/generation.hpp`) is a stack-slot code generator.
  - It keeps a name-to-slot map, a running push counter and an append-only output buffer.

The model is written in Dafny, as pure functions over immutable data.

| file | module | contents |
|---|---|---|
| `wrappers.dfy` | `Wrappers` | `Option` and `Result` |
| `tokens.dfy` | `Tokens` | `TokenType` and `Token` |
| `tokenizer.dfy` | `Tokenizer` | the scanner: `Step` is one turn of the `tokenize` loop, and `TokenizeFrom`/`Tokenize` run the loop |
| `tokenizer_facts.dfy` | `TokenizerFacts` | lexeme-by-lexeme properties, and the round trip `Tokenize(Render(ts)) == Ok(ts)` for every token list the scanner can produce |
| `numerals.dfy` | `Numerals` | decimal numerals and their values |
| `parser.dfy` | `Parser` | the AST, `peek`, `parse_expr`, `parse_stmt` and `parse_prog`, specified against a "five tokens spell this statement" relation |
| `parser_facts.dfy` | `ParserFacts` | the inverse of the parser (`Unparse`) and the two round trips |
| `generator.dfy` | `Generator` | the generator state (`m_vars`, `m_stack_size`, emitted lines); `push`/`pop`; `gen_expr`, `gen_stmt` and `gen_program` |
| `semantics.dfy` | `Semantics` | a reference meaning for programs: scope rules, and the exit status a program ends with |
| `machine.dfy` | `Machine` | a reference machine for the emitted lines: two registers, a stack of cells and `exit` |
| `generator_facts.dfy` | `GeneratorFacts` | the generator refuses exactly the scope errors; the i-th variable is in slot i; the declaration order as written versus the corrected one |
| `correctness.dfy` | `Correctness` | the generated code, run on the machine, exits with the status the program means |
| `pipeline.dfy` | `Pipeline` | the three stages chained, and end-to-end correctness from source text |

The token type is the union of every tag the tokenizer emits. `src/types.hpp`
declares only eight tags. Emitted assembly is modelled as a datatype of lines
(`Generator.Line`). `Generator.AsmText` spells the lines out as text, including
the blank line that the identifier push produces, because its operand carries
its own `"\n"`.

The playground's cheat sheet (`playground/client/src/App.jsx:25-36`) advertises
a richer language: string variables (`dillusion`), conditionals (`maybe`,
`ormaybe`, `moveon`), loops (`wait`) and printing (`tell_me`). The parser and
the generator implement only `bye` and `hope`. The model follows the code. The
other keywords and every operator except `=` are scanned but never parsed.

## Model

| member | source | states |
|---|---|---|
| Tokenizer.Peek | src/tokenizer.hpp:239-249 | `peek(offset)` is empty exactly when the cursor plus the offset is at or past the end; otherwise it is that character |
| Tokenizer.RunEnd | src/tokenizer.hpp:30-33 | the inner consuming loops stop at the end of the maximal run of characters of the class, and never pass the end of the input |
| Tokenizer.HideEnd | src/tokenizer.hpp:91-106 | a block comment ends just after the first `hide` at or after the cursor, or at the end of input when none follows |
| Tokenizer.KeywordKind | src/tokenizer.hpp:34-90 | a word is looked up as a keyword exactly when it is one of the eight keyword spellings, and it gets that spelling's tag |
| Tokenizer.ScanWord | src/tokenizer.hpp:26-113 | a word turn consumes at least one character and stays within the input; it emits nothing for a comment, otherwise exactly one token covering the maximal word: a keyword token with no text whose spelling is the word, or an identifier holding the whole word |
| Tokenizer.ScanNumber | src/tokenizer.hpp:114-124 | a digit turn consumes the maximal digit run and emits exactly one integer literal holding those digits |
| Tokenizer.ScanString | src/tokenizer.hpp:207-226 | a quote turn emits quote, content and quote, the content being exactly the characters up to the first closing quote; it fails, with the unterminated-string error, exactly when no closing quote follows |
| Tokenizer.ScanSymbol | src/tokenizer.hpp:132-231 | an operator turn fails exactly on a `!` not followed by `=`, or on a character that starts no lexeme |
| Tokenizer.Step | src/tokenizer.hpp:22-233 | one loop turn consumes at least one character, stays within the input and emits a lexeme; it fails exactly on the three diagnostic conditions |
| Tokenizer.TokenizeFrom | src/tokenizer.hpp:22-235 | the loop terminates, because each turn advances the cursor; its output is a sequence of simple tokens and quoted-string triples |
| Tokenizer.Tokenize | src/tokenizer.hpp:17-236 | `tokenize` either stops with a diagnostic or yields a well-formed token list |
| TokenizerFacts.RenderRoundTrip | src/tokenizer.hpp:17-236 | every well-formed token list, spelled out with one space after each lexeme, scans back to exactly itself; together with `Tokenize`'s contract, the scanner's outputs are exactly the well-formed lists |
| TokenizerFacts.ScanWordClassifies | src/tokenizer.hpp:26-112 | a maximal word equal to a keyword becomes that keyword's token with no text; any other word except `secret` and `hide` becomes an identifier holding the whole word |
| TokenizerFacts.ScanNumberMaximal | src/tokenizer.hpp:114-123 | a maximal digit run becomes one integer literal holding exactly those digits, and the cursor lands after the run |
| TokenizerFacts.DigitsThenWord | src/tokenizer.hpp:114-123 | `12ab` scans to the literal `12` and then the identifier `ab` |
| TokenizerFacts.SpaceSkipped | src/tokenizer.hpp:125-129 | whitespace emits no token and advances the cursor by one |
| TokenizerFacts.ScanQuoted | src/tokenizer.hpp:207-225 | a quote yields quote, the text up to the next quote, quote; with no closing quote the scan fails |
| TokenizerFacts.ScanOperators | src/tokenizer.hpp:146-182 | `=`, `<` and `>` absorb a following `=` into `==`, `<=` and `>=` and otherwise stand alone; `!` without `=` is an error |
| TokenizerFacts.LineComment | src/tokenizer.hpp:70-78 | `secret` discards up to but not including the next newline, and emits nothing |
| TokenizerFacts.BlockComment | src/tokenizer.hpp:91-106 | `hide` discards everything through the next `hide`, or to the end of input, and emits nothing |
| TokenizerFacts.HideEndUnique | src/tokenizer.hpp:94-104 | a block comment has exactly one end |
| Numerals.DecimalRoundTrip | src/generation.hpp:49 | the decimal text of a number reads back as that number |
| Numerals.NumeralRoundTrip | src/generation.hpp:49 | a digit run without a leading zero is the decimal text of its value |
| Parser.Peek | src/parser.hpp:144-154 | `peek(k)` is empty exactly when the position plus k is at or past the end of the tokens; otherwise it is that token |
| Parser.ParseExpr | src/parser.hpp:48-61 | an expression is read exactly when the token at the cursor is an integer literal or an identifier; the expression wraps that very token |
| Parser.ParseExit | src/parser.hpp:65-95 | after `bye (`, the rule reads five tokens exactly when they spell an exit statement; otherwise it gives the error of the first missing part (expression, `)`, `;`) |
| Parser.ParseHope | src/parser.hpp:96-118 | after `hope ident =`, the rule reads five tokens that spell the statement and stores the token at `peek(1)`; otherwise it gives the error for a missing expression or a missing `;` |
| Parser.ExitFailsIffNoStmt | src/parser.hpp:65-95 | once the `bye (` lookahead matches, the rule fails exactly when the five tokens at the cursor spell no statement |
| Parser.HopeFailsIffNoStmt | src/parser.hpp:96-118 | once the `hope ident =` lookahead matches, the rule fails exactly when the five tokens at the cursor spell no statement |
| Parser.ParseStmt | src/parser.hpp:63-121 | no statement exactly when neither lookahead matches; otherwise it reads exactly five tokens that spell the statement, or fails exactly when they spell none |
| Parser.ParseFrom | src/parser.hpp:127-137 | the statement loop consumes every remaining token, and the statements it reads, in order, are what those tokens spell |
| Parser.ParseProgram | src/parser.hpp:124-139 | `parse_prog` either fails or consumes every token, and the tokens spell its statements in source order |
| ParserFacts.ParseProgramExact | src/parser.hpp:124-139 | `parse_prog` yields the statements `stmts` if and only if the tokens are exactly their spellings one after another |
| ParserFacts.ParseUnparse | src/parser.hpp:124-139 | parsing the concatenated canonical tokens of well-shaped statements gives exactly those statements |
| ParserFacts.UnparseParsed | src/parser.hpp:124-139 | when keywords and punctuation carry no text, as the scanner's never do, the tokens are exactly the canonical tokens of what was parsed from them |
| ParserFacts.SpellingsAreCanonical | src/parser.hpp:63-121 | spellings whose punctuation carries no text are the canonical spellings |
| ParserFacts.SpellingLength | src/parser.hpp:124-139 | a program is spelled in exactly five tokens per statement |
| ParserFacts.RaggedRefused | src/parser.hpp:124-139 | a token list whose length is not a multiple of five is refused |
| ParserFacts.ErrorExamples | src/parser.hpp:78-85 | `bye ( 7 ; ;` stops at the missing `)`, and a lone `;` is an invalid statement |
| Generator.PushLine | src/generation.hpp:18-21 | `push` appends exactly one line, adds one to the stack count and leaves the variables alone |
| Generator.PopLine | src/generation.hpp:22-25 | `pop` appends exactly one line and takes one from the stack count |
| Generator.Wrap64 | src/generation.hpp:49 | `size_t` arithmetic: values in range are unchanged, and a negative value wraps to itself plus 2^64 |
| Generator.SlotOffset | src/generation.hpp:49 | when the slot is below the stack count, the offset is the exact byte distance `(m_stack_size - stack_loc - 1) * 8` |
| Generator.GenExpr | src/generation.hpp:36-51 | an expression adds one cell to the stack count and keeps the variables; it fails exactly for a token without text or an identifier not in the map |
| Generator.GenExit | src/generation.hpp:67-73 | an exit statement leaves the stack count and the variables as they were, and fails exactly when its expression does |
| Generator.GenHope | src/generation.hpp:74-86 | a declaration fails on a name already declared; otherwise the new name maps to the cell its initializer pushed, and the stack count grows by one |
| Generator.GenHopeAsWritten | src/generation.hpp:74-86 | as written: the same slot and count contract, with the name declared before the initializer is generated |
| Generator.GenStmt | src/generation.hpp:62-92 | the output only grows; `bye` has no net stack effect, and `hope` binds a fresh name to the old stack count and adds one cell |
| Generator.GenStmts | src/generation.hpp:110-113 | the statement loop only appends to the output, keeps every variable already bound and never lowers the stack count |
| Generator.VarCount | src/generation.hpp:98-105 | the first pass counts at most one per statement, and counts zero exactly when no statement is a `hope` |
| Generator.GenLines | src/generation.hpp:94-120 | the output starts with `global _start` and `_start:` and ends with `mov rax, 60`, `mov rdi, 0`, `syscall` |
| Generator.GenProgram | src/generation.hpp:94-120 | the corrected `gen_program`: its output opens with the two header lines and closes with the three `exit(0)` lines |
| Generator.GenProgramAsWritten | src/generation.hpp:94-120 | `gen_program` as written: the same frame of header and `exit(0)` lines |
| Generator.LineText | src/generation.hpp:18-25 | every emitted line ends in a newline; the two header lines start at the margin and every instruction is indented by four spaces |
| Generator.AsmText | src/generation.hpp:15-25 | the text of the written lines has at least one character per line and, when a line was written, ends in a newline |
| Generator.AsmTextAppend | src/generation.hpp:15-25 | writing two runs of lines one after the other writes their texts one after the other |
| Generator.SlotOperandText | src/generation.hpp:48-49 | the text of a stack-slot `push` contains, of all numerals without a leading zero, exactly the one the assembler reads as the offset |
| Generator.AssemblyFrame | src/generation.hpp:94-120 | the text of lines that open with the two header lines and close with `exit(0)` opens with `global _start\n_start:\n` and closes with `    mov rax, 60\n    mov rdi, 0\n    syscall\n` |
| Generator.Assembly | src/generation.hpp:94-120 | the corrected generator's text exists exactly when generation succeeds, opens with `global _start` and `_start:` and closes with the `exit(0)` lines |
| GeneratorFacts.GenStmtsErrors | src/generation.hpp:41-86 | the corrected generator's statement loop fails exactly on the first scope error in program order: an undeclared read, a redeclaration, or a token without text |
| GeneratorFacts.GenProgramErrors | src/generation.hpp:94-120 | the corrected `gen_program` succeeds exactly on programs that obey the scope rules, and otherwise reports their first violation |
| GeneratorFacts.GenStmtsSlots | src/generation.hpp:74-86 | in either declaration order of `hope`, each declared name gets the slot numbered by its declaration order, older names keep their slots, and the stack grows by one cell per `hope` |
| GeneratorFacts.ProgramSlots | src/generation.hpp:94-120 | in either declaration order, after the loop the stack count equals the unused `var_count` and the number of declared names, and the i-th declared name is in slot i |
| GeneratorFacts.AsWrittenAgrees | src/generation.hpp:82-83 | wherever the corrected declaration order succeeds, the order as written emits identical code |
| GeneratorFacts.AsWrittenAgreesOnProgram | src/generation.hpp:94-120 | the same for whole programs |
| GeneratorFacts.GenExprIgnoresOtherName | src/generation.hpp:41-50 | declaring a name the expression does not read leaves the expression's code and its error unchanged |
| GeneratorFacts.GenStmtAgrees | src/generation.hpp:82-83 | both declaration orders give the same result, code or error, for every statement except a `hope` whose initializer is the variable it declares |
| GeneratorFacts.AgreeWithoutSelfRead | src/generation.hpp:82-83 | if the two declaration orders give different results for a statement list, some `hope` in it reads the variable it declares |
| GeneratorFacts.AgreeWithoutSelfReadOnProgram | src/generation.hpp:94-120 | the same for whole programs |
| GeneratorFacts.SelfReference | src/generation.hpp:49 | `hope x = x;`: the corrected generator refuses it as undeclared; as written it pushes from offset 2^64 - 8 and the machine gets stuck |
| Semantics.RunStmts | src/generation.hpp:62-92 | the reference meaning: after the statements, the bound names are the old ones plus the declared ones, and a `bye` status is below 256 |
| Machine.Exec | src/generation.hpp:70-72 | the machine exits exactly at a `syscall` with `rax = 60`, with status `rdi mod 256` |
| Correctness.ExprCorrect | src/generation.hpp:36-51 | an expression's code pushes exactly the expression's value and keeps every other cell |
| Correctness.ExitCorrect | src/generation.hpp:67-73 | `bye ( e ) ;` ends the program with `e`'s value modulo 256 |
| Correctness.HopeCorrect | src/generation.hpp:74-86 | `hope x = e ;` leaves `e`'s value in the new slot of `x` and keeps every other variable's slot |
| Correctness.StmtsCorrect | src/generation.hpp:110-113 | the statements' code ends with the source's exit status, or runs on with each variable's slot holding the value the source gives it |
| Correctness.ExitZeroExits | src/generation.hpp:116-118 | the closing lines exit with status 0 |
| Correctness.GenProgramCorrect | src/generation.hpp:94-120 | code that the corrected `gen_program` produces, run from any stack, exits with the status the program means: its first `bye`'s value modulo 256, or 0 |
| Correctness.GenProgramAsWrittenCorrect | src/generation.hpp:74-86 | code that `gen_program` as written produces for a program in which no `hope` reads the variable it declares exits with the status the program means |
| Pipeline.WellFormedIsPlain | src/tokenizer.hpp:17-236 | in the scanner's output, keywords and punctuation carry no text and every integer literal is a numeral |
| Pipeline.SpelledLiterals | src/parser.hpp:48-61 | the literals of a parsed program are literal tokens from the input |
| Pipeline.TokenCount | src/tokenizer.hpp:22-234 | the scanner emits at most three tokens per character of input |
| Pipeline.CompileCorrect | src/generation.hpp:94-120 | for any source text that tokenize, parse_prog and the corrected gen_program all accept, the parsed program obeys the scope rules, and its code exits with the status the program means |
| Pipeline.CompileErrors | src/parser.hpp:124-139 | the chained stages, with the corrected generator, fail with the scanner's diagnostic, else the parser's, else the program's first scope error, and succeed exactly when there is none |
| Pipeline.CompileRendered | src/parser.hpp:124-139 | compiling the text of a program whose tokens the scanner can produce is the same as generating code for the program |

## Left out

- `src/main.cpp` is not part of this model. It handles the command line and reads the file. It has its own stub `tokenize` and a conflicting `TokenType`, and it never calls the three stages. `Pipeline.Compile` chains the stages as their interfaces suggest.
- The playground server and client are left out: they are HTTP, temporary-file and editor plumbing.
- Writing the output file, and running `nasm` and `ld`, are I/O and are left out.
- `std::cerr` messages and `exit(EXIT_FAILURE)` are modelled as error values. Each diagnostic has its own constructor (`LexError`, `ParseError`, `GenError`).
- `std::isalpha`, `std::isdigit` and `std::isspace` are modelled as their ASCII "C"-locale classes. Locale-dependent and negative-`char` behaviour is not modelled.
- `src/types.hpp` declares only eight tags, but the tokenizer emits more, so the headers would not compile together. The model's `TokenType` is the union of every tag emitted.
- Reading `.value()` of a token without text throws `bad_optional_access` in C++. It is modelled as the error `MissingValue`. The scanner never produces such tokens for the parser's rules.
- Machine.Exec: the reference machine is `Stuck` for a read outside the pushed cells, a pop from an empty stack, a `syscall` other than `exit` and an immediate that is not a numeral. It does not model memory beyond the stack, 64-bit register width or address wrap-around, so a read at `[rsp + 2^64 - 8]`, which the processor performs at `[rsp - 8]`, is `Stuck`.
- Correctness.GenProgramCorrect: it requires fewer than 2^61 - 1 statements. Below that bound no stack offset wraps. The wrap itself is still modelled in `Generator.SlotOffset`.
- Pipeline.CompileCorrect: it requires source text shorter than 2^61 - 1 characters, for the same reason.
- Integer literals wider than 64 bits are truncated by the assembler. The model reads a literal as an unbounded number. The exit status `value mod 256` is the same either way.
- The `m_stack_size` counter itself wrapping around needs 2^64 pushes. It is not modelled: the count is a `nat`.
- The `var_count` pass at `src/generation.hpp:98-105` emits nothing. It is modelled as `Generator.VarCount` and related to the stack count by `GeneratorFacts.ProgramSlots`.

## Findings

| source | as written | input that shows it | evidently intended | confidence | as-written member | corrected member |
|---|---|---|---|---|---|---|
| src/generation.hpp:82-83 | `hope` enters the name at slot `m_stack_size` (line 82) before generating the initializer (line 83). An initializer that reads the name computes the `size_t` offset at line 49 as `(0 - 0 - 1) * 8`, which wraps to 2^64 - 8. With 64-bit address arithmetic the emitted `push QWORD [rsp + 18446744073709551608]` reads `[rsp - 8]`, the cell just below the top of the stack, which nothing has pushed, so `x` starts with whatever that memory holds. | `hope x = x;` | the initializer sees only names declared before the statement, so `x` is an undeclared variable | not executed; high | GeneratorFacts.SelfReference | Generator.GenHope |

The rest of the model uses `Generator.GenHope`. `Correctness.GenProgramCorrect` is proved about it.
`GeneratorFacts.AsWrittenAgrees` shows the code as written differs only on programs the corrected generator refuses, and `GeneratorFacts.AgreeWithoutSelfRead` shows it differs only on programs with a `hope` that reads the variable it declares. On all other programs `Correctness.GenProgramAsWrittenCorrect` carries the correctness theorem over to the generator as written.
