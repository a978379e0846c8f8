# 9cc core in Dafny

This project models the three stages of the 9cc compiler core:

- the scanner of `tokenize.c`, which turns a C string into a vector of tokens;
- the recursive-descent expression parser of `parse.c`, which turns tokens into a tree;
- the stack-machine code generator of `codegen.c`, which prints x86-64 assembly for a tree.

It also proves properties of each stage.

Each C file keeps its imperative form:

- The scanner's loop is the method `Lexer.Scan`. It appends to the token vector `Lexer.TokenVector` through `AddToken`.
- The parser's globals (the token vector and the cursor `pos`) are the fields of the class `Parser.Parser`. It has one method per C function.
- The generator's globals (`label_else_number`, `label_end_number`, `variablemap`) and the assembly printed so far are the fields of `CodeGen.Generator`. It has one method per `gen_*` function.

Every method is proved against a specification function: `Lexer.LexFrom`, `Parser.ParseLevel`/`ParseTerm` and `CodeGen.Emit`. The properties are then proved about those functions:

- `LexerProps`: the shape of the token vector, the priority of two-character operators, and the keyword table.
- `ParserProps`: parsing a printed tree gives back that tree, which covers precedence and left associativity (`ParsePrint`); the `>`/`>=` operand swap for any two operands (`SwapsTrees`).
- `CodeGenProps`: the error path of `gen_lval`, the push/pop count of each listing and the stack movement of each run through `gen_if`, label numbering, and the stack frame of a function definition.
- `Machine`: an abstract 64-bit push/pop machine, on which the code of every expression the parser builds pushes the expression's value. It also covers call arguments in registers.
- `Pipeline`: accepted source text, through the parser and the generator, ends as code pushing the expression's 64-bit value.

The assembly is a sequence of `CodeGen.Instr` values, one per printed instruction or label line. Token types (`TK_*`) and node kinds (`ND_*`) share the `Ast.BinOp` operators. That is an assumption: `parse.c` tags the nodes it builds with `TK_*` codes (parse.c:50-115) while `codegen.c` dispatches on `ND_*` codes (codegen.c:21-47 and 182-215), and the header that would make them equal is not part of this model. The generator handles more node kinds than `parse.c` builds: identifiers, assignment, `if`, `return`, blocks, calls and function definitions. They appear in `Ast.Node` as `codegen.c` reads them.

Notes on the behaviour of the code as written:

- `gen_if` reads the label counters after generating its nested code. An `if` nested in a branch of another makes the outer one print the inner one's end label a second time and jump to a label that is never printed: the else label when the outer `if` has an `else` and the nested one is in its then branch, the end label otherwise. One nested in the condition makes the outer one print the inner one's end label a second time. `CodeGenProps.NestedIfReusesLabels` and `CodeGenProps.NestedIfMissesElse` exhibit the then-branch cases without and with an outer `else`, and `CodeGenProps.FlatWellLabelled` shows labels are well formed when no `if` is nested in another. The design intends unique labels; the model follows the code.
- `gen_funccall` pops each argument into its register right after generating it, from the last argument to the first. A `*` or `/` in an earlier-index argument overwrites `rdx`, the third argument's register. `Machine.ThirdArgumentOverwritten` and `Machine.CallClobbersThirdArgument` exhibit this.
- `/` is generated as `mov rdx, 0; div rdi`, an unsigned division. `(0-6)/2` therefore does not read as `-3` (`Machine.DivisionIsUnsigned`).

## Model

| member | source | states |
|---|---|---|
| Lexer.DigitRun | tokenize.c:39-43 | the maximal run of digits at an index: all digits, and followed by a non-digit or the end |
| Lexer.AlnumRun | tokenize.c:69-74 | the maximal run of isalnum characters at an index: all alnum, and followed by a non-alnum or the end |
| Lexer.Scan1 | tokenize.c:35-93 | one loop turn skips exactly one space, or emits a non-EOF token starting at the cursor and advances past it, or is stuck |
| Lexer.TokenVector.AddToken | tokenize.c:5-12 | the token vector gains exactly the new token at its end |
| Lexer.ScanStep | tokenize.c:35-93 | the branches of the loop body, tried in the C order, take the step `Scan1` specifies |
| Lexer.WordLength | tokenize.c:70-74 | the identifier length loop stops at the end of the maximal alnum run |
| Lexer.Scan | tokenize.c:30-97 | the scan loop plus the final TK_EOF token produce exactly the specified scan `LexFrom(s, 0)` |
| Lexer.Tokenize | tokenize.c:22-28 | with the keyword table of "if" and "return", the result is `Lex(s)` |
| Lexer.PrependAssoc | tokenize.c:33-96 | the tokens pushed in two stretches are the tokens pushed at once |
| Lexer.Advance | tokenize.c:33-94 | an emitting loop turn keeps the invariant relating the tokens so far to the whole scan |
| Lexer.AlnumRunIs | tokenize.c:71-73 | any maximal alnum run from an index has the length `AlnumRun` gives |
| LexerProps.LexShape | tokenize.c:30-97 | a successful scan yields tokens that start at strictly increasing indices, none of them TK_EOF except the last, which stands at the end of the text; a failed scan stops inside the text |
| LexerProps.EndsWithOneEof | tokenize.c:95 | every accepted text yields a non-empty vector ending in exactly one TK_EOF, so the parser can rely on it |
| LexerProps.StuckExactly | tokenize.c:89-93 | the scanner gives up at a character exactly when no branch accepts it and it does not start "!=" |
| LexerProps.FailsOnlyOnRejected | tokenize.c:89-93 | a scan fails only at a character no branch accepts, and succeeds whenever every character is accepted |
| LexerProps.TwoCharOperators | tokenize.c:44-63 | "==", "!=", "<=", ">=" each become one two-character token, never two one-character tokens |
| LexerProps.NoSplitEquals | tokenize.c:44-48 | in an accepted text, a '=' token is never directly followed by a '=' token at the next index |
| LexerProps.PunctStartsAt | tokenize.c:83-88 | a one-character token stands at its own character and consumes just it |
| LexerProps.ReturnKeyword | tokenize.c:64-82 | "return" not followed by an identifier character is TK_RETURN of length 6; followed by one, it goes to the identifier branch |
| LexerProps.KeywordLookup | tokenize.c:24-26 | the keyword table classifies exactly "if" and "return" as keywords |
| LexerProps.IdentifierToken | tokenize.c:69-82 | a word starting with a letter becomes one token spanning the maximal alnum run, with that run as its name and its keyword type if it has one |
| LexerProps.NumberToken | tokenize.c:39-43 | a digit starts one TK_NUM token spanning the maximal digit run, whose value is the decimal value of the run |
| LexerProps.NumeralValue | tokenize.c:39-43 | reading back the decimal numeral of any number gives that number |
| LexerProps.ReturnThenUnderscore | tokenize.c:64-93 | "return_x" is refused at the underscore, since the identifier branch stops at '_' |
| LexerProps.ReturnPrefixOfLongerWord | tokenize.c:64-82 | at any index where "return" is followed by '_', the identifier branch still emits TK_RETURN for the first six characters |
| Parser.ParseLevel | parse.c:39-128 | a successful parse at any level consumes at least one token, stops before TK_EOF and builds an arithmetic tree; an error points at a token that is neither a number nor '(' |
| Parser.ParseTail | parse.c:48-62 | a level's loop never moves the cursor back or past TK_EOF, and keeps the tree arithmetic; an error points at a token that is neither a number nor '(' |
| Parser.ParseUnary | parse.c:121-128 | unary consumes at least one token and builds an arithmetic tree; an error points at a token that is neither a number nor '(' |
| Parser.ParseTerm | parse.c:130-150 | term consumes at least one token and builds an arithmetic tree, or reports the position of a token that is neither a number nor '(' |
| Parser.Parser.constructor | parse.c:3-4 | the parser starts with no tokens and the cursor at 0 |
| Parser.Parser.Consume | parse.c:23-30 | the cursor advances by one exactly when the current token has the given type |
| Parser.Parser.Parse | parse.c:32-37 | installs the tokens, resets the cursor and returns what the grammar gives from the first token |
| Parser.Parser.Expr | parse.c:39-43 | expr parses exactly what the equality level specifies |
| Parser.Parser.EqualityOperator | parse.c:50-57 | consumes "==" or "!=" and names the operator, or consumes nothing |
| Parser.Parser.Equality | parse.c:45-63 | the loop builds the left-associated equality chain the specification gives |
| Parser.Parser.RelationalOperator | parse.c:70-85 | consumes "<=", '<', ">=" or '>' and names the operator, swapped for the last two |
| Parser.Parser.Relational | parse.c:65-91 | the loop builds the relational chain, with '>' and ">=" as swapped '<' and "<=" |
| Parser.Parser.AdditiveOperator | parse.c:98-101 | consumes '+' or '-' and names the operator, or consumes nothing |
| Parser.Parser.Add | parse.c:93-105 | the loop builds the left-associated additive chain |
| Parser.Parser.MultiplicativeOperator | parse.c:112-115 | consumes '*' or '/' and names the operator, or consumes nothing |
| Parser.Parser.Mul | parse.c:107-119 | the loop builds the left-associated multiplicative chain |
| Parser.Parser.Unary | parse.c:121-128 | unary parses what the specification gives: '+' drops, '-' becomes 0 minus the term |
| Parser.Parser.Term | parse.c:130-150 | term parses a parenthesised expression or a number, and fails on anything else |
| ParserProps.ParsePrint | parse.c:32-150 | for every printable tree, parsing its printed tokens gives back the same tree and stops at TK_EOF |
| ParserProps.LeftSpine | parse.c:93-119 | a left-nested chain of same-level operators parses back as that chain |
| ParserProps.NumberParses | parse.c:140-144 | at every level, a number token parses as that number |
| ParserProps.MulBindsTighter | parse.c:93-119 | a + b * c parses as a + (b * c) |
| ParserProps.SubAssociatesLeft | parse.c:93-105 | a - b - c parses as (a - b) - c |
| ParserProps.GreaterSwapsOperands | parse.c:82-85 | a > b parses as b < a |
| ParserProps.SwappedComparison | parse.c:70-85 | ">=" and '>' between two numbers build "<=" and '<' with the operands swapped |
| ParserProps.SwapsTrees | parse.c:65-91 | ">=" and '>' between any two printable operands of the additive level build "<=" and '<' with the operands swapped |
| ParserProps.UnarySigns | parse.c:121-128 | +a parses as a and -a as 0 - a |
| ParserProps.MissingCloseParen | parse.c:133-139 | "(a" followed by TK_EOF still parses as a: the missing ')' is reported but not fatal |
| ParserProps.NotATerm | parse.c:145-149 | a token that is neither '(' nor a number where a term is expected is an error at that token |
| CodeGen.Lval | codegen.c:57-68 | gen_lval fails exactly on a node that is not a variable and never moves the label counters |
| CodeGen.Generator.constructor | codegen.c:3-6 | both label counters start at 0 and no assembly is printed |
| CodeGen.Generator.Codegen | codegen.c:8-18 | prints what `Compile` specifies and leaves the globals it gives |
| CodeGen.Generator.Gen | codegen.c:20-49 | dispatches every node kind to the code `Emit` specifies |
| CodeGen.Generator.GenNum | codegen.c:51-55 | pushes the number and changes no global |
| CodeGen.Generator.GenLval | codegen.c:57-68 | prints the address of a variable, adding it at offset 0 if unknown, or stops on error |
| CodeGen.Generator.GenIdent | codegen.c:70-77 | prints the address and a load through it |
| CodeGen.Generator.GenAssign | codegen.c:79-88 | prints the address, the value, and the store that leaves the value pushed |
| CodeGen.Generator.GenIf | codegen.c:90-119 | moves both counters on entry, then prints the chosen branch form and the push |
| CodeGen.Generator.GenThen | codegen.c:108-116 | the no-else form, with the end label read after the nested code |
| CodeGen.Generator.GenThenElse | codegen.c:93-107 | the else form, with labels read after the nested code |
| CodeGen.Generator.GenFuncCall | codegen.c:121-130 | evaluates and pops the arguments from the last to the first, then calls and pushes rax |
| CodeGen.Generator.GenDefFunc | codegen.c:132-153 | installs the definition's variable map, prints the prologue, the parameter stores, the body and the epilogue |
| CodeGen.Generator.StoreParams | codegen.c:140-146 | stores parameter i from the i-th argument register, and changes no global |
| CodeGen.Generator.GenReturn | codegen.c:155-163 | prints the value, then the epilogue |
| CodeGen.Generator.GenBlock | codegen.c:165-173 | prints each statement followed by a pop of its value |
| CodeGen.Generator.GenBinaryOperator | codegen.c:175-223 | prints both operands, pops them, applies the operator and pushes rax |
| CodeGen.Generator.Operation | codegen.c:182-220 | the switch prints the operator's instructions and changes no global |
| CodeGenProps.EmittedIff | codegen.c:57-68 | gen reaches error() exactly when some assignment in the tree has a non-variable on its left |
| CodeGenProps.EmitNet | codegen.c:20-223 | the listing printed for a tree has the push/pop count computed on the tree; for straight-line trees this is how far a run moves the stack |
| CodeGenProps.IfThenRuns | codegen.c:108-117 | gen_if without else prints condition, test, then code, end label and push; the run through the branch moves the stack by the condition's effect - 1 + the branch's effect + 1, the run that skips it by the condition's effect - 1 + 1 |
| CodeGenProps.IfElseRuns | codegen.c:93-107 | gen_if with else prints condition, test, then code, jmp, else label, else code, end label and push; each of the two runs moves the stack by the condition's effect - 1 + the taken branch's effect + 1 |
| CodeGenProps.ValuePushesOne | codegen.c:20-223 | numbers, variables, assignments, calls and binary operators over them push exactly one value |
| CodeGenProps.BlockOfValuesBalanced | codegen.c:165-173 | a block of such statements leaves the stack as it found it |
| CodeGenProps.EmitLabels | codegen.c:90-119 | each if moves both counters on by one, and every label printed or jumped to is numbered within the range the tree used |
| CodeGenProps.FlatIfLabels | codegen.c:90-119 | an if with nothing nested prints and jumps to exactly its own fresh labels |
| CodeGenProps.FlatWellLabelled | codegen.c:20-223 | with no if nested in another, no label is printed twice and every jump goes to a printed label |
| CodeGenProps.NestedIfReusesLabels | codegen.c:102-115 | an if nested in the then branch of another makes the listing print one end label twice and jump to one never printed |
| CodeGenProps.NestedIfMissesElse | codegen.c:93-107 | an if nested in the then branch of an if with else makes the listing print one end label twice and jump to an else label never printed |
| CodeGenProps.ProgramLabels | codegen.c:10-17 | the program loop moves the end counter once per node plus once per if, and keeps labels well formed for flat programs |
| CodeGenProps.CompileLabels | codegen.c:8-18 | the output opens with the syntax directive, counts labels as above, and is well labelled for flat programs |
| CodeGenProps.LvalKeepsOffsets | codegen.c:57-68 | the address is rbp minus the variable's offset, and no known variable's offset changes |
| CodeGenProps.ParamStoresAt | codegen.c:140-146 | three instructions per parameter, storing argument register i at the parameter's offset |
| CodeGenProps.DefFuncLayout | codegen.c:132-153 | a definition's code ignores the outer variable map and is prologue, parameter stores, body, epilogue |
| Machine.EvalIsWord | codegen.c:175-223 | the value of an arithmetic tree is always a 64-bit word |
| Machine.OpCodeComputes | codegen.c:182-220 | each operator's instructions leave in rax the operator's 64-bit result, or fault on division by zero |
| Machine.TailComputes | codegen.c:179-222 | popping two operands, applying the operator and pushing rax replaces the operands with the result |
| Machine.EvalCorrect | codegen.c:175-223 | the code of every arithmetic tree pushes the tree's value and nothing else, touching only its scratch registers, or faults exactly on division by zero |
| Machine.RingExact | codegen.c:175-223 | for +, - and *, the pushed value is the exact integer value modulo 2^64 |
| Machine.SignedWrap | codegen.c:175-223 | read as signed, that value is the exact value whenever it fits in 64 bits |
| Machine.DivisionIsUnsigned | codegen.c:195-199 | (0 - 6) / 2 computes 2^63 - 3, not -3 |
| Machine.ArgsCorrect | codegen.c:121-126 | the argument loop puts each argument's value in its register when no earlier-index argument's scratch registers include it |
| Machine.ThirdArgumentOverwritten | codegen.c:121-126 | when argument 0 of a three-argument call is a product, rdx holds the product's high word at the call instead of the third argument |
| Machine.CallClobbersThirdArgument | codegen.c:121-130 | f(2 * 3, 5, 7) reaches the call with 6 in rdi and 5 in rsi but 0 in rdx, where 7 belongs |
| Pipeline.PushedLiteral | codegen.c:51-55 | the word a sign-extended 32-bit push places for a literal passed through an `int`: always a 64-bit word (the machine's `PushImm` itself pushes the full value) |
| Pipeline.LiteralNarrowing | parse.c:15-21 | what a sign-extended 32-bit push places for a literal below 2^31 is the literal; for one in [2^31, 2^32) it is a different word, the literal's negative 32-bit reading |
| Pipeline.SourceToValue | codegen.c:20-49 | accepted source text parses to a tree gen emits without error; when its literals fit in an `int`, the code pushes the tree's 64-bit value or faults exactly on division by zero |
| Pipeline.SourceToExactValue | codegen.c:175-223 | for +, - and * source text with literals that fit in an `int`, the pushed value is the exact value modulo 2^64, and equals it when it fits |

## Left out

- Lexer.DecimalValue: strtol's overflow clamping and the `long` width of the token value are not modelled; values are unbounded naturals.
- CodeGen.Generator.GenNum: `push` takes a sign-extended 32-bit immediate and the value is printed with `%d`; larger values are printed unchanged in the model, and `Machine.Exec1` pushes the full value of `PushImm`.
- Pipeline.SourceToValue: promises the pushed value only for trees whose literals are below 2^31, because new_node_num (parse.c:15) narrows the token's value to `int` and gen_num (codegen.c:52) pushes a sign-extended 32-bit immediate; `Pipeline.LiteralNarrowing` shows what happens to larger literals.
- Pipeline.SourceToExactValue: the same literal-width hypothesis as `Pipeline.SourceToValue`, for the same reason.
- CodeGenProps.EmitNet: `Effect` is the push/pop count of the whole listing, not the stack movement of a run: for an if-else it adds both branches, and for return and function definitions it does not count the reset of rsp to rbp. The stack movement of each run through gen_if is stated by `CodeGenProps.IfThenRuns` and `CodeGenProps.IfElseRuns`.
- Parser.ParseTerm: when no term starts at the cursor, the C term() prints a message and falls off its end without a return value (undefined behaviour); the model stops with `Error` at that token.
- Lexer.ScanStep: the C code leaves the name of a TK_RETURN token unset and the model gives it the empty name; other non-identifier tokens also carry the empty name.
- The `# ...` comment lines the generator prints are not modelled; they carry no instructions.
- `main.c` (reading arguments, printing, calling the stages in order) and `dump.c` (tree printing for debugging) are not part of this model.
- The `Vector` and `Map` containers are modelled as Dafny sequences and maps; their growth and the aliasing of `node->vars` through `variablemap` are not modelled.
- CodeGen.Generator.Codegen: `variablemap` starts as NULL in C; the model starts with an empty map. That is an assumption: the body of `map_get` is not part of this model, so its behaviour on NULL is unknown; `gen_def_func` installs the definition's own map (codegen.c:133) before its body is generated.
- CodeGen.NameOf: the `.global` line reads `node->name` on every top-level node; for nodes with no name the model uses the empty name.
- Machine.Exec1: the machine does not run jumps, calls or `ret`, so control flow, `if` statements, calls and function bodies are not given a meaning on the machine.
- CodeGen.Generator.GenLval: error() ends the process; the model returns `NotLvalue` and does not specify what was printed before it.
- The character classes assume the C locale (ASCII).
- The `int` label counters are unbounded integers; their overflow is not modelled.
- Parse-error messages and the position text in them are not modelled; only the error position is.
