# jminus in Dafny

A model of the core of jminus, a small C implementation of a toy
language with `let`, `yap` (print), `if`/`else`, `while`, blocks and integer
expressions. The model follows the C pipeline stage by stage:

- **lexer** (`lexer.dfy`, facts in `lexer_facts.dfy`): `tokenize` turns the
  text into tokens. It scans maximally, takes keywords only as whole words,
  matches two-character operators greedily and drops `//` comments. It
  counts lines, stops at the first `'\0'`, and reports the unrecognised
  characters in one batch, capped at 128.
- **parser** (`ast.dfy`, `parser.dfy`, facts in `parser_facts.dfy`,
  `unparse.dfy`, `roundtrip.dfy`, `parse_cases.dfy`): the recursive-descent
  parser over a token cursor. It aborts on the first error. A printer is
  the reference: every well-formed tree, printed, parses back to itself.
- **compiler** (`compiler.dfy`, `layout.dfy`, `code_facts.dfy`):
  `compile_expr` / `compile_stmt` / `compile` with emit, add-constant and
  back-patching. A pure layout function is the reference; the compiler is
  shown to produce exactly that layout. From the layout follow:
  - jump and constant bounds;
  - the absence of the four opcodes nothing emits;
  - the stack effects.
- **environment** (`environment.dfy`): `define_var`, `lookup_var` and
  `assign_var` over a scope chain. They are related to a reference view,
  a map from names to values.
- **VM** (`vm.dfy`, facts in `vm_facts.dfy`): `run`, one
  fetch-advance-execute step at a time, with the printed values collected
  in order. Variables are named by the operand's character, so only the
  first character of a name counts. The VM keeps its environment from one
  `run` to the next.
- **interpreter** (`interpreter.dfy`, facts in `interpreter_facts.dfy`):
  `eval_expr`, `exec_stmt` and `interpret`. It uses one global environment
  and full variable names. `=` is accepted only as the whole expression of
  an expression statement.
- **front ends** (`driver.dfy`, facts in `driver_facts.dfy`):
  - `clean_source` and `main` of the file runner;
  - `clean_line` and the REPL loop, with `:exit`/`exit`, `:help`,
    `:interp`, `:vm`, blank lines, and a separate set of variables per
    mode.

Quirks of the C code that the model keeps as they are:
- An expression statement leaves its value on the VM stack: no pop is
  emitted (compiler.c:91-94).
- `yap(x = 1)` compiles to a PRINT with nothing to print
  (`CodeFacts.YapOfAssignment`).
- The VM has no case for POP, LOOP, LOAD_CONST and STORE_VAR.
- A block opens no scope in either executor.
- The VM identifies a variable by the first character of its name
  (compiler.c:48), as compiler.h:107 and 161 describe.
- `run` resets the stack but keeps its environment, `vm_env`, from one
  run to the next (vm.c:12, 21-26).
- At most 128 unrecognised characters are reported (lexer.c:18, 159).
- The first parse error abandons the whole parse (parser.c:406-409). The
  comments at parser.h:15 and 29-31 promise recovery and continued
  parsing, but the code does not do it, and the model follows the code.
- The interpreter prints each trace line as it goes and exits on a
  failure, so a failed run keeps everything printed before the failure.

Everything the C code leaves undefined is an explicit error here:
- a division by zero (in both executors);
- popping an empty VM stack;
- an instruction index outside the code;
- a CONST index outside the table.

The C programs call `exit(1)` on these and on:
- an unknown opcode;
- an undefined variable;
- an unknown operator;
- an invalid assignment target;
- a lexing error.

Every such exit is a `Result` error here, so that the contracts can speak
about it.

## Model

| member | source | states |
|---|---|---|
| Lexer.CheckKeyword | jminus-interpreter/lexer.c:29-47 | a word gets a keyword kind exactly when it is one of the seven table entries, and then that entry's kind; every other word is an identifier |
| Lexer.SearchKeyword | jminus-interpreter/lexer.c:40-47 | the table search answers Identifier exactly when no entry matches the word, and otherwise the kind of a matching entry |
| Lexer.WordEnd | jminus-interpreter/lexer.c:84-85 | a word runs over identifier characters and stops at the first character that is not one |
| Lexer.DigitsEnd | jminus-interpreter/lexer.c:99-100 | a number runs over digits and stops at the first non-digit |
| Lexer.CommentEnd | jminus-interpreter/lexer.c:105-107 | a line comment runs up to, not over, the next newline or the terminator |
| Lexer.ScanStep | jminus-interpreter/lexer.c:76-165 | each pass of the scanning loop moves forward and emits at most one token |
| Lexer.Scan | jminus-interpreter/lexer.c:71-170 | the token array ends with exactly one end-of-file token, whose lexeme is empty |
| LexerFacts.ScanRules | jminus-interpreter/lexer.c:76-165 | every token obeys its rule: maximal words with keyword lookup, maximal digit runs, `==` `!=` `<=` `>=` taken whenever the `=` follows, `/` never starting `//`, an unknown token one unrecognised character |
| LexerFacts.RuleKinds | jminus-interpreter/lexer.c:109-165 | the scanner never produces a float, not-equal or error token |
| LexerFacts.ScanSlices | jminus-interpreter/lexer.c:49-57 | each lexeme is the slice of the text at its start index, and the tokens are in text order without overlap |
| LexerFacts.ScanLines | jminus-interpreter/lexer.c:62-81 | a token's line is 1 plus the number of newlines before its start |
| LexerFacts.ScanConcat | jminus-interpreter/lexer.c:76-168 | the lexemes joined are the text before its terminator without whitespace and line comments |
| TokenizeFacts.TokenizeReports | jminus-interpreter/lexer.c:158-181 | tokenize fails exactly when the reference list of unrecognised positions is not empty; every listed position lies before the first `'\0'`; the report is those characters with their lines, in text order, cut to the first 128 |
| TokenizeFacts.ScanUnrecognised | jminus-interpreter/lexer.c:158-165 | the unknown tokens of a scan are the unrecognised characters of the text, each with the line it is on |
| TokenizeFacts.StepUnrecognised | jminus-interpreter/lexer.c:76-165 | one pass of the loop reports the character it meets when no rule accepts it, and skips no unrecognised character otherwise |
| TokenizeFacts.StepUnknown | jminus-interpreter/lexer.c:158-165 | an unrecognised character becomes a one-character unknown token and is recorded with its line |
| TokenizeFacts.BeforeTerminator | jminus-interpreter/lexer.c:71 | every reported character lies before the first `'\0'` |
| TokenizeFacts.UnrecognisedFrom | jminus-interpreter/lexer.c:158-165 | the reference list of positions, skipping line comments and stopping at `'\0'`: it holds unrecognised characters only, in increasing order |
| TokenizeFacts.TokenizeFails | jminus-interpreter/lexer.c:159-163 | a failing tokenize reports between 1 and 128 characters |
| TokenizeFacts.TokenizeShape | jminus-interpreter/lexer.c:170-184 | a successful token array ends with its only end-of-file token and holds no unknown, float, not-equal or error token |
| TokenizeFacts.TokenizeLines | jminus-interpreter/lexer.c:49-57 | every token of a successful tokenize is the text at its start, on the line the newlines before it give |
| Ast.Binding | jminus-interpreter/parser.c:195-213 | the operator table of the four binary levels: an operator binds at level k exactly when level k lists it |
| ParserFacts.LevelBinding | jminus-interpreter/parser.c:195-213 | the levels take disjoint operators, and `=` belongs to none of them |
| Parser.Expect | jminus-interpreter/parser.c:37-43 | a demanded token is consumed exactly when it has the demanded kind, and otherwise the given error is reported |
| Parser.Primary | jminus-interpreter/parser.c:136-164 | a primary consumes at least one token, and when it fails on a token other than `(` the error is UnexpectedToken of that token |
| Parser.Tail | jminus-interpreter/parser.c:166-193 | the operator loop of one level never moves back and stays inside the token array |
| Parser.ElseTail | jminus-interpreter/parser.c:312-322 | the optional else part keeps the condition and the then branch already parsed |
| Parser.BlockBody | jminus-interpreter/parser.c:349-358 | a block body stops only at `}` or at end of file |
| ParserFacts.TailShape | jminus-interpreter/parser.c:166-193 | the operator loop keeps the tree built so far well formed |
| ParserFacts.ElseTailShape | jminus-interpreter/parser.c:312-322 | an `else` is taken only where no nested `if` without else could take it |
| ParserFacts.ParseShape | jminus-interpreter/parser.c:396-416 | every accepted program is well formed: binary nodes carry operators of the right level, `=` has a variable target, and an else belongs to the nearest `if` |
| RoundTrip.ParsePrinted | jminus-interpreter/parser.c:136-416 | every well-formed program, printed and ended with end-of-file, parses back to itself |
| RoundTrip.ExpressionReadBack | jminus-interpreter/parser.c:136-237 | every well-formed expression, printed with the fewest parentheses, parses back to itself |
| Unparse.ExpressionPrinted | jminus-interpreter/parser.c:215-237 | a printed expression followed by a token that is no operator is read back whole, `=` grouping to the right |
| Unparse.LevelParsed | jminus-interpreter/parser.c:166-213 | a binary level reads back the expression printed for it, grouping its operators to the left |
| Unparse.PrimaryPrinted | jminus-interpreter/parser.c:136-164 | a primary reads back a literal, a name, or the parenthesised expression inside |
| ParseCases.YapPrecedence | jminus-interpreter/tests/parser_tests.c:34-60 | `yap(4+5*6);` parses as a yap of 4 + (5 * 6) |
| ParseCases.LetFoo | jminus-interpreter/tests/parser_tests.c:13-32 | `let foo = 123;` parses as a let of foo with the literal 123 |
| ParseCases.LeftAssociative | jminus-interpreter/parser.c:170-190 | `a-b-c;` groups to the left |
| ParseCases.AssignRight | jminus-interpreter/parser.c:219-233 | `a = b = 4;` groups to the right |
| ParseCases.DanglingElse | jminus-interpreter/parser.c:312-316 | `if (a) if (b) c; else 4;` gives the else to the inner `if` |
| ParseCases.AtomLevel | jminus-interpreter/parser.c:166-193 | an integer or name followed by a token no level takes is read by every level as that single primary |
| ParseCases.AssignToLiteral | jminus-interpreter/parser.c:224-227 | `1 = 2;` fails with InvalidAssignmentTarget |
| ParseCases.UnclosedBlock | jminus-interpreter/parser.c:359-362 | a block cut off by end of file fails with ExpectedRBrace |
| ParseCases.LetWithoutName | jminus-interpreter/parser.c:243-246 | `let 4 = 5;` fails with ExpectedLetName |
| Compiler.OperatorCodeText | jminus-interpreter/compiler.c:56-69 | the ten operator texts are exactly the ones with an opcode, each its own |
| Compiler.AddConstant | jminus-interpreter/compiler.c:17-24 | the value is appended without de-duplication and its index is the previous count |
| Compiler.Emit | jminus-interpreter/compiler.c:9-15 | the code grows by exactly one instruction; the buffer's doubling is invisible |
| Compiler.Compile | jminus-interpreter/compiler.c:137-153 | compiled code ends with HALT |
| Layout.CompileExprLayout | jminus-interpreter/compiler.c:26-76 | compile_expr appends exactly the reference code and literals, or stops at the first error: the target check first, an unknown operator after both operands |
| Layout.CompileStmtLayout | jminus-interpreter/compiler.c:78-135 | compile_stmt appends exactly the reference code, with every placeholder patched to its target, or stops at the first error |
| Layout.CompileLayout | jminus-interpreter/compiler.c:137-153 | compile succeeds exactly on programs without a compile error; it then answers the reference code followed by HALT and the literals in source order, and otherwise the first error |
| Layout.CompileIfNoElse | jminus-interpreter/compiler.c:95-111 | an `if` without else emits a placeholder JUMP_IF_FALSE and patches it to the index after the then branch |
| Layout.CompileIfElse | jminus-interpreter/compiler.c:95-111 | an `if` with else patches JUMP_IF_FALSE to the start of the else branch and the closing JUMP to the index after it |
| Layout.CompileWhile | jminus-interpreter/compiler.c:113-124 | a `while` ends with a JUMP back to its condition, and its JUMP_IF_FALSE is patched to the index after that jump |
| Layout.IfElseCode | jminus-interpreter/compiler.c:95-111 | the reference code of an `if` with else: condition, JUMP_IF_FALSE to the else branch, then branch, JUMP past the else branch, else branch |
| Layout.WhileCode | jminus-interpreter/compiler.c:113-124 | the reference code of a `while`: condition, JUMP_IF_FALSE past the loop, body, JUMP to the condition |
| CodeFacts.ProgramPlaced | jminus-interpreter/compiler.c:95-153 | in a compiled program HALT is last and nowhere else, every jump lands inside the code, every CONST names a table entry, and STORE_VAR, LOAD_CONST, LOOP and POP never appear |
| CodeFacts.ProgramOperands | jminus-interpreter/compiler.c:95-153 | every jump operand and every CONST operand of a compiled program indexes into it |
| CodeFacts.StmtCodePlaced | jminus-interpreter/compiler.c:78-135 | a statement's code jumps only within itself or just past its end, and names only its own constants |
| CodeFacts.AssignmentCode | jminus-interpreter/compiler.c:42-51 | an assignment compiles its right side only, then SET_VAR on the target's first character |
| CodeFacts.ValueEffect | jminus-interpreter/compiler.c:26-76 | an expression without `=` leaves exactly one value and never pops below its start |
| CodeFacts.AssignmentEffect | jminus-interpreter/compiler.c:42-51 | an assignment leaves no value |
| CodeFacts.ExprStmtEffect | jminus-interpreter/compiler.c:91-94 | an expression statement leaves its value on the stack, since nothing pops it; an assignment statement leaves nothing |
| CodeFacts.ConsumedEffect | jminus-interpreter/compiler.c:80-90 | `let` and `yap` consume the value of their expression |
| CodeFacts.YapOfAssignment | jminus-interpreter/compiler.c:42-51 | `yap(x = 1)` compiles to CONST, SET_VAR, PRINT, which prints from an empty stack |
| Environment.NewEnvironment | jminus-interpreter/environment.c:32-37 | a new scope binds nothing of its own and sees what its parent sees |
| Environment.FindLast | jminus-interpreter/environment.c:60-66 | the scope search finds the last entry with the name, and none exists when it finds nothing |
| Environment.Define | jminus-interpreter/environment.c:58-71 | define changes only the current scope, adds an entry only for a new name, and keeps names unique |
| Environment.DefineVisible | jminus-interpreter/environment.c:58-71 | after define, the name maps to the value and every other name maps as before |
| Environment.DefineLookup | jminus-interpreter/environment.c:58-93 | a lookup after define finds the defined value, and other names are unaffected |
| Environment.LookupVisible | jminus-interpreter/environment.c:82-93 | lookup answers the innermost binding, and fails with UndefinedVariable exactly on names no scope binds |
| Environment.AssignVisible | jminus-interpreter/environment.c:104-117 | assign succeeds exactly on bound names, then maps the name to the value and leaves every other name as it was |
| Environment.AssignLookup | jminus-interpreter/environment.c:104-117 | a lookup after assign finds the assigned value, and other names are unaffected |
| Environment.AssignFails | jminus-interpreter/environment.c:82-117 | assign fails exactly when lookup does |
| Environment.AssignWellScoped | jminus-interpreter/environment.c:104-117 | assign keeps every scope free of duplicate names |
| Environment.AssignDepth | jminus-interpreter/environment.c:104-117 | assign neither adds nor removes a scope |
| Values.AtoiDigits | jminus-interpreter/compiler.c:29 | `atoi` of a digit string, as the lexer produces for an integer literal, is its decimal value |
| Values.AtoiFormat | jminus-interpreter/vm.c:15 | reading back a printed value with `atoi` gives the value |
| Values.CDivSpec | jminus-interpreter/vm.c:57-62 | the C quotient truncates toward zero |
| Values.CDivUnique | jminus-interpreter/vm.c:57-62 | the truncated quotient is the only one that does |
| Values.Truth | jminus-interpreter/vm.c:64-99 | a comparison is 0 exactly when it does not hold |
| Vm.VarName | jminus-interpreter/vm.c:101-121 | a variable operand names a one-character string, empty when its low byte is 0 |
| Vm.Apply | jminus-interpreter/vm.c:39-99 | an operator fails exactly on a division by zero, and then with the division-by-zero fault |
| VmFacts.OperatorStep | jminus-interpreter/vm.c:39-99 | an operator pops two values and pushes one, keeping the rest of the stack, the variables and the output; it fails only on underflow or a zero divisor |
| VmFacts.ComparisonStep | jminus-interpreter/vm.c:64-99 | a comparison pushes 1 when it holds of the two operands, the left pushed first, and 0 when it does not |
| VmFacts.DivisionStep | jminus-interpreter/vm.c:57-62 | DIV pushes the quotient truncated toward zero |
| VmFacts.PrintStep | jminus-interpreter/vm.c:124-128 | PRINT pops the top value and appends it to the output, and fails only on an empty stack |
| VmFacts.StepOutput | jminus-interpreter/vm.c:28-147 | no instruction takes back what was printed |
| VmFacts.RunOutput | jminus-interpreter/vm.c:28-147 | a run's output begins with whatever was printed before it |
| VmFacts.DefineSetLoad | jminus-interpreter/vm.c:101-122 | DEFINE_VAR, SET_VAR, LOAD_VAR on one variable leave the value SET_VAR stored on the stack |
| VmFacts.ConstRule | jminus-interpreter/vm.c:32-37 | CONST pushes the indexed constant |
| VmFacts.LoadRule | jminus-interpreter/vm.c:101-108 | LOAD_VAR pushes the value of the one-character variable |
| VmFacts.SetRule | jminus-interpreter/vm.c:109-115 | SET_VAR pops the value into the existing variable |
| VmFacts.DefineRule | jminus-interpreter/vm.c:116-122 | DEFINE_VAR pops the value and defines the variable in the current scope |
| VmFacts.JumpIfFalseRule | jminus-interpreter/vm.c:130-135 | JUMP_IF_FALSE pops the condition and jumps exactly when it is 0 |
| VmFacts.JumpRule | jminus-interpreter/vm.c:136-139 | JUMP moves to its target and changes nothing else |
| VmFacts.HaltRule | jminus-interpreter/vm.c:141-142 | HALT stops with the stack, variables and output as they are |
| VmFacts.UnhandledStep | jminus-interpreter/vm.c:144-146 | POP, LOOP, LOAD_CONST and STORE_VAR stop the machine as unknown opcodes |
| VmFacts.Arithmetic | jminus-interpreter/tests/vm_tests.c:31-54 | CONST 7, CONST 3, ADD, PRINT, HALT prints 10 |
| VmFacts.DefineAssign | jminus-interpreter/tests/vm_tests.c:57-82 | defining x as 5, setting it to 9 and printing it prints 9 |
| VmFacts.TrueBranch | jminus-interpreter/tests/vm_tests.c:85-110 | a true condition prints 42 and jumps over the other HALT |
| VmFacts.SafeStep | jminus-interpreter/vm.c:28-147 | on well-formed code a step either fails at run time (underflow, division by zero, undefined variable) or lands on an instruction of the code |
| VmFacts.SafeRun | jminus-interpreter/vm.c:28-147 | a run of well-formed code ends at HALT, in a run-time fault, or out of fuel |
| VmFacts.CompiledWellFormed | jminus-interpreter/compiler.c:137-153 | compiled code is well formed for the VM |
| VmFacts.CompiledProgram | jminus-interpreter/vm.c:18-149 | running a compiled program never meets an unknown opcode, a constant outside the table or an index outside the code |
| Interpreter.YapLine | jminus-interpreter/interpreter.c:84-88 | the yap trace line ends with the value in a form `atoi` reads back |
| Interpreter.Eval | jminus-interpreter/interpreter.c:34-67 | an expression evaluates only if it has no `=` anywhere |
| Interpreter.EvalBinary | jminus-interpreter/interpreter.c:42-61 | a binary node gives what the VM's operator gives, and `=` is an unknown operator |
| Interpreter.EvalOrder | jminus-interpreter/interpreter.c:43-44 | the left operand's failure comes first, then the right's |
| Interpreter.Exec | jminus-interpreter/interpreter.c:72-136 | a statement, whether it finishes or fails, only appends to the trace printed so far and leaves the number of scopes as it was |
| Interpreter.Loop | jminus-interpreter/interpreter.c:118-124 | a loop, whether it finishes or fails, only appends to the trace and leaves the number of scopes as it was |
| Interpreter.ExecBlock | jminus-interpreter/interpreter.c:126-131 | a block, whether it finishes or fails, only appends to the trace and leaves the number of scopes as it was |
| Interpreter.Interpret | jminus-interpreter/interpreter.c:140-144 | a program, whether it finishes or fails, leaves the global environment's depth as it was |
| InterpreterFacts.AssignmentElsewhere | jminus-interpreter/interpreter.c:59-60 | `=` anywhere but at the top of an expression statement makes the statement fail with the evaluation's failure, before it prints or binds anything |
| InterpreterFacts.Reassignment | jminus-interpreter/interpreter.c:90-100 | `name = e;` finishes exactly when e evaluates and name is bound; it then rebinds only name and traces the new value; otherwise it fails with e's failure or Undefined(name), printing nothing |
| InterpreterFacts.LetBinds | jminus-interpreter/interpreter.c:76-82 | `let` fails only when its expression does, printing nothing; otherwise it binds the name to the value, changes no other name and traces it |
| InterpreterFacts.IfChoice | jminus-interpreter/interpreter.c:107-116 | a failing condition prints nothing; otherwise, after tracing the condition, a nonzero value runs the then branch and 0 runs the else branch, if any |
| InterpreterFacts.WhileRetest | jminus-interpreter/interpreter.c:118-124 | a failing condition stops the loop; a `while` on 0 changes nothing; otherwise it traces, runs the body, and is the same `while` again from there unless the body failed, which stops the loop with what it printed |
| InterpreterFacts.WhileExit | jminus-interpreter/interpreter.c:118-124 | a `while` that finishes without failing leaves its condition 0 |
| InterpreterFacts.BlockConcat | jminus-interpreter/interpreter.c:126-131 | running a + b runs a, then b from where a left off; when a fails, b never runs |
| InterpreterFacts.KeepsPrinted | jminus-interpreter/interpreter.c:126-144 | the trace printed by the first statements stays printed when a later statement fails |
| InterpreterFacts.PrintedBeforeFailure | jminus-interpreter/interpreter.c:84-88 | `yap(1); yap(x);` with no `x` keeps `Yap output: 1` and stops at the undefined `x` |
| InterpreterFacts.Flatten | jminus-interpreter/interpreter.c:126-131 | a block among statements runs exactly as its statements would in its place |
| InterpreterFacts.LetInBlock | jminus-interpreter/interpreter.c:126-131 | a `let` inside a block is still bound after it |
| Driver.CString | jminus-interpreter/main.c:106 | a buffer's string is its prefix before the first `'\0'` |
| Driver.TrimEnd | jminus-interpreter/main.c:109-112 | trimming keeps a prefix, leaves no strippable last character, and removes only strippable ones |
| Driver.CleanSource | jminus-interpreter/main.c:104-113 | the cleaned text is a prefix without trailing space, tab, `\n` or `\r`, and only those were removed |
| Driver.CleanLine | jminus-interpreter/repl.c:32-37 | the cleaned line is a prefix without trailing `\n` or `\r`, and only those were removed |
| Driver.CleanIdempotent | jminus-interpreter/main.c:104-113 | cleaning a cleaned text changes nothing |
| Driver.CleanLineKeepsBlanks | jminus-interpreter/repl.c:32-37 | a line whose text ends in a space or tab keeps it, whatever line breaks follow |
| Driver.RunFile | jminus-interpreter/main.c:169-215 | the file runner reaches the VM only on text that tokenizes |
| Driver.Handle | jminus-interpreter/repl.c:48-95 | the line quits exactly on `exit`/`:exit`, is skipped exactly when empty, and switches mode exactly on `:interp`/`:vm`, the only lines that change the mode |
| Driver.Session | jminus-interpreter/repl.c:46-100 | the loop answers at most one reply per line, the first line's reply is what `Handle` gives it, and no reply but the last ends the program |
| DriverFacts.ModeCommands | jminus-interpreter/repl.c:56-65 | `:interp` and `:vm` set the mode and change nothing else |
| DriverFacts.ModesSeparate | jminus-interpreter/repl.c:83-95 | a line runs in the current mode only, and only that mode's variables can change |
| DriverFacts.ExitEnds | jminus-interpreter/repl.c:51 | `exit` or `:exit` ends the session at that line |
| DriverFacts.BlankSkipped | jminus-interpreter/repl.c:66 | an empty line is skipped and the session goes on unchanged |
| DriverFacts.ParseErrorContinues | jminus-interpreter/repl.c:75-80 | a parse error is reported and the session goes on unchanged |
| DriverFacts.CompiledUntilInterp | jminus-interpreter/repl.c:41-95 | until a line reads `:interp`, no line is interpreted |
| DriverFacts.StartsCompiling | jminus-interpreter/repl.c:41 | the REPL starts in VM mode |
| DriverFacts.SessionStep | jminus-interpreter/repl.c:46-100 | a line whose reply does not end the program is answered, and the loop goes on with the next line from the state it left |
| DriverFacts.SessionStops | jminus-interpreter/repl.c:46-100 | every line is answered unless a reply ends the program, and then that reply is the last |
| DriverFacts.FileRuns | jminus-interpreter/main.c:169-215 | a file runs exactly when its cleaned text lexes, parses and compiles; it then runs that bytecode from an empty environment, and any fault is a run-time fault or lack of fuel |

## Left out

- Lexer.Scan: the loop test `*current != EOF` also stops at a byte 0xFF
  where `char` is signed (lexer.c:71). Here that character is an
  unrecognised character like any other.
- Lexer.Scan: `isspace`, `isalpha`, `isalnum` and `isdigit` are their
  ASCII definitions in the C locale. Other locales and bytes above 127 are
  not modelled.
- Lexer.Scan: the token array holds at most 1024 tokens (MAX_TOKENS, with
  no bound check). Here the number of tokens is unbounded.
- Parser.BlockBody: the C parser stores at most 128 statements per block
  and per program, with no bound check. Here they are unbounded.
- Environment.Define: a C scope holds at most 128 entries, with no bound
  check. Here scopes are unbounded.
- Environment.Assign: a C environment refers to its parent through a
  pointer, so an assignment in a parent scope is seen by every scope that
  shares it (environment.c:35, 111-113). Here the parent is a value
  inside the child, so an assignment changes only the chain it goes
  through. Both executors use a single scope, so nothing in the pipeline
  depends on the difference.
- Values.Atoi: values are unbounded integers. The 32-bit `int` overflow
  of `atoi` and of the VM's and interpreter's `+`, `-`, `*` is not
  modelled, nor `INT_MIN / -1`.
- Vm.Step: the VM stack has 1024 entries and no overflow check. Here the
  stack is unbounded, and popping an empty stack, which C does not check,
  is the StackUnderflow fault.
- Vm.Step: a division by zero, a CONST index outside the table and an
  instruction index outside the code are undefined behaviour in C. Here
  each is an explicit fault.
- Vm.Run: `run` loops until HALT. Here a run takes at most `fuel` steps
  and otherwise ends with OutOfFuel. Non-terminating programs are
  therefore not modelled.
- Interpreter.Loop: a `while` takes at most `fuel` iterations, and
  otherwise fails with OutOfFuel, for the same reason.
- Interpreter.Exec: the C trace lines go to standard output as they
  happen. Here they are collected as events; a run that fails returns
  the events printed before the failure together with the failure. The
  `Unhandled statement type` default is unreachable for the statements
  the parser builds.
- Parser.Parse: the diagnostic texts printed to stderr, and the lexeme
  and line they name, are not modelled; each diagnostic is one error
  constructor. When the expression inside parentheses fails, C prints two
  diagnostics; only the first is kept.
- Lexer.Tokenize: the printed report texts and the `exit(1)` are not
  modelled; the report is the list of characters and lines.
- Driver.RunFile: reading the file (`read_file`), the command-line
  arguments and the `--debug` dumps of tokens and tree (`print_token`,
  `print_stmt`) are not modelled. The runner takes the file's text.
  On a parse error `parse` returns NULL (parser.c:406-409), and `main`
  passes that tree, with `stmt_count` never set, on to `compile`
  (main.c:198-211), which is undefined behaviour; here that is the
  Unparsable error. `compile` never returns NULL: on an invalid
  assignment target or an unknown operator it calls `exit(1)`
  (compiler.c:44-45, 67-68), which is the Uncompilable error.
- Driver.Session: the REPL reads lines with `fgets` into a 1024-byte
  buffer, so a longer line arrives in pieces. Here each element of
  `lines` is one line as read. Prompts, colours, the banner, the `:help`
  text and end of input are not modelled; `:help` is the HelpShown reply.
- The memory management of the C code (`free_tokens`, `free_ast`,
  `free_bytecode`, `free_environment`) is not modelled: values are
  immutable.
- The `Float`, `NotEqual`, `Error`, `fn` and `return` token kinds exist in
  the C headers but no part of the pipeline acts on them beyond scanning
  the keywords. EXPR_CALL is never built by the parser and is left out of
  the tree.
