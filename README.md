# msdscript in Dafny

msdscript is a small expression language: numbers, booleans, names, `+`, `*`, `==`,
`_let`, `_if`, `_fun` and calls. Its interpreter has two evaluators over the same syntax
tree. The first is `Expr::interp`, a recursive evaluator that takes an environment of
bindings. The second is `Step::interp_by_steps`, a trampoline. It keeps the current
expression, the environment, the last value and a stack of reified continuations in
global registers. It runs `step_interp` and `step_continue` until the done continuation
is reached. Beside them sit two printers, `print` (fully parenthesised) and
`pretty_print` (minimal parentheses, `_let`/`_if` laid out over several lines), and a
recursive-descent parser for numbers, names, `+`, `*`, parentheses and `_let`.

This project models those parts and proves:

- The trampoline computes exactly what the recursive evaluator computes, in both
  directions (`StepsEquivalence.InterpAgreesWithRun`, `StepsEquivalence.RunAgreesWithInterp`).
- Every step keeps the machine state consistent. A machine started by `interp_by_steps`
  never reaches the "cannot continue done" error.
- Environment lookup finds the innermost binding and fails exactly on unbound names.
- Pretty printing only appends to its stream. It keeps its `pos` cell at the start of
  the line being written, so `letPos - *pos` is a column. Every `_in`, `_then` and
  `_else` starts a line of its own, in the column of its `_let` or `_if`.
- `+` and `*` print their left operand in parentheses when it has the same operator, and
  their right operand without, which matches the right-associating parser.
- Parsing what `print` wrote gives back the same tree, for every tree the parser can
  build (`PrintRoundTrip.PrintThenParse`).
- The stream parser leaves the stream exactly where a pure definition of the grammar
  says the unread input starts, and returns the expression or error that definition
  gives.
- The parser makes `+` and `*` associate to the right and gives `*` precedence over
  `+`. An unclosed `(` is "missing closing parenthesis". `_let` accepts blanks before and
  between all its parts.

Files:

- `results.dfy`: errors and results. A C++ `throw std::runtime_error(msg)` becomes `Err(Runtime(msg))`.
- `ast.dfy`: the expression tree.
- `values.dfy`: values and environments (Val.cpp, Env.cpp).
- `interp.dfy`: `Expr::interp` and its lemmas.
- `printer.dfy`: `print`, and `pretty_print` / `pretty_print_at`, both as a function and
  as an output-stream class.
- `cont.dfy`: continuations and `step_continue`.
- `step.dfy`: `step_interp`, the step relation and the `Step` registers as a class.
- `equivalence.dfy`: the agreement of the two evaluators.
- `chars.dfy`: the character classes the parser uses.
- `grammar.dfy`: the parser as functions on the unread input.
- `parser.dfy`: the parser as methods on a stream.
- `roundtrip.dfy`: print-then-parse.
- `samples.dfy`: the concrete print, evaluation, step and parse cases.
- `pretty_samples.dfy`: the concrete `pp_to_string` cases of the Expr.cpp unit tests,
  multi-line layouts included.

The recursive evaluator and the step machine take a `fuel` bound. It stands for the
unbounded recursion and the `while(true)` loop of the source. Running out of it gives
`Err(OutOfFuel)`, which no source operation produces. The agreement lemmas say that
every result other than `OutOfFuel` is the same for both evaluators.

Behaviour of the code worth knowing:

- `NumVal::mult_to` reports "add of non-number", the same message as `add_to`.
- `parse_expr` and `parse_addend` make `+` and `*` associate to the right.
- The parser in Parse.cpp reads only numbers, names, `+`, `*`, parentheses and `_let`. It
  builds no `==`, `_if`, booleans, functions or calls. The print round trip is therefore
  proved only for the trees it can build (`Grammar.Parsable`).
- Numbers are C++ `int`s of fixed width; the model uses unbounded integers (see "## Left out").
- Both evaluators evaluate the left operand of `+`, `*` and `==` before the right one,
  and the callee of a call before its argument, so the first error met is the left one.
  The step machine fixes that order with its continuations. `Expr::interp` writes it as
  `lhs->interp(env)->add_to(rhs->interp(env))`, whose order C++ guarantees only from
  C++17 on. With an older compiler an expression failing on both sides may report the
  right-hand error instead.

## Model

| member | source | states |
|---|---|---|
| Ast.Equals | msdscript/msdscript/Expr.cpp:37-43 | `equals` holds exactly when the two trees are the same variant with equal fields, all the way down |
| Values.Lookup | msdscript/msdscript/Env.cpp:16-31 | a failed lookup is the error "free variable: " followed by the name |
| Values.LookupSucceedsIffBound | msdscript/msdscript/Env.cpp:26-31 | lookup succeeds if and only if some frame of the environment binds the name |
| Values.LookupFindsInnermost | msdscript/msdscript/Env.cpp:26-31 | lookup returns the value of the innermost frame that binds the name |
| Values.ExtendShadows | msdscript/msdscript/Env.cpp:20-31 | a new frame answers for its own name and leaves every other name to the enclosing environment |
| Values.ValEquals | msdscript/msdscript/Val.cpp:20-26 | value equality is exactly equality of the variant and its fields |
| Values.AddTo | msdscript/msdscript/Val.cpp:28-33 | `add_to` succeeds if and only if both values are numbers, giving their sum; a number plus a non-number is "add of non-number" |
| Values.MultTo | msdscript/msdscript/Val.cpp:34-39 | `mult_to` succeeds if and only if both values are numbers, giving their product; a number times a non-number is also "add of non-number" |
| Values.IsTrue | msdscript/msdscript/Val.h:26 | `is_true` succeeds if and only if the value is a boolean, giving that boolean |
| Evaluator.InterpValueKinds | msdscript/msdscript/Expr.cpp:45-47 | numbers, sums and products evaluate to numbers; booleans and `==` to booleans; a `_fun` to a closure over the current environment; a name to its lookup |
| Evaluator.InterpFuelMonotone | msdscript/msdscript/Expr.cpp:528-530 | once evaluation finishes within some fuel, more fuel gives the same result |
| Evaluator.OperandsFuelMonotone | msdscript/msdscript/Expr.cpp:79-81 | the same for `+`, `*` and `==` nodes |
| Evaluator.LetFuelMonotone | msdscript/msdscript/Expr.cpp:219-223 | the same for `_let` nodes |
| Evaluator.IfFuelMonotone | msdscript/msdscript/Expr.cpp:376-381 | the same for `_if` nodes |
| Evaluator.CallFuelMonotone | msdscript/msdscript/Expr.cpp:528-530 | the same for call nodes |
| Evaluator.ToExprRoundTrip | msdscript/msdscript/Val.cpp:16-18 | the expression a number value converts to evaluates back to that value in any environment |
| Evaluator.LetExtendsEnv | msdscript/msdscript/Expr.cpp:219-223 | `_let` evaluates its body in the environment extended with the value of the right-hand side, or fails as the right-hand side does |
| Evaluator.IfIgnoresUnchosenBranch | msdscript/msdscript/Expr.cpp:376-381 | a true test gives the result of the then-branch, whatever the else-branch is, even one that would fail |
| Evaluator.IfFalseTakesElse | msdscript/msdscript/Expr.cpp:376-381 | a false test gives the result of the else-branch, whatever the then-branch is, even one that would fail |
| Evaluator.IfTestNotBoolean | msdscript/msdscript/Expr.cpp:376-381 | a failing test is the result of the `_if`, and a test that yields a non-boolean makes `is_true` fail with `NotABoolean`; neither branch runs |
| Evaluator.EqYieldsBool | msdscript/msdscript/Expr.cpp:321-323 | `==` on two evaluated operands is the boolean telling whether their values are equal |
| Evaluator.CallUsesCapturedEnv | msdscript/msdscript/Expr.cpp:451-453 | a function literal captures its environment, and calling it evaluates the body in that captured environment extended with the argument |
| Printer.NatToString | msdscript/msdscript/Val.cpp:41-43 | the decimal text of a natural number is a non-empty run of digits whose value is the number, with no leading zero |
| Printer.IntToString | msdscript/msdscript/Expr.cpp:54-56 | the text of an integer starts with `-` exactly when it is negative, followed by digits whose value is its magnitude |
| Printer.PrintVal | msdscript/msdscript/Val.cpp:41-43 | a number value prints as the decimal text of the number |
| Printer.Spaces | msdscript/msdscript/Expr.cpp:262-264 | the indentation loop writes exactly `spaces` blanks, or none when the count is not positive |
| Printer.PrettyTopIsPrettyAtNone | msdscript/msdscript/Expr.cpp:97-103 | on an empty stream, `pretty_print` is `pretty_print_at` with no grouping and `pos` 0 |
| Printer.PrettyAtGrows | msdscript/msdscript/Expr.cpp:105-113 | `pretty_print_at` only appends, and moves `pos` only to just after a newline it wrote |
| Printer.PrettyBinaryGrows | msdscript/msdscript/Expr.cpp:154-170 | the same for the `+`, `*` and `==` layouts |
| Printer.PrettyLineGrows | msdscript/msdscript/Expr.cpp:260-266 | a continuation line appends and sets `pos` just after its own newline |
| Printer.PrettyLetGrows | msdscript/msdscript/Expr.cpp:252-269 | the `_let` layout only appends, and `pos` ends after a newline it wrote |
| Printer.PrettyIfGrows | msdscript/msdscript/Expr.cpp:413-436 | the `_if` layout only appends, and `pos` ends after a newline it wrote |
| Printer.Print | msdscript/msdscript/Expr.cpp:89-95 | a sum, and every other node that is not a leaf or a call, prints inside one pair of parentheses |
| Printer.PrettyAtKeepsCurrentLine | msdscript/msdscript/Expr.cpp:255-256 | if `pos` starts at the start of the line being written, it is still there afterwards, as long as the names printed hold no line break; so `letPos - *pos` is the column of `_let` |
| Printer.PrettyLetKeepsCurrentLine | msdscript/msdscript/Expr.cpp:252-269 | the same for the `_let` layout |
| Printer.PrettyIfKeepsCurrentLine | msdscript/msdscript/Expr.cpp:413-436 | the same for the `_if` layout |
| Printer.PrettyBinaryKeepsCurrentLine | msdscript/msdscript/Expr.cpp:154-170 | the same for the `+`, `*` and `==` layouts |
| Printer.PrettyLineKeepsCurrentLine | msdscript/msdscript/Expr.cpp:260-266 | a continuation line leaves `pos` at the start of its own line |
| Printer.CurrentLineColumn | msdscript/msdscript/Expr.cpp:255-256 | when `pos` starts the line being written, the length of the output minus `pos` is the column at its end |
| Printer.PrettyLetAligns | msdscript/msdscript/Expr.cpp:252-269 | `_let` stands where the layout starts, after the `(` if any, and `_in` starts a later line, after blanks only, in the same column |
| Printer.PrettyIfAligns | msdscript/msdscript/Expr.cpp:413-436 | `_if` stands where the layout starts, and `_then` and `_else` each start a later line, after blanks only, in its column |
| Printer.PrettyStringAligns | msdscript/msdscript/Expr.cpp:241-251 | `pp_to_string` of a `_let` starts with `_let` and puts `_in` in column 0 of a later line; of an `_if`, likewise for `_then` and `_else` |
| Printer.SumsGroupToTheRight | msdscript/msdscript/Expr.cpp:105-113 | a sum on the right of `+` prints bare, and one on the left prints in parentheses |
| Printer.ProductsGroupToTheRight | msdscript/msdscript/Expr.cpp:154-170 | a product on the right of `*` prints bare, and one on the left prints in parentheses |
| Printer.PrettyPrinter.constructor | msdscript/msdscript/Expr.cpp:24-30 | the stream starts empty |
| Printer.PrettyPrinter.EmitSpaces | msdscript/msdscript/Expr.cpp:262-264 | the loop appends exactly the indentation blanks |
| Printer.PrettyPrinter.PrettyPrintAt | msdscript/msdscript/Expr.cpp:105-113 | the method appends exactly the text and returns exactly the `pos` that the `PrettyAt` layout gives |
| Printer.PrettyPrinter.PrintBinaryAt | msdscript/msdscript/Expr.cpp:154-170 | the method writes the binary-operator layout exactly |
| Printer.PrettyPrinter.PrintLetAt | msdscript/msdscript/Expr.cpp:252-269 | the method writes the `_let` layout exactly |
| Printer.PrettyPrinter.PrintIfAt | msdscript/msdscript/Expr.cpp:413-436 | the method writes the `_if` layout exactly |
| Printer.PrettyPrinter.PrintLine | msdscript/msdscript/Expr.cpp:260-266 | the method writes a newline, sets `pos`, then writes the indentation, the keyword and the sub-expression |
| Printer.PrettyPrinter.PrettyPrint | msdscript/msdscript/Expr.cpp:241-251 | `pretty_print` appends exactly the top-level layout |
| Continuations.CallStep | msdscript/msdscript/Cont.cpp:115-117 | a call succeeds if and only if the callee is a closure; the body runs next with the parameter bound to the argument, every other name as captured, and the result going straight to the rest of the stack |
| Continuations.ChainEndsInDone | msdscript/msdscript/Cont.cpp:119-121 | every continuation stack ends in the done continuation, and there only |
| Continuations.ContinueStep | msdscript/msdscript/Cont.cpp:19-147 | a frame either pops itself or is replaced by one frame on the same rest; finishing `+`, `*` or `==` stays in continue mode and every other frame interprets next; an equality frame never fails; the done frame is "cannot continue done" |
| Steps.Init | msdscript/msdscript/Step.cpp:16-21 | `interp_by_steps` starts consistent and unhalted, interpreting the expression in the empty environment with only the done continuation |
| Steps.InterpStep | msdscript/msdscript/Expr.cpp:49-536 | a leaf switches to continue mode with a value; a compound node pushes exactly one frame and interprets its first sub-expression; only a free variable fails |
| Steps.Step | msdscript/msdscript/Step.cpp:23-31 | one loop iteration keeps the machine state consistent |
| Steps.Exec | msdscript/msdscript/Step.cpp:23-31 | so do any number of iterations |
| Steps.StepErrorIsNotDone | msdscript/msdscript/Step.cpp:27-30 | the loop never calls `step_continue` on the done continuation |
| Steps.RunNeverContinuesDone | msdscript/msdscript/Step.cpp:23-32 | a run never ends in "cannot continue done" |
| Steps.Machine.StepInterp | msdscript/msdscript/Expr.cpp:49-536 | `step_interp` overwrites the registers as `InterpStep` says, or fails with the registers left unchanged |
| Steps.Machine.StepContinue | msdscript/msdscript/Cont.cpp:19-147 | `step_continue` overwrites the registers as `ContinueStep` says, or fails with the registers left unchanged |
| Steps.Machine.InterpBySteps | msdscript/msdscript/Step.cpp:16-33 | `interp_by_steps` returns what `Run` of the initial state gives |
| Equivalence.ExecSeq | msdscript/msdscript/Step.cpp:23-31 | running a + b steps is running a steps and then b more |
| Equivalence.InterpThenSteps | msdscript/msdscript/Step.cpp:16-33 | whatever `interp` finishes with, the machine reaches from the same expression, environment and continuation, in some number of steps |
| Equivalence.LetThenSteps | msdscript/msdscript/Expr.cpp:225-229 | the same for a `_let` node, through the `LetBodyCont` frame |
| Equivalence.IfThenSteps | msdscript/msdscript/Expr.cpp:383-387 | the same for an `_if` node |
| Equivalence.IfBranchThenSteps | msdscript/msdscript/Cont.cpp:72-81 | after the test value reaches the `IfBranchCont` frame, the machine reaches the `_if` result |
| Equivalence.CallThenSteps | msdscript/msdscript/Expr.cpp:532-536 | the same for a call node |
| Equivalence.CallArgThenSteps | msdscript/msdscript/Cont.cpp:103-108 | after the callee value reaches the `ArgThenCallCont` frame, the machine reaches the call result |
| Equivalence.CallOutcome | msdscript/msdscript/Expr.cpp:528-530 | a call fails as its callee or argument does, then fails if the callee is not a function, and otherwise is the body in the captured environment |
| Equivalence.OperandsOutcome | msdscript/msdscript/Expr.cpp:79-81 | `+`, `*` and `==` fail as the left operand does, and otherwise as the right operand does |
| Equivalence.BinaryThenSteps | msdscript/msdscript/Expr.cpp:83-87 | the machine reaches the result of a `+`, `*` or `==` node |
| Equivalence.RightOperandThenSteps | msdscript/msdscript/Cont.cpp:19-25 | after the left value reaches its right-operand frame, the machine reaches the result of the node |
| StepsEquivalence.RunExec | msdscript/msdscript/Step.cpp:23-31 | running with a + m fuel is running with m fuel from the state a steps on |
| StepsEquivalence.RunStep | msdscript/msdscript/Step.cpp:23-31 | a finished run of an unhalted state is the run of its successor with one step less |
| StepsEquivalence.ExecOutrunsRun | msdscript/msdscript/Step.cpp:23-31 | a run that stops short of a reachable state is out of fuel |
| StepsEquivalence.RunFuelMonotone | msdscript/msdscript/Step.cpp:23-31 | once a run finishes, more fuel gives the same result |
| StepsEquivalence.ExecErrRun | msdscript/msdscript/Step.cpp:23-31 | a step that throws ends the run with that error |
| StepsEquivalence.InterpNeverContinuesDone | msdscript/msdscript/Cont.cpp:119-121 | the recursive evaluator never produces the "cannot continue done" error |
| StepsEquivalence.RunPastSubexpr | msdscript/msdscript/Step.cpp:23-31 | a finished run passes through the state in which the sub-expression's value reaches the continuation |
| StepsEquivalence.StepsThenInterp | msdscript/msdscript/Step.cpp:16-33 | if the machine finishes within some fuel, `interp` finishes within the same fuel |
| StepsEquivalence.SubexprThenRun | msdscript/msdscript/Step.cpp:16-33 | the same, together with where the run continues from |
| StepsEquivalence.LetStepsThenInterp | msdscript/msdscript/Cont.cpp:90-95 | the same for `_let` |
| StepsEquivalence.IfStepsThenInterp | msdscript/msdscript/Cont.cpp:72-81 | the same for `_if` |
| StepsEquivalence.BinaryStepsThenInterp | msdscript/msdscript/Cont.cpp:19-37 | the same for `+`, `*` and `==` |
| StepsEquivalence.CallStepsThenInterp | msdscript/msdscript/Cont.cpp:103-117 | the same for calls |
| StepsEquivalence.CallArgStepsThenInterp | msdscript/msdscript/Cont.cpp:103-108 | the same for the argument and body of a call |
| StepsEquivalence.OperandsFinish | msdscript/msdscript/Expr.cpp:79-81 | `+`, `*` and `==` finish when their operands do |
| StepsEquivalence.IfFinishes | msdscript/msdscript/Expr.cpp:376-381 | `_if` finishes when its test and chosen branch do |
| StepsEquivalence.LetFinishes | msdscript/msdscript/Expr.cpp:219-223 | `_let` finishes when its right-hand side and body do |
| StepsEquivalence.CallFinishes | msdscript/msdscript/Expr.cpp:528-530 | a call finishes when its callee, argument and body do |
| StepsEquivalence.InterpAgreesWithRun | msdscript/msdscript/Step.cpp:16-33 | every result `interp` finishes with in the empty environment, `interp_by_steps` also gives |
| StepsEquivalence.RunAgreesWithInterp | msdscript/msdscript/Step.cpp:16-33 | every result `interp_by_steps` finishes with, `interp` gives with the same fuel |
| Chars.CharClassesDisjoint | msdscript/msdscript/Parse.cpp:134-157 | a letter is neither a digit nor a blank, a digit is not a blank, and `-`, `(`, `)`, `=` and `_` are none of the three |
| Chars.DigitRun | msdscript/msdscript/Parse.cpp:89-96 | the digit loop stops at the first non-digit |
| Chars.AlphaRun | msdscript/msdscript/Parse.cpp:43-48 | the letter loop stops at the first non-letter |
| Grammar.SkipWs | msdscript/msdscript/Parse.cpp:21-28 | after skipping, the input is empty or starts with a non-blank |
| Grammar.BlanksSkipped | msdscript/msdscript/Parse.cpp:21-28 | blanks in front of the input change nothing about where skipping ends |
| Grammar.BlanksBeforeToken | msdscript/msdscript/Parse.cpp:21-28 | skipping blanks in front of a token stops exactly at the token |
| Grammar.SkipWsDropsBlanks | msdscript/msdscript/Parse.cpp:21-28 | skipping removes only a prefix, and that prefix is all blanks |
| Grammar.Consume | msdscript/msdscript/Parse.cpp:11-19 | `consume` succeeds if and only if the next character is the expected one, and drops it; otherwise "consume mismatch" |
| Grammar.Word | msdscript/msdscript/Parse.cpp:31-34 | `n` calls of `get()` read the next `n` characters, with end-of-file markers past the end |
| Grammar.ParseKeyword | msdscript/msdscript/Parse.cpp:30-38 | a keyword that is read never lengthens the input |
| Grammar.KeywordRead | msdscript/msdscript/Parse.cpp:30-38 | a keyword at the front of the input is read and dropped |
| Grammar.KeywordFoundIffPrefix | msdscript/msdscript/Parse.cpp:30-38 | `parse_keyword` succeeds if and only if the input starts with the keyword, and drops it; otherwise "keyword not found" |
| Grammar.ParseVar | msdscript/msdscript/Parse.cpp:40-50 | `parse_var` always yields a name and never lengthens the input |
| Grammar.ParseVarReads | msdscript/msdscript/Parse.cpp:40-50 | after the blanks, the name is the longest run of letters, and the rest does not start with a letter |
| Grammar.ParseNum | msdscript/msdscript/Parse.cpp:81-100 | `parse_num` always yields a number, and reads at least one character when it starts at a sign or digit |
| Grammar.SignLength | msdscript/msdscript/Parse.cpp:85-88 | the sign takes one character exactly when the input starts with `-` |
| Grammar.ParseNumReads | msdscript/msdscript/Parse.cpp:81-100 | the number is the optional sign and the longest run of digits that follows it, read in decimal and negated after `-` |
| Grammar.ParseExpr | msdscript/msdscript/Parse.cpp:102-117 | a successful parse always consumes input |
| Grammar.ParseAddend | msdscript/msdscript/Parse.cpp:119-132 | the same for addends |
| Grammar.ParseMulticand | msdscript/msdscript/Parse.cpp:134-157 | the same for multiplicands |
| Grammar.ParenthesisedMulticand | msdscript/msdscript/Parse.cpp:140-147 | after `(`, a failing expression fails the multiplicand; an expression followed, after blanks, by `)` is the result; anything else is "missing closing parenthesis" |
| Grammar.ExprSkipsBlanks | msdscript/msdscript/Parse.cpp:134-135 | an expression parses the same with or without the blanks in front of it |
| Grammar.SumsAssociateRight | msdscript/msdscript/Parse.cpp:102-117 | `x + y + z` parses as `x + (y + z)` |
| Grammar.ProductsAssociateRight | msdscript/msdscript/Parse.cpp:119-132 | `x * y * z` parses as `x * (y * z)` |
| Grammar.ProductBeforeSum | msdscript/msdscript/Parse.cpp:102-132 | `x * y + z` parses as `(x * y) + z` |
| Grammar.ProductAfterSum | msdscript/msdscript/Parse.cpp:102-132 | `x + y * z` parses as `x + (y * z)` |
| Grammar.LetNameAcceptsBlanks | msdscript/msdscript/Parse.cpp:56-58 | the bound name is read whatever blanks stand before and after it |
| Grammar.LetHeadAcceptsBlanks | msdscript/msdscript/Parse.cpp:52-60 | `_let`, the name and `=` are read whatever blanks stand before or between them |
| Grammar.InKeywordAfterBlanks | msdscript/msdscript/Parse.cpp:62-64 | `_in` is read after any blanks |
| Grammar.LetTailAcceptsBlanks | msdscript/msdscript/Parse.cpp:60-67 | blanks before `_in` are skipped, and the body fails or is read as the expression after `_in` |
| Grammar.MulticandAfterBlanks | msdscript/msdscript/Parse.cpp:137-156 | the same once the blanks are skipped |
| Grammar.ParseLet | msdscript/msdscript/Parse.cpp:52-68 | the same for `_let` |
| Grammar.LetAfterEquals | msdscript/msdscript/Parse.cpp:60-67 | the same after the `=` |
| Grammar.MulticandStart | msdscript/msdscript/Parse.cpp:134-157 | a sign, digit or letter always starts a multiplicand; any other character except `(` and `_`, or the end of the input, is "invalid input" |
| Grammar.ExprParsable | msdscript/msdscript/Parse.cpp:102-117 | the parser only builds numbers, letter names, sums, products and `_let` |
| Grammar.AddendParsable | msdscript/msdscript/Parse.cpp:119-132 | the same for addends |
| Grammar.MulticandParsable | msdscript/msdscript/Parse.cpp:134-157 | the same for multiplicands |
| Grammar.LetParsable | msdscript/msdscript/Parse.cpp:52-68 | the same for `_let` |
| Grammar.LetAfterEqualsParsable | msdscript/msdscript/Parse.cpp:60-67 | the same after the `=` |
| Grammar.ParseStr | msdscript/msdscript/Parse.cpp:75-79 | `parse_str` builds only trees the parser's grammar allows |
| StreamParser.Parser.constructor | msdscript/msdscript/Parse.cpp:76 | the stream starts at the beginning of the string |
| StreamParser.Parser.Get | msdscript/msdscript/Parse.cpp:12 | `get()` returns and consumes the next character, or returns end-of-file and does not move at the end |
| StreamParser.Parser.Consume | msdscript/msdscript/Parse.cpp:11-19 | the method fails or succeeds as `Grammar.Consume`, and on success leaves the stream where that function says |
| StreamParser.Parser.SkipWhitespace | msdscript/msdscript/Parse.cpp:21-28 | the loop leaves the stream where `SkipWs` says |
| StreamParser.Parser.ParseKeyword | msdscript/msdscript/Parse.cpp:30-38 | the `get()` loop and the comparison agree with `Grammar.ParseKeyword` |
| StreamParser.Parser.ParseVar | msdscript/msdscript/Parse.cpp:40-50 | the name read and the stream position agree with `Grammar.ParseVar` |
| StreamParser.Parser.ReadLetters | msdscript/msdscript/Parse.cpp:43-48 | the loop reads exactly the longest run of letters |
| StreamParser.Parser.ParseNum | msdscript/msdscript/Parse.cpp:81-100 | the number read and the stream position agree with `Grammar.ParseNum` |
| StreamParser.Parser.ReadDigits | msdscript/msdscript/Parse.cpp:89-96 | the loop reads exactly the longest run of digits, and accumulates their decimal value |
| StreamParser.Parser.ParseExpr | msdscript/msdscript/Parse.cpp:102-117 | the result and the stream position agree with `Grammar.ParseExpr` |
| StreamParser.Parser.ParseAddend | msdscript/msdscript/Parse.cpp:119-132 | the same, with `Grammar.ParseAddend` |
| StreamParser.Parser.ParseMulticand | msdscript/msdscript/Parse.cpp:134-157 | the same, with `Grammar.ParseMulticand` |
| StreamParser.Parser.ParseLet | msdscript/msdscript/Parse.cpp:52-68 | the same, with `Grammar.ParseLet` |
| StreamParser.ParseString | msdscript/msdscript/Parse.cpp:75-79 | `parse_str` is `parse_expr` on a fresh stream over the string |
| PrintRoundTrip.MulticandIsAddend | msdscript/msdscript/Parse.cpp:119-132 | a multiplicand not followed by `*` is a whole addend |
| PrintRoundTrip.AddendIsExpr | msdscript/msdscript/Parse.cpp:102-117 | an addend not followed by `+` is a whole expression |
| PrintRoundTrip.MulticandIsExpr | msdscript/msdscript/Parse.cpp:102-132 | a multiplicand followed by neither operator is a whole expression |
| PrintRoundTrip.MulticandIsExprAfterBlanks | msdscript/msdscript/Parse.cpp:102-132 | the same when the expression starts after blanks |
| PrintRoundTrip.NumReadsBack | msdscript/msdscript/Parse.cpp:81-100 | the decimal text of any integer, followed by a non-digit, reads back as that number |
| PrintRoundTrip.NameReadsBack | msdscript/msdscript/Parse.cpp:40-50 | a letter name followed by a non-letter reads back as that name |
| PrintRoundTrip.GroupReadsBack | msdscript/msdscript/Parse.cpp:140-147 | a parenthesised expression reads back as that expression |
| PrintRoundTrip.SumReadsBack | msdscript/msdscript/Parse.cpp:102-117 | `a+b` reads back as the sum of what `a` and `b` read as |
| PrintRoundTrip.ProductReadsBack | msdscript/msdscript/Parse.cpp:119-132 | `a*b` reads back as the product |
| PrintRoundTrip.SumGroupReadsBack | msdscript/msdscript/Expr.cpp:89-95 | the printed form of a sum reads back as that sum |
| PrintRoundTrip.ProductGroupReadsBack | msdscript/msdscript/Expr.cpp:138-144 | the printed form of a product reads back as that product |
| PrintRoundTrip.BinaryReadsBack | msdscript/msdscript/Expr.cpp:89-95 | any printed sum or product of parsable operands reads back as itself |
| PrintRoundTrip.LetKeywordReadsBack | msdscript/msdscript/Parse.cpp:54-55 | `_let` is consumed as `_` and the keyword `let` |
| PrintRoundTrip.LetNameReadsBack | msdscript/msdscript/Parse.cpp:56-59 | the bound name and the `=` read back |
| PrintRoundTrip.LetHeadReadsBack | msdscript/msdscript/Parse.cpp:52-59 | the head `_let x=` of a printed `_let` reads back, leaving the rest to the right-hand side |
| PrintRoundTrip.InKeywordReadsBack | msdscript/msdscript/Parse.cpp:62-64 | ` _in` is consumed as `_` and the keyword `in` |
| PrintRoundTrip.InReadsBack | msdscript/msdscript/Parse.cpp:62-66 | ` _in ` followed by a printed body reads back to the body |
| PrintRoundTrip.BodyAfterBlankReadsBack | msdscript/msdscript/Parse.cpp:65-66 | a printed body after a blank reads back as that body |
| PrintRoundTrip.LetTailReadsBack | msdscript/msdscript/Parse.cpp:60-67 | the part of a printed `_let` after `=` reads back as the right-hand side and the body |
| PrintRoundTrip.LetIsMulticand | msdscript/msdscript/Parse.cpp:150-151 | input starting with `_` is parsed by `parse_let` |
| PrintRoundTrip.LetGroupReadsBack | msdscript/msdscript/Expr.cpp:231-239 | the printed form of a `_let` reads back as that `_let` |
| PrintRoundTrip.LetReadsBack | msdscript/msdscript/Expr.cpp:231-239 | any printed `_let` of parsable parts reads back as itself |
| PrintRoundTrip.PrintReadsBack | msdscript/msdscript/Expr.cpp:16-22 | the printed text of any parsable tree, followed by a delimiter, reads back as that tree |
| PrintRoundTrip.PrintThenParse | msdscript/msdscript/Expr.cpp:16-22 | `parse_str(to_string(e))` is `e` for every tree the parser can build |
| PrintRoundTrip.PrintedInputInterpretsAlike | msdscript/test_msdscript/test_msdscript/main.cpp:26-37 | re-parsing the printed form of a parsed program gives the same program, so it evaluates to the same result |
| PrettySamples.PrettyLetOnTwoLines | msdscript/msdscript/Expr.cpp:612-613 | `_let x = 5 _in x + 1` pretty-prints as `_let x = 5`, newline, `_in  x + 1` |
| PrettySamples.PrettyEquality | msdscript/msdscript/Expr.cpp:623 | `0 == 3` pretty-prints without parentheses |
| PrettySamples.PrettyEqualityInSum | msdscript/msdscript/Expr.cpp:625 | `==` on the left of `+` is parenthesised |
| PrettySamples.PrettyEqualityInProduct | msdscript/msdscript/Expr.cpp:629 | `==` on the right of `*` is parenthesised |
| PrettySamples.PrettyEqualityChain | msdscript/msdscript/Expr.cpp:630 | `(1 == 2) == 3 == 4` |
| PrettySamples.PrettyLetOfEquality | msdscript/msdscript/Expr.cpp:636 | a `_let` right-hand side `5 == 3` is printed bare |
| PrettySamples.PrettyLetInProduct | msdscript/msdscript/Expr.cpp:600 | `5 * (_let x = 5`, newline, five blanks, `_in  x) + 1` |
| PrettySamples.PrettyLetAsFactor | msdscript/msdscript/Expr.cpp:605 | `5 * _let x = 5`, newline, four blanks, `_in  x + 1` |
| PrettySamples.PrettyNestedLet | msdscript/msdscript/Expr.cpp:610 | a `_let` in a `_let` body puts its `_in` five columns in, under its own `_let` |
| PrettySamples.PrettyLetInSumInLet | msdscript/msdscript/Expr.cpp:618-620 | `_let x = 5`, `_in  (_let y = 3`, `      _in  y + 2) + x` on three lines |
| PrettySamples.PrettyLetsAroundEquality | msdscript/msdscript/Expr.cpp:632 | `(_let x = 5`, ` _in  x) == _let x = 5`, then `_in  x` in column 12 |
| PrettySamples.PrettyIfAsTest | msdscript/msdscript/Expr.cpp:808-809 | an `_if` as a test indents its `_then` and `_else` four columns, and the outer ones start their lines |
| PrettySamples.PrettySumOnLeftOfSum | msdscript/msdscript/Expr.cpp:717-718 | `(3 + 4) + 5` |
| PrettySamples.PrettySumOnRightOfSum | msdscript/msdscript/Expr.cpp:719-720 | `3 + 4 + 5` |
| PrettySamples.PrettyProductsInSums | msdscript/msdscript/Expr.cpp:721-722 | `3 + 4 * 5` |
| PrettySamples.PrettyProductOnLeftOfSum | msdscript/msdscript/Expr.cpp:723-724 | `3 * 4 + 5` |
| PrettySamples.PrettySumOnLeftOfProduct | msdscript/msdscript/Expr.cpp:734-735 | `(3 + 4) * 5` |
| PrettySamples.PrettySumOnRightOfProduct | msdscript/msdscript/Expr.cpp:736-737 | `3 * (4 + 5)` |
| PrettySamples.PrettyProductOnRightOfProduct | msdscript/msdscript/Expr.cpp:738-739 | `3 * 4 * 5` |
| PrettySamples.PrettyProductOnLeftOfProduct | msdscript/msdscript/Expr.cpp:740-741 | `(3 * 4) * 5` |
| PrettySamples.PrettyDeepProduct | msdscript/msdscript/Expr.cpp:751-752 | `((3 * 4) * 5 * 6) * (7 + 8)` |
| PrettySamples.PrettyDeepProductOfNames | msdscript/msdscript/Expr.cpp:754-755 | `((c + d) * 6) * 5 * f` |
| Samples.PrintLetSum | msdscript/msdscript/Expr.cpp:658 | `(_let x=5 _in (x+1))` |
| Samples.PrintSumOfProducts | msdscript/msdscript/Expr.cpp:684-685 | `((3*2)+(5*6))` |
| Samples.PrintFunAndCall | msdscript/msdscript/Expr.cpp:686-687 | `(_fun (x) 5)` and `x(5)` |
| Samples.InterpLetInProduct | msdscript/msdscript/Expr.cpp:599 | `5 * (_let x = 5 _in x) + 1` evaluates to 26 |
| Samples.InterpFreeVariable | msdscript/msdscript/Expr.cpp:757 | a free `x` is "free variable: x", also in the branch `_if _false` takes |
| Samples.StepLeaves | msdscript/msdscript/Expr.cpp:816-818 | the step machine evaluates `1` to 1 and `_true` to true in one step |
| Samples.StepSum | msdscript/msdscript/Expr.cpp:817 | the step machine evaluates `2+2` to 4 |
| Samples.StepLet | msdscript/msdscript/Expr.cpp:819 | the step machine evaluates `_let x = 3 _in x+2` to 5 |
| Samples.StepIfTrue | msdscript/msdscript/Expr.cpp:820 | the step machine evaluates `_if 1==1 _then 5 _else 3` to 5 |
| Samples.StepIf | msdscript/msdscript/Expr.cpp:821 | the step machine evaluates `_if 1==0 _then 5 _else 3` to 3 |
| Samples.StepIfProduct | msdscript/msdscript/Expr.cpp:822 | the step machine evaluates `_if 1==1 _then 2*2 _else 3` to 4 |
| Samples.StepLetCall | msdscript/msdscript/Expr.cpp:823 | the step machine evaluates `_let f = _fun (x) x + 1 _in  f(10)` to 11 |
| Samples.StepCall | msdscript/msdscript/Expr.cpp:824 | the step machine evaluates `(_fun (x) x + 1)(5)` to 6 |
| Samples.StepAddToName | msdscript/msdscript/Expr.cpp:819 | with `x` bound to `v` in the innermost frame, `x + c` takes the machine five steps to `v + c` |
| Samples.StepApplyAdd | msdscript/msdscript/Expr.cpp:823-824 | once the argument `v` reaches a call of `_fun (x) x + c`, six more steps give `v + c` |
| Samples.ParseRejects | msdscript/msdscript/Parse.cpp:153-156 | the empty input and `)` are "invalid input" |
| Samples.ParseSamples | msdscript/msdscript/Parse.cpp:134-147 | `7` and `(2+2)` parse to the number and the sum |
| Samples.DigitSums | msdscript/msdscript/Parse.cpp:102-117 | for any digits `a`, `b`, `c`, the text `a+b+c` parses as `a + (b + c)` |
| Samples.DigitProducts | msdscript/msdscript/Parse.cpp:119-132 | for any digits, `a*b*c` parses as `a * (b * c)` |
| Samples.DigitProductBeforeSum | msdscript/msdscript/Parse.cpp:102-132 | for any digits, `a*b+c` parses as `(a * b) + c` |
| Samples.DigitProductAfterSum | msdscript/msdscript/Parse.cpp:102-132 | for any digits, `a+b*c` parses as `a + (b * c)` |
| Samples.ParseSumsToTheRight | msdscript/msdscript/Parse.cpp:102-117 | `1+2+3` parses as `1 + (2 + 3)` |
| Samples.ParseProductsToTheRight | msdscript/msdscript/Parse.cpp:119-132 | `1*2*3` parses as `1 * (2 * 3)` |
| Samples.ParseProductBeforeSum | msdscript/msdscript/Parse.cpp:102-132 | `1*2+3` parses as `(1 * 2) + 3` |
| Samples.ParseProductAfterSum | msdscript/msdscript/Parse.cpp:102-132 | `1+2*3` parses as `1 + (2 * 3)` |
| Samples.ParseUnclosedParenthesis | msdscript/msdscript/Parse.cpp:143-146 | `(1` is "missing closing parenthesis" |
| Samples.ParseParenthesisNotClosed | msdscript/msdscript/Parse.cpp:143-146 | `(1 2)` is "missing closing parenthesis" |
| Samples.ParseLetWithBlanks | msdscript/msdscript/Parse.cpp:52-68 | ` _let  x = 5 _in x` parses as the `_let` |

## Left out

- The command line (main.cpp, cmdline.cpp), the standard streams, and the random-program test driver that starts subprocesses. They are I/O and randomness. `PrintRoundTrip.PrintedInputInterpretsAlike` states the property that driver checks, on trees instead of process output.
- `Evaluator.Interp`, `Steps.Run`: a `fuel` bound replaces the unbounded recursion and the `while(true)` loop. Running out of fuel gives `Err(OutOfFuel)`, which the source never produces. A program that does not terminate in the source is out of fuel for every bound here.
- Integers are unbounded. The `int` of `NumVal`/`NumExpr` and the `n*10 + d` of `parse_num` are not wrapped to 32 bits, so overflow is not modelled.
- Several methods are declared in Val.h, but their bodies are not part of this model: `is_true`, `call` and `call_step` of all values, and the `BoolVal`/`FunVal` versions of `equals`, `add_to`, `mult_to`, `print` and `to_expr`. They are modelled as follows:
  - `is_true` on a non-boolean is `NotABoolean`.
  - Adding or multiplying with a non-number on the left is `NotANumber`.
  - Calling a non-function is `NotCallable`.
  - A call binds the parameter in the captured environment and evaluates the body.
  - Value equality is structural.
  The error messages of that code are unknown.
- Printer.PrintVal: only number values are printed, because that is the only `Val::print` shown. Printer.PrintVal requires a number.
- Values.ToExpr: only number values are converted, for the same reason.
- `_fun` and call nodes: their `pretty_print_at` bodies are commented out in the source, so the model prints nothing for them. The commented-out substitution code is not modelled either.
- Steps.Machine.StepInterp, Steps.Machine.StepContinue: a step that throws leaves the registers unchanged in the model. In the source a failing step may already have overwritten `mode` or `val`. The model does not capture those partial writes, because the run ends at that throw.
- Grammar.ParseMulticand: its own contract states only that a successful parse consumes input. The outcomes after `(`, including "missing closing parenthesis", are stated by `Grammar.ParenthesisedMulticand`, and `Samples.ParseUnclosedParenthesis` shows that error on `(1`.
- StreamParser.Parser.ParseExpr and the other parser methods: after a failure, only `old(pos) <= pos` is stated about the stream position. The source throws, and nothing reads the stream afterwards.
- The diagnostic that `consume` writes to `std::cout` before it throws is not modelled.
- Printer.PrettyAtKeepsCurrentLine: requires that the names printed hold no line break (`NamesOnOneLine`). The parser only builds names of letters, but a tree built by hand could hold a name with a newline, and then `pos` would not be a line start.
- The unit tests at Expr.cpp:816-824 feed `parse_str` with `_true`, `_if`, `==` and `_fun`, which Parse.cpp does not parse. The step samples `Samples.StepLeaves`, `StepSum`, `StepLet`, `StepIfTrue`, `StepIf`, `StepIfProduct`, `StepLetCall` and `StepCall` build the trees of those nine tests directly.
- Parse.cpp builds `Num`, `Var`, `Add`, `Mult` and `Let` nodes. These are the older names of `NumExpr`, `VarExpr`, `AddExpr`, `MultExpr` and `LetExpr`, and the model uses the latter.
- The parsing of `==`, `_true`/`_false`, `_if`, `_fun` and calls is not part of this model, because no such parse functions are present in Parse.cpp.
