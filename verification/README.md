# A LISP interpreter, modelled in Dafny

This project models the core of a small LISP interpreter written in Java, and proves properties of the model. The interpreter reads a buffer of text and builds an S-expression tree from it. It then evaluates the tree: integers, `T` and `NIL` stand for themselves, and symbols are looked up in a binding list with dynamic scope. `QUOTE`, `COND` and `DEFUN` are special forms. There are fourteen built-in functions, and user functions are kept in a global function table.

The model follows the program's classes:

| file | module | models |
|---|---|---|
| `sexpr.dfy` | `SExpressions` | `SExpression`: the tree, the built-in arithmetic with 32-bit wrap-around and truncating division, `eq`, `displayTree` |
| `symbols.dfy` | `Symbols` | the symbol table behind `getFromTable` |
| `errors.dfy` | `Errors` | `customException`, as a datatype of diagnostics and evaluation failures, plus Java's null and index faults |
| `lexing.dfy` | `Lexing` | the `Tokenizer` constructor's padding, whitespace collapsing and splitting |
| `tokenizer.dfy` | `Tokenizers` | the rest of `Tokenizer`: token classes, length limits, the priority order of `getError` |
| `parser.dfy` | `Parsing` | `Parser`: `parse`, `parseCar`, `parseCdr` |
| `roundtrip.dfy` | `RoundTrip` | the parser read back against `displayTree` and against list notation |
| `parser_props.dfy` | `ParserProperties` | the parser's edge cases and error paths |
| `bindings.dfy` | `Bindings` | `AList`: `getVal`, `getArgumentsAsList`, `addPairs`, `destroyPairs` |
| `defun.dfy` | `Defuns` | `Defun` and `getParamsAsList` |
| `dlist.dfy` | `FunctionTable` | `DList` |
| `builtins.dfy` | `Builtins` | `checkIfValidArgs`, `countArgs`, `checkIfValidDefun`, and the built-in bodies of `apply` |
| `evaluator.dfy` | `Evaluation` | `eval`, `evcon`, `evlis`, `apply` |
| `evaluation_props.dfy` | `EvaluationProperties` | what the special forms, built-ins and calls compute |
| `fuel.dfy` | `FuelProperties` | that the fuel bound only cuts runs short |

How the model is written:

- Every operation is a pure function. The source's mutable state is passed in and handed back explicitly. That state is the tokenizer cursor, the interned symbols, the binding list and the static function table.
- A Java exception becomes an `Err` result. The interpreter's own errors carry a diagnostic constructor instead of message text.
- A null dereference or an index out of range becomes `Crash(NullPointer)` or `Crash(IndexOutOfBounds)`. The only place the source catches one is around `evlis` inside `eval`. There, a null dereference becomes "Could not evaluate" the whole call.

## Behaviour of the code

In these places the code behaves differently from what a reader of LISP would expect. The model follows the code.

- **DEFUN form.** The code accepts `(DEFUN (NAME PARAMS) BODY)`, where PARAMS is a list, as in `(DEFUN (F (X)) X)`. The usual LISP form `(DEFUN F (X) X)` dereferences the null car of the atom `F`. A bare parameter symbol, as in `(DEFUN (F X) X)`, passes validation and then fails the same way inside `getParamsAsList`.
- **DEFUN validation.** The "parameters are an atom" and "body is an atom" checks can never fire. Earlier checks have already made those nodes pairs, so an atomic body is accepted.
- **Integer length limit.** The limit of 6 characters counts the sign, so `-123456` is rejected.
- **Dots in lists.** A dot is accepted only right after a list's first element. `(A B . C)` is rejected, because `parseCdr` passes `seenLeftBrace = false` onward.
- **Trailing open parenthesis.** A `(` as the last token makes `parseCar` read past the end of the token array.
- **Arguments to a user function.** NIL arguments are dropped: `getArgumentsAsList` skips them, so `(F NIL)` calls `F` with no arguments. A function with no parameters cannot be defined, since a NIL parameter list fails validation.
- **The clause check.** The arity check of the COND clause check, named `EVCON`, also applies to a user function of that name.
- **The BINARY label.** `checkIfValidArgs` files the seven arithmetic built-ins under the label `BINARY` and then switches on the label. A function called `BINARY` therefore gets their checks: `(BINARY)` is an argument-count error and `(BINARY (QUOTE A) (QUOTE B))` a non-integer error, even when a user function `BINARY` is defined.
- **Emptied stacks.** `getVal` on a name whose stack has been emptied again reads index 0 of an empty list. It does not report the name as unbound.

## Model

| member | source | states |
|---|---|---|
| Symbols.GetFromTable | SExpression.java:46-55 | the node for a name is the symbol of that name, and the name is recorded in the table |
| Symbols.InterningIsIdentity | SExpression.java:46-55 | asking twice for one name gives the same node and leaves the table as the first request left it; two requests give the same node exactly when the names are equal |
| SExpressions.Car | SExpression.java:111-113 | `car` is defined exactly on non-atoms; an atom's car is null |
| SExpressions.Cdr | SExpression.java:115-117 | `cdr` is defined exactly on non-atoms; an atom's cdr is null |
| SExpressions.Cons | SExpression.java:119-121 | the new pair is not an atom, and its car and cdr are the two arguments |
| SExpressions.Plus | SExpression.java:58-61 | the result is an integer congruent to the exact sum modulo 2^32, and equal to it when the sum fits in 32 bits |
| SExpressions.Minus | SExpression.java:63-66 | the same for the difference |
| SExpressions.Times | SExpression.java:68-71 | the same for the product |
| SExpressions.TruncDivRem | SExpression.java:73-81 | Java's `/` truncates: the quotient's magnitude is the magnitudes' floor quotient, and it is negative only when the signs differ; the remainder is smaller than the divisor in magnitude and has the dividend's sign |
| SExpressions.TruncSigns | SExpression.java:73-81 | in each of the four sign cases, Java's quotient and remainder are the magnitudes' quotient and remainder with the sign the case gives |
| SExpressions.Quotient | SExpression.java:73-76 | the result is the truncated quotient, wrapped to 32 bits |
| SExpressions.Remainder | SExpression.java:78-81 | the result is the truncated remainder, wrapped to 32 bits |
| SExpressions.Less | SExpression.java:83-88 | T exactly when the first value is smaller, NIL otherwise |
| SExpressions.Greater | SExpression.java:90-95 | T exactly when the first value is larger, NIL otherwise |
| SExpressions.Eq | SExpression.java:97-109 | T exactly for two equal integers or two symbols of one name; pairs and mixed kinds give NIL |
| SExpressions.GetName | SExpression.java:144-147 | an atom has a printable name, a symbol's being its own name; a pair has none |
| SExpressions.IntToString | SExpression.java:145 | `Integer.toString`: a leading minus exactly for negative values, decimal digits otherwise |
| SExpressions.Display | SExpression.java:150-166 | an atom is shown as its `getName` text; a pair as a parenthesised form |
| Lexing.Tokenize | Tokenizer.java:22-36 | the constructor always yields at least one token |
| Lexing.TokenizeSpec | Tokenizer.java:25-36 | on input with a non-blank character, every token is non-empty and free of whitespace, every `(`, `)` and `.` is a token of its own, and the tokens laid end to end are the input without its whitespace; blank input gives the single empty token |
| Lexing.PadRemoveSpaces | Tokenizer.java:26-28 | putting spaces around the delimiters only inserts whitespace |
| Lexing.ConcatWords | Tokenizer.java:31-36 | splitting on whitespace loses only the whitespace |
| Lexing.WordsOfIsolated | Tokenizer.java:26-36 | once every delimiter has whitespace on both sides, every token that holds a delimiter is that delimiter alone |
| Tokenizers.New | Tokenizer.java:22-48 | the cursor starts at the first of at least one token, no limit flag set, no brace open |
| Tokenizers.ParseInt | Tokenizer.java:85 | a token of at most 6 characters has a value strictly between -1000000 and 1000000, so it fits a Java `int` |
| Tokenizers.CheckIfInvalidSpec | Tokenizer.java:114-124 | a character is found exactly when the token holds an invalid character, and it is the first one |
| Tokenizers.CheckIfLowerCaseSpec | Tokenizer.java:127-137 | a character is found exactly when the token holds a lower-case letter, and it is the first one |
| Tokenizers.GetErrorPriority | Tokenizer.java:140-184 | each diagnostic is given exactly when its level is the first that applies: end of input, split by open braces; then dot, left brace, right brace; then the symbol flag, the integer flag, an invalid character, a lower-case letter, a bare `+` or `-`, and last the token itself as unexpected. Each carries the token or the first offending character, and a reported length flag is cleared |
| Tokenizers.Fail | Tokenizer.java:140-184 | a Parse error carrying the current diagnostic; tokens and cursor are kept |
| Tokenizers.GetIdentifier | Tokenizer.java:58-67 | a name longer than 10 characters is a length error and leaves the cursor in place; otherwise the interned symbol, one token on |
| Tokenizers.GetInteger | Tokenizer.java:77-86 | a token longer than 6 characters, sign included, is a length error (the symbol-length error when that flag is already set, which is then cleared) and leaves the cursor in place; otherwise the integer the token denotes, one token on |
| Parsing.ParseCar | Parser.java:36-94 | tokens are kept, the symbol table only grows, and a successful step consumes at least one token |
| Parsing.ParseCdr | Parser.java:96-142 | tokens are kept, the symbol table only grows, and a successful step consumes at least one token |
| Parsing.Parse | Parser.java:13-34 | an empty buffer is the empty-expression error; a success consumes every token of the input, and every symbol of the tree is in the table |
| RoundTrip.TokenizeDisplay | SExpression.java:150-166 | the rendering of a readable tree is non-empty and tokenizes to the tree's tokens |
| RoundTrip.ParseDisplay | Parser.java:13-142 | every tree whose atoms the tokenizer accepts parses back from its dotted-pair rendering |
| RoundTrip.IntText | Tokenizer.java:77-86 | the text `Integer.toString` gives an integer is a single token of the integer class that `parseInt` reads back as that integer |
| RoundTrip.ParseListNotation | Parser.java:96-136 | `(x1 ... xn)` parses to the NIL-terminated list of the elements, consuming exactly its tokens |
| ParserProperties.EmptyListIsNil | Parser.java:39-47 | `( )` in car position is NIL and consumes two tokens |
| ParserProperties.OpenAtEnd | Parser.java:39-44 | `(` as the last token reads past the end of the tokens |
| ParserProperties.StrayRightBrace | Parser.java:63-73 | `)` in car position with no list open is the extra-right-brace error, cursor in place |
| ParserProperties.RightBraceInList | Parser.java:63-69 | `)` in car position inside a list closes it as NIL |
| ParserProperties.DotNeedsBraceFlag | Parser.java:106-129 | a dot in cdr position without the brace flag is the unexpected-dot error |
| ParserProperties.DotInCarPosition | Parser.java:85-88 | a dot in car position is always the unexpected-dot error |
| ParserProperties.UnclosedSingle | Parser.java:50-60 | `(x` with nothing after it reads as `x` itself |
| ParserProperties.NextStepFails | Parser.java:131-136 | in cdr position, a failure of the rest after the next element is the result |
| ParserProperties.OpenStepFails | Parser.java:50-57 | after `(` and a first element, a failure of the rest is the result |
| ParserProperties.DotAfterSecondElement | Parser.java:131-135 | `(a b . c)` is rejected at the dot |
| ParserProperties.LeftoverTokensRejected | Parser.java:25-30 | tokens left after one complete expression are a Parse error |
| Bindings.GetVal | src/AList.java:21-31 | a value exactly when the name's stack is non-empty, and then its front; a name never bound is the unbound-atom error; an emptied stack is an index fault |
| Bindings.GetArgumentsAsList | src/AList.java:34-45 | the only failure is a null dereference |
| Bindings.ArgumentsOfList | src/AList.java:34-45 | succeeds exactly on proper lists, and then gives the elements without the NILs |
| Bindings.WithoutNilSpec | src/AList.java:37-42 | the kept elements are exactly the non-NIL ones; a list without NIL is kept whole |
| Bindings.AddPairs | src/AList.java:48-68 | a count mismatch, and only that, is the arity error naming the function and both counts; otherwise each name's stack gets the arguments at its positions, last position first, on top of what it held, and the bound names are the old ones plus the parameters |
| Bindings.PushStack | src/AList.java:58-67 | after binding, a name's stack is the arguments of its positions, last first, over its old stack; a name is bound afterwards exactly when it was before or is a parameter |
| Bindings.PushedCount | src/AList.java:58-67 | each name receives one value per position that holds it |
| Bindings.GetValAfterPush | src/AList.java:58-67 | a parameter reads as the argument of its last position |
| Bindings.GetValOtherName | src/AList.java:58-67 | a name that is not a parameter reads as before |
| Bindings.DestroyPairs | src/AList.java:71-81 | a successful unbinding keeps the set of bound names |
| Bindings.DestroySpec | src/AList.java:71-81 | with deep enough stacks, unbinding succeeds and drops from each stack as many values as the name occurs among the parameters |
| Bindings.PopAfterPush | src/AList.java:48-81 | unbinding after binding and a body that restores the list gives every stack back as before the call, duplicate parameters included |
| Defuns.ParamName | Defun.java:35 | a parameter's stored name is the symbol's name, and is missing for a pair |
| Defuns.GetParamsAsList | Defun.java:24-40 | on success, one name per element of the chain |
| Defuns.ParamsSpec | Defun.java:24-40 | an integer anywhere among the elements is the must-be-symbolic error; without one, a proper list gives each element's name in order, NIL included, and an improper chain is a null dereference |
| Defuns.MakeDefun | Defun.java:17-21 | the name and body are stored unchanged, with the converted parameters; a conversion error escapes |
| FunctionTable.GetFunction | DList.java:20-26 | a definition exactly for a name in the table, and it is that name's entry |
| FunctionTable.AddFunction | DList.java:15-17 | the name reads as the new definition afterwards; every other name reads as before; the names grow by that one |
| FunctionTable.AddOverwrites | DList.java:15-17 | a second definition under a name replaces the first |
| FunctionTable.AddAllOthers | DList.java:15-26 | over a run of definitions, a name never defined reads as before |
| FunctionTable.AddAllLast | DList.java:15-26 | over a run of definitions, a name reads as its last definition |
| FunctionTable.NeverAdded | DList.java:20-26 | a name never defined reads as missing |
| Builtins.BuiltinNaming | src/Evaluator.java:163-215 | the built-in names and the built-ins correspond one to one |
| Builtins.CountArgs | src/Evaluator.java:347-355 | on a chain ending in NIL, the number of cdr steps; any other chain is a null dereference |
| Builtins.CheckArgs | src/Evaluator.java:271-345 | a passed check means a proper list with the arity the name demands |
| Builtins.CheckArgsBinaryLabel | src/Evaluator.java:333-340 | a function called BINARY, which names no built-in, passes the check exactly on two integers |
| Builtins.CheckArgsBuiltin | src/Evaluator.java:271-345 | a built-in's check passes exactly on a proper list of the right length, with a non-atom for CAR and CDR, two integers for the binary operators, and a nonzero divisor for QUOTIENT and REMAINDER |
| Builtins.ApplyBuiltin | src/Evaluator.java:163-215 | ATOM, NULL and INT answer T exactly when the argument is an atom, is NIL, or is an integer; the predicates answer only T or NIL; CONS pairs its arguments; CAR and CDR take the argument's children |
| Builtins.CheckDefun | src/Evaluator.java:237-269 | the validation passes exactly on `((NAME PARAMS) BODY)` with a symbol name, non-NIL PARAMS and BODY, and nothing after either |
| Evaluation.Quote | src/Evaluator.java:69-76 | succeeds exactly when the check passes, and then gives the argument unevaluated |
| Evaluation.Define | src/Evaluator.java:83-99 | succeeds exactly on a valid form with symbolic parameters, then answers the name and enters the definition; the bindings are never touched and a failure leaves the table alone |
| Evaluation.Eval | src/Evaluator.java:50-117 | a success leaves every binding as it found it; the function table only grows |
| Evaluation.Evcon | src/Evaluator.java:120-141 | the same two invariants |
| Evaluation.Evlis | src/Evaluator.java:143-151 | the same two invariants |
| Evaluation.EvalCall | src/Evaluator.java:103-112 | the same two invariants |
| Evaluation.Apply | src/Evaluator.java:153-233 | the same two invariants |
| Evaluation.ApplyDefined | src/Evaluator.java:217-232 | the same two invariants, the restoring unbinding included |
| Evaluation.EvalTopLevel | Main.java:23-32 | the function table only grows from one top-level expression to the next |
| EvaluationProperties.AtomEvaluation | src/Evaluator.java:55-61 | integers, T and NIL evaluate to themselves; other symbols to their binding; the state is untouched |
| EvaluationProperties.TopLevelUnbound | src/AList.java:28-30 | at top level every symbol other than T and NIL is unbound |
| EvaluationProperties.NotAnExpression | src/Evaluator.java:114-116 | a list headed by a non-symbol is not an expression |
| EvaluationProperties.QuoteReturnsArgument | src/Evaluator.java:69-76 | `(QUOTE x)` is `x`, unevaluated |
| EvaluationProperties.QuoteArity | src/Evaluator.java:284-287 | QUOTE succeeds exactly with one argument; another count is the count error, and an improper list is a null dereference |
| EvaluationProperties.CondNeedsClauses | src/Evaluator.java:79-80 | COND without clauses is an error |
| EvaluationProperties.EvconFirstTrue | src/Evaluator.java:131-137 | a clause with a true test gives its expression's value in the state the test left, whatever the later clauses are |
| EvaluationProperties.EvconFalseMovesOn | src/Evaluator.java:135-140 | a clause whose test is NIL passes on to the rest |
| EvaluationProperties.EvconExhausted | src/Evaluator.java:123-125 | running out of clauses is an error |
| EvaluationProperties.EvconClauseShape | src/Evaluator.java:127-129 | a clause that is not a two-element list fails before anything in it is evaluated |
| EvaluationProperties.EvalEach | src/Evaluator.java:143-151 | the reference evaluation of a sequence: one value per element, the first being the first element's |
| EvaluationProperties.EvlisEvaluatesEach | src/Evaluator.java:143-151 | on a proper list, `evlis` succeeds exactly when every element evaluates, in order, and lists their values; otherwise it fails with the first error |
| EvaluationProperties.EvlisNil | src/Evaluator.java:145-146 | `evlis` of NIL is NIL |
| EvaluationProperties.EvlisImproper | src/Evaluator.java:143-151 | `evlis` never succeeds on an improper list |
| EvaluationProperties.CountArgsLength | src/Evaluator.java:347-355 | the count succeeds exactly on proper lists and is their length |
| EvaluationProperties.CallEvaluatesArguments | src/Evaluator.java:103-112 | a list headed by a non-form symbol evaluates its arguments and applies the function to their values; a null dereference there becomes "Could not evaluate" the whole call, and other errors pass unchanged |
| EvaluationProperties.DottedCallNotEvaluated | src/Evaluator.java:103-110 | `(F . x)` with a non-NIL atom x could not be evaluated, and the state is untouched |
| EvaluationProperties.InnermostCallReported | src/Evaluator.java:103-110 | in `(G (F . 5))` the failure names the inner call `(F . 5)`, which G passes on |
| EvaluationProperties.ApplyChecksFirst | src/Evaluator.java:157-160 | a failed argument check is the result, and nothing else happens |
| EvaluationProperties.BuiltinIgnoresTable | src/Evaluator.java:163-215 | a built-in name runs the built-in whatever the function table holds |
| EvaluationProperties.BuiltinRejects | src/Evaluator.java:271-345 | a built-in given arguments it does not fit fails with the state untouched |
| EvaluationProperties.PredicateBuiltins | src/Evaluator.java:193-215 | ATOM, NULL and INT answer T or NIL as their argument is an atom, NIL, an integer |
| EvaluationProperties.BinaryLabelChecked | src/Evaluator.java:333-340 | a call of BINARY on anything but two integers is an error before any definition is looked up, with the state untouched |
| EvaluationProperties.BinaryWithoutArguments | src/Evaluator.java:333-335 | `(BINARY)` is the argument-count error, whatever the function table holds |
| EvaluationProperties.UndefinedFunctionCall | src/Evaluator.java:217-223 | a name neither built in nor defined is the undefined-function error |
| EvaluationProperties.UserCall | src/Evaluator.java:225-231 | a user call evaluates the body with the parameters bound over the caller's bindings, answers its value, and restores every binding |
| EvaluationProperties.UserCallArity | src/AList.java:55-56 | a call with the wrong number of non-NIL arguments is the arity error and binds nothing |
| EvaluationProperties.DefunRegisters | src/Evaluator.java:90-98 | a valid DEFUN answers the name and makes it read as the new definition, other names unchanged |
| EvaluationProperties.DefunRejected | src/Evaluator.java:86-88 | a DEFUN failing validation reports the first failing check and changes nothing |
| EvaluationProperties.DefunNameCheckedFirst | src/Evaluator.java:241-246 | a non-symbol name is reported whatever follows |
| EvaluationProperties.DefunParamsBeforeBody | src/Evaluator.java:249-250 | a missing parameter list is reported whatever the body |
| EvaluationProperties.DefunBareParameter | Defun.java:29-33 | a bare parameter symbol passes validation and then dereferences null |
| EvaluationProperties.NameOutsideSublistCrashes | src/Evaluator.java:243-245 | `(DEFUN F (X) X)` dereferences the null car of `F` |
| EvaluationProperties.DefineThenCall | src/Evaluator.java:83-99 | `(DEFUN (F (X)) X)` and then `(F 5)` give `F` and then 5 |
| EvaluationProperties.CallIdentity | src/Evaluator.java:217-231 | with `F` the identity on `X`, `(F 5)` is 5 |
| FuelProperties.EvalFuel | src/Evaluator.java:50-117 | a run that does not run out of fuel is unchanged by one more unit |
| FuelProperties.EvconFuel | src/Evaluator.java:120-141 | the same for `evcon` |
| FuelProperties.EvlisFuel | src/Evaluator.java:143-151 | the same for `evlis` |
| FuelProperties.EvalCallFuel | src/Evaluator.java:103-112 | the same for a call |
| FuelProperties.ApplyFuel | src/Evaluator.java:153-233 | the same for `apply` |
| FuelProperties.ApplyDefinedFuel | src/Evaluator.java:217-232 | the same for a user call |
| FuelProperties.EvalMoreFuel | src/Evaluator.java:50-117 | any amount of extra fuel leaves a completed run unchanged |

## Left out

- The console loop, which gathers lines up to `$` or `$$` and exits on `$$` (Main.java:13-58). So is all printing (`printSExpression`, `printErrorMessage`). `EvalTopLevel` models only the fresh binding list per expression and the function table that persists.
- Message text. Diagnostics and failures are constructors that carry the data the messages quote. So the binary built-ins' count message, which wrongly says "exactly one argument", is not modelled.
- `String.trim` also strips control characters below U+0020 that are not `\s`. The model treats only `\s` characters as whitespace.
- Java's regular-expression engine. The token classes are restated as character predicates.
- Stack overflow. The source recurses without bound, and a user function that never returns exhausts the Java stack. In the model each user-function call spends one unit of fuel, and running out is the `OutOfFuel` error, which the source does not have. `FuelProperties` shows that the bound only cuts runs short.
- Object identity. `eq` compares symbol names with `==`, which is name equality because every symbol is interned. The evaluator's `getFromTable` calls (T, NIL, a defined name) are not threaded through the symbol table, since they return the symbol of that name in any case.
- Evaluation.Eval: its contract covers only what a step leaves behind. The value computed by each form is stated in the `EvaluationProperties` lemmas instead; for calls, in `EvaluationProperties.CallEvaluatesArguments`.
- Evaluation.EvalCall: its contract covers only what a step leaves behind. What a call computes, including the "Could not evaluate" conversion, is stated in `EvaluationProperties.CallEvaluatesArguments`.
- Evaluation.Evcon: its contract covers only what a step leaves behind. The value is stated in `EvaluationProperties.EvconFirstTrue` and the neighbouring lemmas.
- Evaluation.Evlis: its contract covers only what a step leaves behind. The value is stated in `EvaluationProperties.EvlisEvaluatesEach`.
- Evaluation.Apply: its contract covers only what a step leaves behind. The value is stated in `EvaluationProperties.BuiltinIgnoresTable` and `EvaluationProperties.UserCall`.
- Bindings left by a failed call are not cleaned up, as in the source (src/Evaluator.java:226-231). No restoration is claimed on error paths.
