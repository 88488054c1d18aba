# mageparser in Dafny

A model of the two parts of the mageparser expression language that hold
its logic, with proofs about them:

- **The front end of `src/dsl.cjs`.**
  - A moo lexer tries its token rules in order, and the first rule that matches wins.
  - A wrapper around `lexer.next` skips whitespace and `#` comments.
  - The nearley grammar has six rules: `main`, `binding`, `expression`, `function_call`, `function_literal` and `identifier`.
  - The `expression` rule also names an `integer` rule (`src/dsl.cjs:36`) that the grammar never defines. The model reads it as the `Integer` token of the added `1` rule (see Findings).
- **The strict tree-walking evaluator of `src/interpreter.js`.**
  - Four built-ins, `add`, `mul`, `sign` and `neg`, live in one root environment object.
  - Top-level `bind ... to ... in` definitions are written into that same object.
  - A closure checks its arity, copies the environment it captured, and writes its parameters into the copy.

The modules follow the program:

| file | module | what it holds |
|---|---|---|
| `lexer.dfy` | `Lexer` | The token rules. `FirstMatch` is moo's first-rule-wins choice. `RawNext`, `NextSignificant` and `Tokenize` are the meaning of lexing. The class `Lexer` keeps its position in a field; its methods `Raw` and `Next` are proved to compute `RawNext` and `NextSignificant`. |
| `lexer_properties.dfy` | `LexerProperties` | Reserved words and punctuation beat identifiers. The shape of an identifier. No rule matches a digit. The parser is handed exactly moo's tokens without whitespace and comments. |
| `syntax.dfy` | `Syntax` | The nodes the grammar's postprocessors build (`Main`, `Binding`, `Identifier`, `Integer`, `FunctionLiteral`, `Call`). It includes the one-element array that nearley yields for an `expression` alternative without a postprocessor. |
| `grammar.dfy` | `Grammar` | A recursive-descent parser of the grammar, plus `Unparse`, the token sequence each tree is derived from. |
| `grammar_properties.dfy` | `GrammarProperties` | A token sequence is accepted as a program exactly when it spells that program. |
| `grammar_errors.dfy` | `GrammarErrors` | What the two failing answers mean. The parser decides using only the tokens it has read, and a stuck parse can always be completed. So a syntax error marks the first token that no program can continue with, and an empty result marks tokens that stop partway through a program. |
| `interpreter.dfy` | `Interpreter` | `Eval` is the meaning of evaluation. The class `Env` is the root environment object. The methods `Evaluate`, `Invoke` and `Interpret` follow the code and are proved to compute `Eval`. |
| `interpreter_properties.dfy` | `InterpreterProperties` | Parameter binding, left-to-right strict argument evaluation, built-ins that cannot be rebound, binding order, and fuel monotonicity. |
| `prelude.dfy` | `Prelude` | The header of definitions that the test suite prepends to its programs, and what each of its functions computes. |
| `programs.dfy` | `Programs` | Whole programs: header functions, strict `IF`, the recursive `POWER` and `DIV`, and late binding. |
| `pipeline.dfy` | `Pipeline` | `interpret(parse(source))`: how lexing, parsing and evaluation failures are ordered. |

Points where the model follows the code rather than a looser description of the language:

- **Evaluation is strict.** The language was designed around call-by-need with memoised thunks and a letrec frame per binding. The evaluator in `src/interpreter.js` has neither: every argument is evaluated before a call, including both branches of the header's `IF`. The model is strict like the code.
- **Top-level closures bind late.** A function literal evaluated at the top level closes over the one root object by reference. When it is called, it copies the root as it is at that moment. That is why a definition can call itself, and why a later re-binding of a name changes what earlier closures call (`Programs.LateBinding`, `Programs.RebindingIsSeen`). A closure created inside a function body holds that call's local copy; nothing writes to the copy after its parameters are filled, so the model keeps it by value (`Scope.Frame`).
- **The parse result list.** `parse` returns nearley's whole list of results and `interpret` evaluates only its first element.
  - The grammar is unambiguous, so the list holds at most one program (`GrammarProperties.ParseTokensExactly`).
  - If the input ends before a program is complete, the list is empty and `interpret` returns `undefined`. The model returns `NoValue` for that case.
  - A syntax error is raised at the first token that no program can continue with (`GrammarErrors.RejectedMeans`). The list is empty exactly when the tokens stop partway through some program (`GrammarErrors.IncompleteMeans`).
- **Numbers.** They are unbounded integers. JavaScript doubles are not modelled.
- **Fuel.** Evaluation takes a `fuel` argument that bounds the depth of nested closure calls. When a program recurses forever, the JavaScript engine overflows its stack; the model stops with `OutOfFuel` instead. The lemmas in `InterpreterProperties` show that fuel is only a bound:
  - A result other than `OutOfFuel` stays the same with more fuel.
  - A value obtained with some fuel is, with less fuel, either the same value or `OutOfFuel`.
- **The integer literal.** As written, the lexer of `src/dsl.cjs` has no rule for `1`. The model adds one, taken from the character-level grammar in `src/dsl.js`, and records the gap under Findings.

## Model

| member | source | states |
|---|---|---|
| Lexer.Span | src/dsl.cjs:9-10 | The run length `n` is maximal: every character in the run satisfies the class, the character after it does not (or the input ends), and the run stays inside the input. |
| Lexer.FirstMatch | src/dsl.cjs:8-20 | There is no token exactly when no rule matches at `i`. A token found starts at `i`, is non-empty and is the text of the input at that position. |
| Lexer.MatchLength | src/dsl.cjs:8-20 | The match of one moo rule at `i` never runs past the end of the input. Zero means the rule does not match there. Its exact shape per rule is stated by `Lexer.Span`, `LexerProperties.IdentifierShape` and `LexerProperties.LiteralTokenText`. |
| Lexer.RawNext | src/dsl.cjs:8-20 | moo's `next`: it gives nothing exactly at the end of the input. An error means no rule matches at the current position. A token is the first rule's match, and the position moves past its text. |
| Lexer.NextSignificant | src/dsl.cjs:22-26 | The `next` wrapper never returns a whitespace or comment token. The token it does return is the first rule's match at its own offset, at or after the start, and the position ends just past it. Everything it skipped between the start and that token is a run of whitespace and comment tokens (`LayoutRun`). At the end of the input it stops exactly at the end, and on a lex error exactly at the failing offset, in both cases after layout only. |
| Lexer.Tokenize | src/dsl.cjs:22-26 | The tokens handed to the parser contain no layout. Each token is the first rule's match at its offset, and the tokens are in order and do not overlap. A reported failure is a position where no rule matches. `LexerProperties.TokenizeDropsLayout` pins the token list down completely. |
| Lexer.MooSteps | src/dsl.cjs:22-24 | moo's own tokens from `i`, layout included. Each token is the first matching rule's match at an offset at or after `i` inside the text. A failure is a position at or after `i` where no rule matches. |
| Lexer.Significant | src/dsl.cjs:24 | The result keeps exactly the tokens that are neither whitespace nor comments, and is never longer than its input. Order is fixed by `LexerProperties.TokenizeDropsLayout`. |
| Lexer.Lexer.constructor | src/dsl.cjs:8-20 | A lexer reset on `input` starts at offset 0 with the given rules. |
| Lexer.Lexer.Raw | src/dsl.cjs:8-20 | One call of moo's `next` yields the step of `RawNext` and leaves the position where `RawNext` leaves it. |
| Lexer.Lexer.Next | src/dsl.cjs:22-26 | The wrapper's loop discards raw whitespace and comment tokens. It ends with the step and position of `NextSignificant`. |
| LexerProperties.FirstMatchPicks | src/dsl.cjs:8-20 | When rule `k` matches and no earlier rule does, the token is rule `k`'s match, whatever later rules would match. |
| LexerProperties.FirstMatchIsFirst | src/dsl.cjs:8-20 | Any token comes from some rule that matches, and no earlier rule matches. |
| LexerProperties.ReservedWordsWin | src/dsl.cjs:11-19 | Where `bind`, `to`, `in`, `(`, `)`, `[`, `]` or `->` occurs, the token is that keyword or punctuation and never an identifier, even when an identifier match would be longer (`binder` starts with `bind`). |
| LexerProperties.LeadingLiteralWins | src/dsl.cjs:11-19 | A fixed-string rule whose first character no earlier rule can start with wins wherever its text occurs. |
| LexerProperties.IdentifierShape | src/dsl.cjs:19 | An identifier token starts with a letter, `_` or `?` and continues with letters, digits, `_`, `?` or `-`. The character after it cannot continue it. |
| LexerProperties.IdentifierWhereNoReservedWord | src/dsl.cjs:11-19 | At a letter, `_` or `?` that does not begin `bind`, `to` or `in`, the token is an identifier. |
| LexerProperties.KnownRulesSpelled | src/dsl.cjs:8-20 | Every rule is one of the four rule shapes, and every fixed-string rule's text is the lexeme of its token type. |
| LexerProperties.LiteralTokenText | src/dsl.cjs:11-18 | A keyword or punctuation token's text is exactly its fixed lexeme. |
| LexerProperties.SpelledTokenText | src/dsl.cjs:11-18 | For any rule list made of fixed words and patterns, a token whose kind has a fixed word carries exactly that word. |
| LexerProperties.FirstMatchAppend | src/dsl.cjs:8-20 | Rules placed after a list only decide the token where no rule of the list matches. |
| LexerProperties.DigitIsLexErrorAsWritten | src/dsl.cjs:8-20 | With the rules as written, no rule matches at a digit, so moo throws there. |
| LexerProperties.OneIsIntegerToken | src/dsl.js:243-246 | With the added rule, `1` is an `Integer` token wherever it occurs. |
| LexerProperties.SkipLayout | src/dsl.cjs:22-26 | One call of the wrapper consumes a prefix of moo's own token chain. The tokens it skips contribute nothing significant. At the end or at a lex error, moo's chain ends there too. |
| LexerProperties.TokenizeDropsLayout | src/dsl.cjs:22-26 | The tokens handed to the parser are exactly moo's own tokens, in order, with every whitespace and comment token dropped. Lexing fails exactly where moo throws. |
| LexerProperties.MooStepsTile | src/dsl.cjs:22-24 | moo leaves no character unread. Its tokens follow one another without gap or overlap, from `i` up to the end of the input or up to the position where it throws. |
| GrammarProperties.ParseTokensExactly | src/dsl.cjs:30-44 | A token stream is accepted as program `p` if and only if `p` is a tree the grammar builds and the stream spells `p` token for token. So there is at most one parse, and bindings, arguments and parameters keep their source order. |
| GrammarProperties.RoundTrip | src/dsl.cjs:30-44 | Parsing the tokens of any tree the grammar can build gives that tree back. |
| GrammarProperties.ParseUnparseProgram | src/dsl.cjs:30-32 | `main`: zero or more bindings, then one expression, parse back into the same bindings in the same order and the same expression. |
| GrammarProperties.ParsedProgramUnparses | src/dsl.cjs:30-32 | Any parsed program is a grammar tree, and the tokens consumed spell it exactly. |
| GrammarProperties.ParseUnparseBinding | src/dsl.cjs:33 | `bind id to expr in` parses to a binding with the identifier's name string and that expression. |
| GrammarProperties.ParsedBindingUnparses | src/dsl.cjs:33 | Any parsed binding was spelled `bind`, identifier, `to`, expression, `in`. |
| GrammarProperties.ParseUnparseCall | src/dsl.cjs:38-40 | `( id expr* )` parses to a call on that identifier with the arguments in source order, possibly none, wrapped in nearley's one-element array. |
| GrammarProperties.ParsedCallUnparses | src/dsl.cjs:38-40 | Any parsed call was spelled as `(`, identifier, arguments, `)`, and its callee is an identifier. |
| GrammarProperties.ParseUnparseArgs | src/dsl.cjs:39 | `expression*` up to `)` yields the argument list in order. |
| GrammarProperties.ParsedArgsUnparse | src/dsl.cjs:39 | Any parsed argument list spells its arguments in order, followed by `)`. |
| GrammarProperties.ParseUnparseFunLit | src/dsl.cjs:41-43 | `[ id* ] -> expr` parses to a function literal whose parameters are the identifiers' name strings in order, possibly none. |
| GrammarProperties.ParsedFunLitUnparses | src/dsl.cjs:41-43 | Any parsed function literal was spelled `[`, its parameters, `]`, `->`, its body. |
| GrammarProperties.ParseUnparseParams | src/dsl.cjs:42-43 | `identifier*` before `]` yields the names of the identifiers in order. |
| GrammarProperties.ParseUnparseExpr | src/dsl.cjs:34-37 | Each of the four `expression` alternatives parses back from its tokens. Only the identifier alternative is unwrapped by `id`. |
| GrammarProperties.ParsedExprUnparses | src/dsl.cjs:34-37 | Any parsed expression is a grammar tree, and the tokens consumed spell it. |
| GrammarProperties.FirstToken | src/dsl.cjs:34-37 | Every expression starts with an identifier, `1`, `(` or `[`, so at most one alternative applies at any token. |
| Grammar.Expect | src/dsl.cjs:40 | A terminal is taken exactly when the next token has that type. Otherwise the failure is end of input or an unexpected token at that index. |
| Grammar.ParseIdentifier | src/dsl.cjs:44 | An identifier node is built exactly from an identifier token, and its name is the token's text. |
| Grammar.ParseParams | src/dsl.cjs:41-42 | The parameter list is the longest run of identifier tokens, with the names in order. |
| Grammar.ParseExpr | src/dsl.cjs:34-37 | A parsed expression ends after `i` and within the stream. A syntax error inside it is blamed on a token at or after `i`. Its meaning is fixed by `GrammarProperties.ParseUnparseExpr` and `ParsedExprUnparses` (the round trip), and by `GrammarErrors.ExprLocal` and `ExprOpens` (where it gets stuck). |
| Grammar.ParseArgs | src/dsl.cjs:38-40 | The same bounds for the arguments of a call, up to and including `)`. Its meaning is fixed by `GrammarProperties.ParseUnparseArgs` and `ParsedArgsUnparse`, and by `GrammarErrors.ArgsLocal` and `ArgsOpens`. |
| Grammar.ParseBinding | src/dsl.cjs:33 | The same bounds for `bind id to e in`. Its meaning is fixed by `GrammarProperties.ParseUnparseBinding` and `ParsedBindingUnparses`, and by `GrammarErrors.BindingLocal` and `BindingOpens`. |
| Grammar.ParseProgram | src/dsl.cjs:30-32 | The same bounds for `binding* expression`. Its meaning is fixed by `GrammarProperties.ParseUnparseProgram` and `ParsedProgramUnparses`, and by `GrammarErrors.ProgramLocal` and `ProgramOpens`. |
| Grammar.ParseTokens | src/parser.js:5-7 | A stream is rejected only at one of its own tokens. `GrammarProperties.ParseTokensExactly` gives `Accepted` (iff), `GrammarErrors.RejectedMeans` gives `Rejected` (iff) and `GrammarErrors.IncompleteMeans` gives `Incomplete` (iff). |
| GrammarErrors.ParamsLocal | src/dsl.cjs:41-42 | A parameter list parses the same in any stream that agrees with this one up to and including the token that ends it. |
| GrammarErrors.ExprLocal | src/dsl.cjs:34-37 | An expression parse, and a syntax error inside one, depends only on the tokens it consumed or stumbled on: it is the same in any stream that agrees with this one up to there. |
| GrammarErrors.CallLocal | src/dsl.cjs:40 | The same holds for a call. |
| GrammarErrors.FunLitSplit | src/dsl.cjs:43 | After `[` and its parameters, a function literal is parsed by `FunLitTail` from the token that ended the parameters. |
| GrammarErrors.FunLitTailLocal | src/dsl.cjs:43 | The `]`, `->` and body of a function literal parse the same in any stream that agrees up to where they stop. |
| GrammarErrors.FunLitLocal | src/dsl.cjs:43 | The same holds for a whole function literal. |
| GrammarErrors.ArgsLocal | src/dsl.cjs:38-40 | The same holds for the arguments of a call up to `)`. |
| GrammarErrors.BindingLocal | src/dsl.cjs:33 | The same holds for a binding. |
| GrammarErrors.ProgramLocal | src/dsl.cjs:30-32 | The same holds for a whole program: the parser decides using only the tokens it has read. |
| GrammarErrors.ParamsRunOut | src/dsl.cjs:41-42 | A parameter list that runs into the end of the input consists of identifiers up to the end. |
| GrammarErrors.ExprOpens | src/dsl.cjs:34-37 | Wherever an expression parse gets stuck, at a token or at the end, the tokens read so far are a proper beginning of the tokens of some expression the grammar builds. |
| GrammarErrors.CallOpens | src/dsl.cjs:40 | The same holds for a call. |
| GrammarErrors.FunLitOpens | src/dsl.cjs:41-43 | The same holds for a function literal, whether it stops in its parameters, at `]`, at `->` or in its body. |
| GrammarErrors.FunLitTailOpens | src/dsl.cjs:43 | A function literal stuck at `]`, at `->` or in its body, after its parameters, opens some function literal. |
| GrammarErrors.CallOpensInArgs | src/dsl.cjs:40 | A call stuck in its arguments, after `(` and the callee, opens some call. |
| GrammarErrors.ArgsOpens | src/dsl.cjs:38-40 | The same holds for the arguments of a call, completed with `)`. |
| GrammarErrors.BindingOpens | src/dsl.cjs:33 | The same holds for a binding. |
| GrammarErrors.ProgramOpens | src/dsl.cjs:30-32 | The same holds for a whole program: a stuck parse can always be completed to a program. |
| GrammarErrors.ViableShorter | src/dsl.cjs:30-44 | A shorter beginning of a stream that begins some program begins that program too. |
| GrammarErrors.Reached | src/dsl.cjs:30-44 | Every token the parser got through, up to a complete program or up to where it got stuck, begins some program. |
| GrammarErrors.PrefixDecides | src/dsl.cjs:30-44 | Tokens that begin program `p` neither make the parser stumble within them nor let it complete a program within them, unless that program ends exactly where `p` does. |
| GrammarErrors.IncompleteMeans | src/dsl.cjs:30-44 | Nearley ends with an empty result list if and only if the tokens are a proper beginning of the tokens of some program. |
| GrammarErrors.RejectedMeans | src/dsl.cjs:30-44 | Nearley throws at token `k` if and only if `k` is a token of the stream, the tokens before it begin some program, and the tokens up to and including it begin none. |
| Interpreter.ApplyPrim | src/interpreter.js:125-148 | A built-in returns a number exactly when it has its operands (two for `add` and `mul`, one for `sign` and `neg`) and they are numbers. Otherwise the error names the built-in. |
| InterpreterProperties.BuiltinsBehave | src/interpreter.js:125-148 | `add` gives `a + b`, `mul` gives `a * b`, `neg` gives `-a`, and `sign` gives 1, 0 or -1 as `a` is positive, zero or negative. Extra arguments are ignored. |
| Interpreter.Env.constructor | src/interpreter.js:122 | The root environment starts empty. |
| Interpreter.Env.DefineBuiltin | src/interpreter.js:125-148 | Installing a built-in adds exactly that name, bound to that built-in, and changes nothing else. |
| Interpreter.Env.Store | src/interpreter.js:32 | A top-level binding writes exactly its name into the root object and changes nothing else. |
| Interpreter.Evaluate | src/interpreter.js:7-116 | Evaluating a node against the live root object computes `Eval`: an identifier's stored value or `UndefinedIdentifier`, the integer, a closure that leaves its body unevaluated, a call, or a singleton array's first element. |
| Interpreter.EvaluateArgs | src/interpreter.js:108 | The argument `map` computes `EvalArgs`: arguments are evaluated left to right, and the first error is raised. |
| Interpreter.Invoke | src/interpreter.js:66-88 | Calling a closure computes `Apply`: the arity is checked, the captured environment is copied, each parameter is written into the copy in turn, and then the body is evaluated. A built-in is applied to the numbers. |
| Interpreter.Interpret | src/interpreter.js:120-151 | `interpret` installs the four built-ins, runs the bindings in order through the root object, and evaluates the expression. The result is `RunProgram`. |
| Interpreter.Eval | src/interpreter.js:7-116 | No `ensures` of its own. It is characterised by `InterpreterProperties.CallIsStrict`, `CalleeCheckedFirst`, `ArityChecked`, `EvalFuel` and `OkOrOutOfFuel`, and `Interpreter.Evaluate` is proved equal to it. |
| Interpreter.EvalArgs | src/interpreter.js:108 | No `ensures` of its own. It is characterised by `InterpreterProperties.EvalArgsPointwise`, `EvalArgsFirstError` and `EvalArgsFuel`, and `Interpreter.EvaluateArgs` is proved equal to it. |
| Interpreter.Apply | src/interpreter.js:66-88 | No `ensures` of its own. It is characterised by `InterpreterProperties.ArityChecked`, the `BindParams` lemmas and `ApplyFuel` for closures, and by `InterpreterProperties.BuiltinsBehave` for built-ins. `Interpreter.Invoke` is proved equal to it. |
| Interpreter.BindParams | src/interpreter.js:73-85 | No `ensures` of its own. It is characterised by `InterpreterProperties.BindParamsFails`, `BindParamsFills`, `BindParamsKeys`, `BindParamsLastWins` and `BindParamsKeeps`. |
| Interpreter.Define | src/interpreter.js:24-32 | No `ensures` of its own. It is characterised, one binding at a time, by `InterpreterProperties.RunBindingsSnoc` and `BuiltinsStay`. |
| Interpreter.RunBindings | src/interpreter.js:22-34 | No `ensures` of its own. It is characterised by `InterpreterProperties.RunBindingsAppend`, `RunBindingsSnoc`, `RunBindingsKeys`, `BuiltinsStay` and `RunBindingsFuel`. |
| Interpreter.RunProgram | src/interpreter.js:20-37 | No `ensures` of its own. It is characterised by `InterpreterProperties.RunProgramFuel`, and `Interpreter.Interpret` is proved equal to it. |
| InterpreterProperties.BindParamsFails | src/interpreter.js:77-85 | The parameter loop succeeds if and only if no parameter is a built-in name. When it fails, the error names the first such parameter. |
| InterpreterProperties.BindParamsFills | src/interpreter.js:73-85 | The local environment holds the captured names plus the parameters. Each parameter maps to the argument at its position, the last occurrence winning for a duplicate. Every other name keeps its captured value. |
| InterpreterProperties.BindParamsKeys | src/interpreter.js:73-85 | The local environment's names are the captured names plus the parameter names. |
| InterpreterProperties.BindParamsLastWins | src/interpreter.js:77-85 | A parameter with no later duplicate is bound to the argument at its own position. |
| InterpreterProperties.BindParamsKeeps | src/interpreter.js:73-75 | A captured name that is not a parameter keeps its captured value in the copy. |
| InterpreterProperties.EvalArgsPointwise | src/interpreter.js:108 | Arguments evaluate successfully if and only if each one does. The values are then each argument's own value, in order. |
| InterpreterProperties.EvalArgsFirstError | src/interpreter.js:108 | A failed argument list reports the error of the first failing argument, and every argument before it succeeded. |
| InterpreterProperties.CallIsStrict | src/interpreter.js:100-110 | When any argument of a call to a function fails, the call fails, whatever the function would do with that argument. |
| InterpreterProperties.CalleeCheckedFirst | src/interpreter.js:100-106 | A call whose callee is undefined fails with `UndefinedIdentifier`, and one whose callee is a number fails with `NotAFunction`, whatever the arguments are and even if one of them would fail. |
| InterpreterProperties.ArityChecked | src/interpreter.js:67-71 | A closure called, after all arguments evaluated, with a number of arguments other than its number of parameters fails with `ArityMismatch(params, args)`. |
| InterpreterProperties.EvalFuel | src/interpreter.js:7-116 | An evaluation that does not run out of fuel gives the same result with any larger fuel. |
| InterpreterProperties.EvalArgsFuel | src/interpreter.js:108 | The same holds for argument lists. |
| InterpreterProperties.ApplyFuel | src/interpreter.js:66-88 | The same holds for calling a function value. |
| InterpreterProperties.RunBindingsFuel | src/interpreter.js:22-33 | The same holds for running the bindings. |
| InterpreterProperties.RunProgramFuel | src/interpreter.js:120-151 | The same holds for a whole program. |
| InterpreterProperties.OkOrOutOfFuel | src/interpreter.js:7-116 | A value obtained with some fuel is, with any other fuel, either that value or `OutOfFuel`. |
| InterpreterProperties.ArgsOutOfFuel | src/interpreter.js:108 | An argument list runs out of fuel when one argument does and no earlier one fails otherwise. |
| InterpreterProperties.RunBindingsAppend | src/interpreter.js:22-33 | Bindings run in source order: running `bs + cs` is running `bs`, then `cs` on the resulting root. |
| InterpreterProperties.RunBindingsSnoc | src/interpreter.js:22-33 | One more binding is evaluated in the root holding every earlier binding. A later binding of the same name overwrites the earlier one. |
| InterpreterProperties.BuiltinsStay | src/interpreter.js:26-30 | A program that binds `add`, `mul`, `sign` or `neg` fails. A run that succeeds keeps the four built-ins unchanged. |
| InterpreterProperties.RunBindingsKeys | src/interpreter.js:22-33 | After the bindings, the root holds exactly the earlier names plus every bound name. |
| Prelude.Enter2 | src/interpreter.js:66-88 | Calling a two-parameter top-level closure evaluates its body in a copy of the current root with the two parameters written in. |
| Prelude.Header | src/tests/interpreter.test.js:16-47 | A constant: the bindings of the test header as trees, in order. `Prelude.RunHeader` and `Prelude.HeaderDefines` state what running it gives. |
| Prelude.RunHeader | src/tests/interpreter.test.js:16-47 | The test header runs with no error and yields a fixed root environment. |
| Prelude.HeaderDefines | src/tests/interpreter.test.js:16-47 | After the header, `TWO` to `FIVE` are 2 to 5, `TRUE` is 1, `FALSE` is 0, every helper function is bound to its definition, and `POWER` is the second definition. |
| Prelude.HeaderKeepsNumbers | src/tests/interpreter.test.js:16-23 | After the header, `NEG_ONE` is -1, `ZERO` is 0, `TWO` to `FIVE` are 2 to 5, and `NEXT` and `PREV` are bound to their closures. |
| Prelude.NextAddsOne | src/tests/interpreter.test.js:18 | `NEXT` of any `a` is `a + 1`. |
| Prelude.PrevSubtractsOne | src/tests/interpreter.test.js:19 | `PREV` of any `a` is `a - 1`. |
| Prelude.SubtractComputes | src/tests/interpreter.test.js:26 | `SUBTRACT` of `a` and `b` is `a - b`. |
| Prelude.AbsComputes | src/tests/interpreter.test.js:27 | `ABS` is the absolute value. |
| Prelude.TruthyComputes | src/tests/interpreter.test.js:28 | `TRUTHY?` is 1 for a nonzero number and 0 for zero. |
| Prelude.ZeroPComputes | src/tests/interpreter.test.js:29 | `ZERO?` (and so `NOT` and `FALSY?`) is 1 exactly for zero, and 0 otherwise. |
| Prelude.IfSelects | src/tests/interpreter.test.js:34 | On numbers, `IF` gives its second argument when the condition is nonzero and its third otherwise. |
| Prelude.AndComputes | src/tests/interpreter.test.js:35 | `AND` is 1 exactly when both arguments are nonzero, and 0 otherwise. |
| Prelude.OrCounts | src/tests/interpreter.test.js:36 | `OR` counts its nonzero arguments, so it gives 2 when both are nonzero, as the test at line 248 expects. |
| Prelude.XorIsInclusive | src/tests/interpreter.test.js:37 | `XOR` is 1 when either argument is nonzero, including both, as the test at line 260 expects. It is an inclusive or. |
| Prelude.EqualsComputes | src/tests/interpreter.test.js:38 | `EQUALS?` is 1 exactly when the numbers are equal, and 0 otherwise. |
| Prelude.NotEqualsComputes | src/tests/interpreter.test.js:39 | `NOT_EQUALS?` is 1 exactly when they differ, and 0 otherwise. |
| Prelude.GreaterComputes | src/tests/interpreter.test.js:40 | `GREATER_THAN?` is 1 exactly when `a > b`, and 0 otherwise. |
| Prelude.GreaterEqComputes | src/tests/interpreter.test.js:41 | `GREATER_THAN_OR_EQUAL_TO?` is 1 exactly when `a >= b`, and 0 otherwise. |
| Prelude.LessComputes | src/tests/interpreter.test.js:42 | `LESS_THAN?` is 1 exactly when `a < b`, and 0 otherwise. |
| Prelude.LessEqComputes | src/tests/interpreter.test.js:43 | `LESS_THAN_OR_EQUAL_TO?` is 1 exactly when `a <= b`, and 0 otherwise. |
| Programs.NumeralValue | src/tests/interpreter.test.js:16-23 | Every integer can be written with the header's names and `1`, and that expression evaluates to that integer. |
| Programs.WithHeader | src/tests/interpreter.test.js:6-8 | A program made of the header and an expression evaluates the expression in the header's root environment. |
| Programs.Numeral | src/tests/interpreter.test.js:16-23 | No `ensures` of its own: the expression the tests write for an integer, built from `1`, `NEXT` and `PREV`. `Programs.NumeralValue` proves that it evaluates to that integer. |
| Programs.SubtractProgram | src/tests/interpreter.test.js:151-161 | The program `(SUBTRACT a b)` after the header gives `a - b` for all integers. |
| Programs.IfProgram | src/tests/interpreter.test.js:226-233 | The program `(IF c a b)` after the header gives `a` when `c` is nonzero and `b` otherwise. |
| Programs.IfIsStrict | src/tests/interpreter.test.js:34 | `IF` is an ordinary closure, so both branches are evaluated. A failing untaken branch makes the whole `IF` fail. |
| Programs.PowerIsNotANumber | src/tests/interpreter.test.js:46 | Under the second `POWER`, any call `(POWER a b)` fails in `mul`, because `mul` is given a function literal. The numbers the tests at lines 340-347 expect are never produced. |
| Programs.DivNeverReturns | src/tests/interpreter.test.js:47 | Because `IF` is strict, `DIV` recurses on every call, whatever the arguments. With any fuel it runs out, so the results the tests at lines 349-364 expect are never produced. |
| Programs.LateBinding | src/interpreter.js:73-75 | A top-level closure sees a binding made after the closure was created. |
| Programs.RebindingIsSeen | src/interpreter.js:32 | Re-binding a name changes what an earlier top-level closure finds under it. |
| Pipeline.Run | src/tests/interpreter.test.js:6-8 | `interpret(parse(source))`. A syntax error at a token takes precedence over a later lex error. A lex error is a position where no rule matches, and every token comes before it. A value or runtime error happens exactly when lexing succeeds and the tokens form a program. `undefined` (`NoValue`) is returned exactly when the tokens end before a program is complete. `Pipeline.SyntaxFailedMeans` and `Pipeline.NoValueMeans` say when the two failing answers happen. |
| Pipeline.SyntaxFailedMeans | src/parser.js:6 | Running a source reports a syntax error at significant token `k` if and only if the tokens before `k` begin some program and the tokens up to `k` begin none. |
| Pipeline.NoValueMeans | src/parser.js:7 | Running a source gives `undefined` if and only if the whole source lexes and its tokens are a proper beginning of the tokens of some program. |
| Pipeline.TokensBeforeFailure | src/dsl.cjs:22-26 | Every token the lexer hands over lies before the position where lexing fails. |
| Pipeline.Scan | src/parser.js:6 | Pulling significant tokens one by one until the end or a lex error collects exactly `Tokenize` of the input. |
| Pipeline.RunSource | src/parser.js:4-8 | The lexer object, the parser and `interpret` together compute `Run`. |
| Pipeline.NoIntegerTokensAsWritten | src/dsl.cjs:36 | With the rules as written, no token is ever an `Integer`, so the `integer` alternative of `expression` can never match. |
| Pipeline.OneFailsAsWritten | src/dsl.cjs:8-20 | With the rules as written, the program `1` fails to lex at offset 0. |
| Pipeline.OneEvaluates | src/dsl.js:243-246 | With the `1` rule added, the program `1` evaluates to 1. |
| Pipeline.SyntaxErrorComesFirst | src/dsl.cjs:40 | In `)1`, the unexpected `)` is reported before the lex error at `1`. |
| Pipeline.BinderIsBindThenEr | src/dsl.cjs:11-19 | `binder` lexes as `bind` followed by the identifier `er`, not as one identifier, so the program is incomplete. |

## Left out

- `src/index.js`: a command-line shell around the parser and interpreter. It does file I/O, console output and `process.exit`, and none of it is modelled.
- The Earley algorithm of nearley (`src/parser.js`). The grammar is parsed by recursive descent, which is equivalent here because every alternative starts with a different token (`GrammarProperties.ParseTokensExactly`). Error message texts are left out too: a syntax error is the index of the offending token.
- `src/dsl.js`: a character-level grammar that nothing loads. Only its `integer` rule is used, to add the `1` token.
- Line and column tracking of moo tokens. Tokens carry only their offset.
- Interpreter.ApplyPrim: a missing or non-number operand gives `NotANumber(op)`. JavaScript computes with whatever it is given instead: `NaN`, string concatenation of a function's source text, or `undefined` arithmetic.
- Numbers are unbounded integers. JavaScript's doubles are not modelled: their loss of precision beyond 2^53, `-0` from `neg 0` (which JavaScript treats as equal to 0), and `NaN`.
- Interpreter.Eval: the `fuel` bound stands in for the JavaScript engine's stack limit. A program that recurses forever ends with `OutOfFuel` rather than a `RangeError`, and the depth at which the engine would give up is not modelled.
- Interpreter.Eval: a local environment is a plain object copy (`{...env}`). In JavaScript it inherits `Object.prototype`, so `toString` and the like are "defined" inside a function body. The model's environments hold only the names the program binds. The root object has no prototype, so at the top level the model and the code agree. A parameter named `__proto__` is a legal identifier. Inside a function body, writing it runs the inherited `__proto__` setter instead of creating a binding: a number is ignored, and a function re-parents the local object. A later lookup of `__proto__` then yields the prototype. The model binds that name like any other.
- Interpreter.Env.DefineBuiltin: the property descriptors (`writable: false`, `configurable: false`) are not modelled. The explicit check against `BUILTINS` already rejects rebinding.
- The `Whitespace` and `Binding` node cases, the `Unknown node type` error, the non-object case, and non-`Binding` items in `Main` (`src/interpreter.js:14-16`, `23-24`, `39-42`, `94-96`, `113-114`). The grammar of `src/dsl.cjs` never builds such nodes.
- Error message texts. Errors are tagged values, for example `UndefinedIdentifier(name)`; the JSON dump of the environment in the undefined-identifier message is not modelled.

## Findings

| source | as written | input that shows it | evidently intended | confidence | as-written member | corrected member |
|---|---|---|---|---|---|---|
| src/dsl.cjs:8-20 | No moo rule matches a digit, and the `integer` symbol used by `expression` (line 36) has no rule. Lexing stops at the first `1`, and the `integer` alternative can never match. Every test program contains `1`. | `1` | A token for the literal `1` that builds `{type: "Integer", value: 1}`, as the `integer` rule of `src/dsl.js:243-246` does. | not executed | Pipeline.OneFailsAsWritten | Pipeline.OneEvaluates |
