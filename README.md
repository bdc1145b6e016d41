# emlisp in Dafny

A model of the core of emlisp, the small Lisp interpreter of the dumblisp repository.
It covers these parts:

- **Boxed values.** `Numeric`, `Bool`, `String`, `Symbol`, `Nil`, `List` and `Lambda`, with the two printers `display` and `write` and the fixed singletons.
- **The bridge to host values.** `box` and `unbox`, plus `atomize`, which turns a token into an atom.
- **The environment chain `Env`.** A frame is created by binding parameters to arguments, and `find` searches the chain.
- **The evaluator of `emlisp/types.py`.** It handles `quote`, `if`, `set!`, `define`, `lambda` and application; a closure call goes through `Lambda.__call__`.
- **The older evaluator of `emlisp/environment.py`.** It handles only `quote`, `if` and `define`.
- **The reader of `emlisp/parser.py`.** `tokenize`, `read_from_tokens` and `parse`.

Modules, one per file:

| file | module | what it holds |
|---|---|---|
| `values.dfy` | `Values` | the `Value` datatype (one variant per boxed class, plus `Native` for a host procedure and `HostNone` for the host's None), the error kinds, the printers, `is_sym`, truthiness |
| `boxing.dfy` | `Boxing` | the `Host` datatype and `box`/`unbox` |
| `atoms.dfy` | `Atoms` | `atomize` and the host's integer conversion |
| `tokenizer.dfy` | `Tokenizer` | `tokenize` |
| `reader.dfy` | `Reader` | `read_from_tokens` (a function, and a method with the source's loop) and `parse` |
| `frames.dfy` | `Frames` | the frame store, `find`, assignment into a frame, and the bindings of `Env(parms, args, outer)` |
| `evaluator.dfy` | `Evaluator` | `eval` of `emlisp/types.py` and the call of a procedure, as functions |
| `eval_laws.dfy` | `EvalLaws` | what that evaluator promises, form by form |
| `legacy.dfy` | `LegacyEvaluator` | `eval` of `emlisp/environment.py`, as functions |
| `legacy_laws.dfy` | `LegacyLaws` | how the two evaluators agree and where they differ |
| `interpreter.dfy` | `Interpreter` | class `Store`: the frames as one mutable field, with `Env.__init__`, both evaluators, `define` and `set!` as methods that update it in place, each proved equal to its function |

Design notes:

- **Frames form a store.** Frames are shared by every closure that captured them, and `define`/`set!` update them in place. The model keeps them in one sequence, `seq<Frame>`, and a closure holds the index of its frame. A frame's outer frame always has a smaller index.
  - `StoreOk` is preserved by every evaluation step. It says that frames are linked this way and that every stored closure points into the store.
  - `Grows` relates the store before a step to the store after it: no frame disappears, no outer link changes and no name is unbound.
  - Evaluation returns an `Outcome`: a result and the store after it. When a step fails part-way, the outcome keeps the assignments already made, as the host does.
- **Evaluation has a fuel bound.** The host may recurse without end. The model counts down a `fuel` argument and stops with `OutOfFuel`, which stands for the host running out of stack.
- **Every boxed value is true.** `Lispval` defines no truth test and no length, so `if` takes the consequent for `#f`, `()` and the empty list too. Only the host's None, which the older `define` returns, is false. `Values.Truthy` states this. `EvalLaws.IfLiteralTest` shows that `if` on any literal test takes the consequent.
- **Host procedures are a parameter.** A host procedure is `Native(id)`. Calling it unboxes the arguments, applies the parameter `prim: (nat, seq<Host>) -> Result<Host>` and boxes the result.
- **The older evaluator is modelled over frames.** It is given the same frames as the newer one; its default environment, a plain dictionary, is not modelled (see Left out).
- **`parse("")` raises 'Unexpected EOF'.** The code gives `SyntaxError('Unexpected EOF')` for an empty or all-white-space text, and the model follows the code. There is no end-of-input value on this path: that value belongs to the port reader, which is not modelled.

## Model

| member | source | states |
|---|---|---|
| `Values.IsSym` | emlisp/types.py:226-227 | true exactly when the value is the Symbol with that name |
| `Values.Write` | emlisp/types.py:42-43 | `write`: a Bool writes as `#t` or `#f`, and a List's text is enclosed in parentheses; see `PrintersAgree` and `Reader.ParseWriteRoundTrip` for its partners |
| `Values.Display` | emlisp/types.py:39-81 | `display`: a String shows its text between double quotes, a List is enclosed in parentheses, and every other kind except Nil is shown as `write` shows it; `Atoms.AtomizeString` reads a displayed String back |
| `Values.Truthy` | emlisp/types.py:238 | the host's truth test used by `if`: every Bool, Nil, Numeric and the empty List are true |
| `Values.EveryLispValueIsTrue` | emlisp/types.py:32-46 | a value is true for the host exactly when it is not the host's None, so `#f`, `()`, 0 and the empty List are true |
| `Values.PrintersAgree` | emlisp/types.py:39-81 | `display` and `write` give the same text for every value without a String or Nil inside |
| `Values.PrintersAgreeAll` | emlisp/types.py:76-81 | the same, element by element, for the elements of a List |
| `Values.PrintersDiffer` | emlisp/types.py:39-73 | a String displays between double quotes and writes raw; Nil displays `()` but writes its payload `None`; a Bool is `#t`/`#f` in both |
| `Values.NatToStringDigits` | emlisp/types.py:42-43 | the printed form of a natural number is a non-empty run of decimal digits |
| `Boxing.Unbox` | emlisp/types.py:158-174 | succeeds exactly on values without a Symbol, procedure or host None inside (otherwise SyntaxError), and then gives a host value that `box` accepts |
| `Boxing.UnboxSeq` | emlisp/types.py:168-172 | a sequence unboxes exactly when every element does, element by element, keeping the length |
| `Boxing.Box` | emlisp/types.py:184-199 | succeeds exactly on host values with no foreign object inside (otherwise SyntaxError), and then gives a value `unbox` accepts |
| `Boxing.BoxSeq` | emlisp/types.py:194-195 | a host list boxes exactly when every element does, keeping the length |
| `Boxing.UnboxBox` | emlisp/types.py:158-199 | `unbox(box(h)) == h` for every host value `box` accepts |
| `Boxing.UnboxBoxSeq` | emlisp/types.py:168-195 | the same for a list of host values |
| `Boxing.BoxUnbox` | emlisp/types.py:158-199 | `box(unbox(v)) == v` whenever `unbox` succeeds, Nil included |
| `Boxing.BoxUnboxSeq` | emlisp/types.py:168-195 | the same for a sequence of values |
| `Boxing.BoxSingletons` | emlisp/types.py:184-191 | None boxes to `nil_object`, True and False to `true_object` and `false_object`; True never becomes a Numeric |
| `Atoms.Atomize` | emlisp/types.py:202-223 | tried in the source's order: a token the integer conversion accepts is that Numeric, whatever `float` says; otherwise a float token is a float; a Bool comes only from `#t` or `#f`, a String only from a token in double quotes, and a Symbol is named by its token; it fails (on the indexing of an empty token) exactly when the token is empty and not a float |
| `Atoms.AtomizeCases` | emlisp/types.py:212-223 | for a token that is neither an integer nor a float: `#t` is `Bool(true)`, `#f` is `Bool(false)`, a token of two or more characters in double quotes is the String between them, and any other non-empty token is the Symbol it spells |
| `Atoms.AtomizeString` | emlisp/types.py:219-220 | a token in double quotes that `float` rejects is the String of what lies between them, so `atomize` reads back what `display` shows for a String |
| `Atoms.ParseInt` | emlisp/types.py:204-205 | the host's `int()` on a token: after stripping white space, digits give their decimal value (leading zeros allowed), `+` or `-` before digits gives that value with its sign, and a success always starts with a digit or a sign; `IntToStringParses` is its inverse |
| `Atoms.StripLeftSpec` | emlisp/types.py:204-205 | the white space `int()` ignores in front: what is removed is all white space, and what is kept is a suffix that does not start with any |
| `Atoms.StripRightSpec` | emlisp/types.py:204-205 | the same at the end: a prefix that does not end with white space, and only white space removed after it |
| `Atoms.AllDigitsEach` | emlisp/types.py:204-205 | the digit test of the integer conversion holds exactly when every character is a decimal digit |
| `Atoms.NatToStringValue` | emlisp/types.py:204-205 | the decimal digits of a natural number convert back to that number |
| `Atoms.IntToStringParses` | emlisp/types.py:204-205 | `int('%s' % n) == n` for every integer |
| `Atoms.AtomizeWrite` | emlisp/types.py:202-223 | every atom other than a String or a float is written to a token that `atomize` turns back into that atom |
| `Tokenizer.WordLen` | emlisp/parser.py:25-26 | the length of the leading run of non-space characters: none of them is space, and the next one is |
| `Tokenizer.Tokenize` | emlisp/parser.py:25-26 | every token is a non-empty word with no white space; `TokenizeConcat` and `TokenizeShape` give the rest |
| `Tokenizer.PadAppend` | emlisp/parser.py:25-26 | padding the parentheses of a text is done piece by piece |
| `Tokenizer.PadNoParen` | emlisp/parser.py:25-26 | a text without parentheses is left as it is |
| `Tokenizer.SplitAtSpace` | emlisp/parser.py:25-26 | splitting at a white-space character splits the two sides separately |
| `Tokenizer.SplitShape` | emlisp/parser.py:25-26 | every piece of a split is a non-empty word with no white space, and has no parenthesis when the text has none |
| `Tokenizer.ConcatSplit` | emlisp/parser.py:25-26 | the pieces of a split, joined, are the text without its white space |
| `Tokenizer.RemoveSpacePad` | emlisp/parser.py:25-26 | padding adds only white space |
| `Tokenizer.TokenizeConcat` | emlisp/parser.py:25-26 | the tokens of a text, concatenated, are the text with all white space removed |
| `Tokenizer.TokenizeShape` | emlisp/parser.py:25-26 | every token is a lone `(` or `)`, or a non-empty word with no white space and no parenthesis |
| `Tokenizer.TokenizeAtSpace` | emlisp/parser.py:25-26 | white space between two texts separates their tokens |
| `Tokenizer.TokenizeInParens` | emlisp/parser.py:25-26 | a text in parentheses tokenizes to `(`, its own tokens, `)` |
| `Tokenizer.TokenizeWord` | emlisp/parser.py:25-26 | a word without white space or parentheses is one token |
| `Reader.Read` | emlisp/parser.py:9-22 | consumes at least one token on success; fails with 'Unexpected EOF' only on no tokens, 'Unexpected )' only on a leading `)`, and otherwise only with IndexError |
| `Reader.ReadItems` | emlisp/parser.py:13-18 | the list loop consumes at least its `)` on success, and fails only with the IndexError of an exhausted list |
| `Reader.ReadSuffix` | emlisp/parser.py:12-17 | what the reader leaves over is a tail of its input: it only removes tokens from the front |
| `Reader.ReadItemsSuffix` | emlisp/parser.py:13-17 | the same for the list loop |
| `Reader.ReadFromTokens` | emlisp/parser.py:9-22 | the loop that pops tokens and appends sub-expressions returns what `Read` gives, the tokens left over included |
| `Reader.ReadPrefix` | emlisp/parser.py:13-18 | the reader consumes exactly the tokens of one expression: whatever follows them is left over unread |
| `Reader.ReadExtends` | emlisp/parser.py:9-21 | appending tokens after a successful read keeps the value read and only lengthens what is left over |
| `Reader.Parse` | emlisp/parser.py:4-6 | `parse` fails only with 'Unexpected EOF', 'Unexpected )' or IndexError; `ParseEof` and `ParseWriteRoundTrip` say when and what it returns |
| `Reader.ReadItemsPrefix` | emlisp/parser.py:13-18 | the same for the list loop, through the matching `)` |
| `Reader.ReadTruncated` | emlisp/parser.py:15 | every proper non-empty prefix of an expression's tokens fails with IndexError, never with a SyntaxError |
| `Reader.ReadItemsTruncated` | emlisp/parser.py:15-16 | the same for the list loop |
| `Reader.UnterminatedQuote` | emlisp/parser.py:15 | `(quote` fails with IndexError |
| `Reader.ParseFirstOnly` | emlisp/parser.py:4-6 | text after the first complete expression, past white space, does not change what `parse` returns |
| `Reader.ReadEofOnlyWhenEmpty` | emlisp/parser.py:10-11 | 'Unexpected EOF' exactly for an empty token list |
| `Reader.ParseEof` | emlisp/parser.py:4-11 | `parse` reports 'Unexpected EOF' exactly when the text holds nothing but white space |
| `Reader.TokenizeWrite` | emlisp/parser.py:25-26 | the written form of a re-readable value tokenizes to its tokens |
| `Reader.ReadTokens` | emlisp/parser.py:9-22 | the tokens of a re-readable value read back as that value, leaving what follows |
| `Reader.ReadTokensAll` | emlisp/parser.py:13-18 | the tokens of a sequence of re-readable values, then `)`, read back as that sequence |
| `Reader.ReadRereadable` | emlisp/parser.py:9-22 | a value read from tokens, with no String or float inside, is re-readable |
| `Reader.ReadItemsRereadable` | emlisp/parser.py:13-18 | the same for the elements of a list |
| `Reader.ParseWriteRoundTrip` | emlisp/parser.py:4-26 | `parse(write(v)) == v` for every value `v` that `parse` returns with no String or float inside |
| `Reader.WriteExample` | emlisp/types.py:80-81 | worked example: `(quote (1 2 3))` is written back as that text |
| `Reader.QuoteExample` | emlisp/parser.py:4-6 | worked example: `(quote (1 2 3))` parses to the List of the Symbol `quote` and the List of 1, 2, 3 |
| `Frames.Chain` | emlisp/types.py:23-29 | the chain from a frame starts at it and visits only frames at or below it |
| `Frames.Find` | emlisp/types.py:23-29 | the frame found binds the name and is on the chain; a frame that binds the name finds itself |
| `Frames.FirstBinding` | emlisp/types.py:23-29 | the reference search: none exactly when no frame of the chain binds the name, otherwise a binding frame with no binding frame before it |
| `Frames.FindInnermost` | emlisp/types.py:23-29 | `find` returns the innermost frame of the chain that binds the name, and fails exactly when none does |
| `Frames.Lookup` | emlisp/types.py:67-68 | a name's value is its binding in the frame `find` returns; LookupError of the name exactly when `find` fails |
| `Frames.Assign` | emlisp/types.py:244 | the assignment changes one name in one frame and leaves every other frame as it was |
| `Frames.AssignOk` | emlisp/types.py:250 | assigning a value whose closures point into the store keeps the store invariant |
| `Frames.AssignThenLookup` | emlisp/types.py:244 | after assigning into the frame `find` returned, or into the current frame, the name reads as the new value |
| `Frames.AssignOtherName` | emlisp/types.py:240-251 | assigning one name changes what no other name finds or reads, from any frame |
| `Frames.FindAppend` | emlisp/types.py:93-94 | adding a frame at the end changes no lookup from an existing frame |
| `Frames.ZipValues` | emlisp/types.py:19-21 | with distinct names, each name is bound to the argument at its position |
| `Frames.ZipKeys` | emlisp/types.py:19-21 | exactly the parameter names are bound |
| `Frames.BindPositional` | emlisp/types.py:15-21 | a List of distinct Symbols binds each name to the argument at the same position, and binds nothing else |
| `Frames.BindVariadic` | emlisp/types.py:12-13 | a lone Symbol is bound to the whole argument List, whatever the number of arguments |
| `Frames.Bind` | emlisp/types.py:10-21 | a frame is made only for a lone Symbol, a List of as many parameters as arguments, or the empty String with no arguments; any length mismatch raises the arity error |
| `Frames.BindArity` | emlisp/types.py:16-18 | a length mismatch binds nothing; it is the TypeError naming both sides exactly when both can be displayed, and AttributeError when a host procedure or None is among them |
| `Frames.BindArityUnprintable` | emlisp/types.py:16-18 | worked example: one parameter given two host procedures, or two parameters given None, fails with AttributeError; two numbers give the TypeError |
| `Frames.BindLastWins` | emlisp/types.py:19-21 | of two parameters with the same name, the later one's argument is bound |
| `Evaluator.CallNative` | emlisp/types.py:146-153 | a host procedure's successful result is a boxed value `unbox` accepts, so it holds no closure |
| `Evaluator.EvalAtom` | emlisp/types.py:230-232 | a non-List fails exactly when it is a procedure or None (no `eval`) or an unbound name; any other non-Symbol evaluates to itself |
| `Evaluator.Eval` | emlisp/types.py:230-259 | evaluation keeps the store invariant, only grows the store, and gives a value whose closures point into the store |
| `Evaluator.EvalForm` | emlisp/types.py:233-259 | the same for the dispatch on a List's head |
| `Evaluator.EvalIf` | emlisp/types.py:236-239 | the same for `if` |
| `Evaluator.EvalSet` | emlisp/types.py:240-245 | `set!` keeps the store invariant and gives `nil_object` when it succeeds |
| `Evaluator.EvalDefine` | emlisp/types.py:246-251 | `define` keeps the store invariant and gives `nil_object` when it succeeds |
| `Evaluator.EvalApp` | emlisp/types.py:256-259 | an application keeps the store invariant |
| `Evaluator.EvalList` | emlisp/types.py:257 | the elements evaluate to as many values, in a store that only grew |
| `Evaluator.Apply` | emlisp/types.py:93-94 | a call keeps the store invariant and only grows the store |
| `EvalLaws.SymbolIsInnermostBinding` | emlisp/types.py:67-68 | a name evaluates to its binding in the innermost frame of the chain that binds it, or fails with LookupError, and changes nothing |
| `EvalLaws.MalformedForms` | emlisp/types.py:233-253 | an empty List fails with IndexError; a special form of the wrong length fails with ValueError before anything is evaluated |
| `EvalLaws.QuoteAndLambdaEvaluateNothing` | emlisp/types.py:233-254 | `quote` gives its operand unevaluated; `lambda` gives a closure over the current frame without evaluating the body; the store is unchanged |
| `EvalLaws.IfIgnoresOtherBranch` | emlisp/types.py:236-239 | `if` evaluates exactly one branch: the branch the test does not pick never affects the outcome |
| `EvalLaws.IfLiteralTest` | emlisp/types.py:236-239 | an `if` whose test is any literal, `#f` and `()` included, is its consequent |
| `EvalLaws.DefineBindsInCurrentFrame` | emlisp/types.py:246-251 | `define` gives `nil_object`, binds the value in the current frame only, and the name then reads as that value |
| `EvalLaws.SetUpdatesBindingFrame` | emlisp/types.py:240-245 | `set!` fails with LookupError when no frame binds the name; otherwise it gives `nil_object` and updates only the frame `find` returns |
| `EvalLaws.DefineTargetMustBeSymbol` | emlisp/types.py:246-249 | `define` with a non-Symbol target fails with the not-a-symbol error before the value is evaluated |
| `EvalLaws.SetTargetMustBeSymbol` | emlisp/types.py:240-243 | the same for `set!`; for the target 1 it is the SyntaxError `Not a symbol: "1"` |
| `EvalLaws.NotSymbolErrorKind` | emlisp/types.py:242-243 | the not-a-symbol error is a SyntaxError showing the target as `str` does, except for a List holding a host procedure or None, which cannot be displayed and raises AttributeError |
| `EvalLaws.ApplyLaw` | emlisp/types.py:93-94 | calling any value: a closure whose parameters `Env` rejects fails with that error and adds no frame; otherwise its body is evaluated in a new frame holding the bindings of `Env`, whose outer frame is the captured one (variadic, duplicate-name and String parameters included); a value that is neither a closure nor a host procedure fails with TypeError |
| `EvalLaws.ApplyClosure` | emlisp/types.py:93-94 | the positional case of `ApplyLaw`: for a List of distinct names, a wrong number of arguments fails with the arity error of `Bind` and adds no frame; otherwise the new frame binds each name to the argument at its position |
| `EvalLaws.CallFrameScope` | emlisp/types.py:9-29 | in that new frame each parameter reads as its argument, and every other name reads as from the captured frame |
| `EvalLaws.NativeCall` | emlisp/types.py:146-153 | a host procedure call changes no frame; it succeeds exactly when the arguments unbox, the procedure returns and its result boxes; and the result unboxes to what the procedure returned |
| `EvalLaws.EvalListStep` | emlisp/types.py:257 | the first element is evaluated first, and the rest in the store it left |
| `EvalLaws.EvalListAppend` | emlisp/types.py:257 | evaluating `xs + ys` is evaluating `xs`, then `ys` in the store that left, stopping at the first error |
| `EvalLaws.EvalListLiteral` | emlisp/types.py:36-37 | a literal evaluates to itself and changes nothing |
| `EvalLaws.DefineThenUse` | emlisp/types.py:246-251 | worked example: `(define x 5)` then `x` gives `()` and `5`, with `x` bound in the current frame |
| `EvalLaws.DefineFive` | emlisp/types.py:246-251 | worked example: `(define x 5)` gives `nil_object` and binds `x` to 5 in the current frame |
| `EvalLaws.IdentityElements` | emlisp/types.py:252-257 | worked example: the elements of `((lambda (x) x) 7)` evaluate to a closure over the current frame and 7 |
| `EvalLaws.IdentityCall` | emlisp/types.py:93-94 | worked example: calling that closure on 7 gives 7 and adds the frame binding `x` to 7 |
| `EvalLaws.IdentityApplication` | emlisp/types.py:252-259 | worked example: `((lambda (x) x) 7)` gives 7 |
| `EvalLaws.NumberIsNotCallable` | emlisp/types.py:256-259 | worked example: `(1 2)` is a TypeError: a number cannot be called |
| `LegacyEvaluator.LegacyEval` | emlisp/environment.py:60-79 | evaluation keeps the store invariant, only grows the store, and gives a value whose closures point into the store |
| `LegacyEvaluator.LegacyForm` | emlisp/environment.py:63-79 | the same for the dispatch on a List's head |
| `LegacyEvaluator.LegacyIf` | emlisp/environment.py:66-69 | the same for `if` |
| `LegacyEvaluator.LegacyDefine` | emlisp/environment.py:70-75 | `define` keeps the store invariant and gives the host's None when it succeeds |
| `LegacyEvaluator.LegacyApp` | emlisp/environment.py:76-79 | an application keeps the store invariant |
| `LegacyEvaluator.LegacyEvalList` | emlisp/environment.py:78 | the arguments evaluate to as many values |
| `LegacyLaws.LegacyAgrees` | emlisp/environment.py:60-79 | on expressions with no `set!`, `define` or `lambda` form, the older evaluator gives the same result and the same store as the newer one |
| `LegacyLaws.FormAgrees` | emlisp/environment.py:63-79 | the same for the dispatch on a List's head |
| `LegacyLaws.IfAgrees` | emlisp/environment.py:66-69 | the same for `if` |
| `LegacyLaws.AppAgrees` | emlisp/environment.py:76-79 | evaluating the head, then the arguments, then calling, agrees with evaluating all elements and then calling |
| `LegacyLaws.ListAgrees` | emlisp/environment.py:78 | the same for the arguments |
| `LegacyLaws.LegacyIfSteps` | emlisp/environment.py:66-69 | the older `if` evaluates the test, then exactly the branch it picks, in the store the test left; an error in the test ends it |
| `LegacyLaws.EvalIfSteps` | emlisp/types.py:236-239 | the same for the newer `if` |
| `LegacyLaws.LegacyAtomsAndQuote` | emlisp/environment.py:61-65 | a name is looked up through the chain, a procedure or None fails, any other non-List is itself; `quote` gives its operand unevaluated; the store is unchanged |
| `LegacyLaws.LegacyDefineTarget` | emlisp/environment.py:70-73 | the older `define` with a non-Symbol target fails with the not-a-symbol error before the value is evaluated |
| `LegacyLaws.DefineResultsDiffer` | emlisp/environment.py:70-75 | `define` binds the same way in both evaluators, but the newer gives `nil_object` and the older the host's None |
| `LegacyLaws.IfOnDefine` | emlisp/environment.py:66-75 | worked example: `(if (define x 5) 1 2)` gives 1 in the newer evaluator and 2 in the older, and both bind `x` |
| `LegacyLaws.LambdaAndSetAreApplications` | emlisp/environment.py:76-79 | in the older evaluator a form headed by `lambda` or `set!` is an application: where nothing binds the head it fails with LookupError |
| `Interpreter.Store.constructor` | emlisp/types.py:9-21 | a store holding one empty frame with no outer frame, as `Env()` makes |
| `Interpreter.Store.NewEnv` | emlisp/types.py:10-21 | fills a new frame binding by binding; when the parameters do not fit, it fails with the error of the binding and adds no frame; otherwise it appends the frame of the binding and returns its index |
| `Interpreter.Store.Evaluate` | emlisp/types.py:230-259 | the result and the frames after it are those of `Eval` on the frames before |
| `Interpreter.Store.EvaluateIf` | emlisp/types.py:236-239 | the same for `if` |
| `Interpreter.Store.EvaluateSet` | emlisp/types.py:240-245 | `set!` writes into the frame `find` returns, in place, as `EvalSet` says |
| `Interpreter.Store.EvaluateDefine` | emlisp/types.py:246-251 | `define` writes into the current frame, in place, as `EvalDefine` says |
| `Interpreter.Store.EvaluateApp` | emlisp/types.py:256-259 | the same for an application |
| `Interpreter.Store.EvaluateAll` | emlisp/types.py:257 | the loop over the elements gives what `EvalList` gives |
| `Interpreter.Store.Call` | emlisp/types.py:93-94 | a call, through `NewEnv` for a closure, gives what `Apply` gives |
| `Interpreter.Store.LegacyEvaluate` | emlisp/environment.py:60-79 | the result and the frames after it are those of `LegacyEval` on the frames before |
| `Interpreter.Store.LegacyEvaluateIf` | emlisp/environment.py:66-69 | the same for `if` |
| `Interpreter.Store.LegacyEvaluateDefine` | emlisp/environment.py:70-75 | the older `define` writes into the current frame in place and gives the host's None, as `LegacyDefine` says |
| `Interpreter.Store.LegacyEvaluateApp` | emlisp/environment.py:76-79 | the same for an application |
| `Interpreter.Store.LegacyEvaluateAll` | emlisp/environment.py:78 | the loop over the arguments gives what `LegacyEvalList` gives |

## Left out

- The port reader `InPort` (emlisp/types.py:97-133) is console and file input; it is not part of this model, and neither is its end-of-input value on that path.
- `unboxedfn` (emlisp/types.py:136-155) inspects the host procedure's signature to decide whether to pass `env`. A host procedure here is an opaque `prim` that receives only the unboxed arguments, so procedures that read the environment are not modelled.
- `unboxenv` (emlisp/types.py:177-181) is used by no core operation.
- `standard_environment` (emlisp/environment.py:8-50) fills a dictionary with host operators. It refers to a name, `thing`, that is defined nowhere, so loading that module fails before it is used.
- The older evaluator's default environment is a plain dictionary, which has no `find`, so with it the symbol lookup at emlisp/types.py:67-68 would fail with AttributeError. `LegacyEvaluator.LegacyEval` is given `Env` frames instead, as the newer evaluator is.
- `Atoms.Atomize`: whether the host's `float()` accepts a token is the parameter `isFloat`. A float keeps its token as its payload and is printed as that token. No floating-point arithmetic is modelled.
- `Atoms.Atomize`: the `string_escape` decoding of a quoted token is taken as the identity.
- `Values.Write` of a Lambda prints an object address in the source; here it is a fixed text. A host procedure or None has no printer at all: `Values.Printable` says when printing succeeds, and the two places that print (the arity error of `Frames.Bind` and the not-a-symbol error) raise AttributeError where it fails. Where the host prints a host procedure itself, as `str` does for a bare not-a-symbol target, the text is a fixed placeholder.
- `Evaluator.Eval`: host stack exhaustion is modelled as running out of `fuel` (`OutOfFuel`), so the model says nothing about how deep the host can recurse.
- `Evaluator.Apply`: the TypeError for calling a non-procedure carries a fixed message instead of one naming the host class. The same applies to the "has no len()" and "unhashable" TypeErrors of the binding.
- `Evaluator.EvalAtom`: the AttributeError for a value with no `eval` carries no message. The IndexError and ValueError of malformed forms carry none either.
- Object identity is not modelled: values are compared structurally, and `eq?`-style identity of boxed objects is not expressible.
- Frames are never reclaimed: the store only grows.
- The REPLs (dumblisp/repl.py, emlisp/repl.py) and their printing are not part of this model.
