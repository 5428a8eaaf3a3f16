# Despector code emission, modelled in Dafny

Despector is a Java bytecode decompiler. Its last stage walks the reconstructed syntax tree
and writes source text into an emitter context: an output buffer, an indentation counter and
a list of wrap points, which are offsets where a later pass may break a long line. This project
models three of the emitters and proves what each one writes:

- **`KotlinInstanceMethodInvokeEmitter.emit`** prints a Kotlin instance method call. It first
  tries a special rewriter registered for the key `owner + methodName`. Otherwise it prints the
  call target and then the argument list:
  - the call target is `this` or `super` for a constructor; otherwise it is a receiver followed
    by the method name;
  - the receiver is nothing, `super.`, a rendered local, or the rendered callee;
  - the argument list is left out for property-style calls;
  - a trailing array built on the spot is spread into variadic arguments.
- **`MultiNewArrayEmitter.emit`** prints `new T[a][b]...`. It strips one `[` from the array
  descriptor per size expression and throws `IllegalStateException` when one is missing. It
  then prints one bracket pair per size, with inner spaces switched by the format.
- **`ForEmitter.emit`** prints a `for` statement. The header's spaces are switched by the
  format, and the init and increment clauses are optional. The body block, with its
  indentation change and extra line break, is left out when the body is empty.

Layout:

- `ast.dfy`: the syntax-tree nodes the emitters read, and the outcome of an emitter call,
  which either finishes or throws.
- `format.dfy`: the formatter switches used here.
- `emitter.dfy`: the shared part.
  - The class `EmitterContext`: its fields are updated in place by `PrintString`,
    `PrintStringIf`, `NewLine`, `PrintIndentation`, `Indent`, `Dedent`, `MarkWrapPoint` and
    the child-rendering calls.
  - `Piece`: text together with the wrap points marked while writing it.
  - Two definitions of a comma-separated list: `Listed`, the shape an emitting loop produces,
    and `Joined`, an independent reference definition. Lemmas connect the two.
- `multi_new_array_emitter.dfy`, `for_emitter.dfy`, `kotlin_invoke_emitter.dfy`: one
  module per emitter. Each has specification functions giving the text written and the
  outcome, lemmas about those functions, and imperative methods that write into an
  `EmitterContext`. Each method's postcondition ties the new output and wrap points to its
  specification function.

Child rendering is delegated to code that is not part of this model: nested expressions,
statements, conditions, blocks, type descriptors, method-signature splitting and the special
rewriters. Each becomes an arbitrary function held in the context's `Renderers` record. The
emitters' contracts are stated in terms of those functions.

## Model

| member | source | states |
|---|---|---|
| Emitter.ListedIsJoined | src/main/java/org/spongepowered/despector/emitter/kotlin/instruction/method/KotlinInstanceMethodInvokeEmitter.java:111-129 | after k of n entries, an emitting loop that writes `", "` and a wrap point after every entry but the last has written the reference joined list of those k entries, plus one dangling separator exactly when k < n |
| Emitter.ListedAllIsJoined | src/main/java/org/spongepowered/despector/emitter/kotlin/instruction/method/KotlinInstanceMethodInvokeEmitter.java:111-129 | a loop that completes over all entries writes exactly the joined list |
| Emitter.JoinedConcat | src/main/java/org/spongepowered/despector/emitter/kotlin/instruction/method/KotlinInstanceMethodInvokeEmitter.java:113-127 | two non-empty joined lists with one separator between them are the joined list of the concatenated entries, text and wrap points alike; this is what makes spread elements read like ordinary arguments |
| Emitter.JoinedMarks | src/main/java/org/spongepowered/despector/emitter/kotlin/instruction/method/KotlinInstanceMethodInvokeEmitter.java:125-128 | a joined list of n >= 1 entries has n - 1 wrap points, each inside the text and directly after a `", "` |
| MultiNewArrayEmitter.StripDims | src/main/java/org/spongepowered/despector/emitter/java/instruction/MultiNewArrayEmitter.java:42-48 | when stripping succeeds, the descriptor has at least `dims` characters and the result is the descriptor without its first `dims` characters |
| MultiNewArrayEmitter.StripDimsExact | src/main/java/org/spongepowered/despector/emitter/java/instruction/MultiNewArrayEmitter.java:42-48 | stripping yields `base` if and only if the descriptor is `dims` copies of `[` followed by `base` |
| MultiNewArrayEmitter.StripDimsFails | src/main/java/org/spongepowered/despector/emitter/java/instruction/MultiNewArrayEmitter.java:43-46 | stripping fails if and only if the descriptor has fewer than `dims` leading `[` |
| MultiNewArrayEmitter.StripDimensions | src/main/java/org/spongepowered/despector/emitter/java/instruction/MultiNewArrayEmitter.java:42-48 | the descriptor loop, with one `substring(1)` per size: it fails exactly when there are too few leading `[`; on success the descriptor is that many `[` followed by the result |
| MultiNewArrayEmitter.BracketPair | src/main/java/org/spongepowered/despector/emitter/java/instruction/MultiNewArrayEmitter.java:51-55 | definition: `[`, a space when the after-opening-bracket switch is on, the size rendered against `int`, a space when the before-closing-bracket switch is on, `]` |
| MultiNewArrayEmitter.Brackets | src/main/java/org/spongepowered/despector/emitter/java/instruction/MultiNewArrayEmitter.java:50-56 | definition: the bracket pairs of the sizes concatenated front to back, empty for no sizes |
| MultiNewArrayEmitter.Allocation | src/main/java/org/spongepowered/despector/emitter/java/instruction/MultiNewArrayEmitter.java:41-56 | definition: `new ` alone and a thrown `IllegalStateException` when stripping one `[` per size fails; otherwise `new `, the base type rendered from the stripped descriptor and the brackets, completed |
| MultiNewArrayEmitter.BracketsAppend | src/main/java/org/spongepowered/despector/emitter/java/instruction/MultiNewArrayEmitter.java:50-56 | the bracket pairs follow the sizes in declaration order: the pairs of `a + b` are the pairs of `a` followed by those of `b` |
| MultiNewArrayEmitter.OnePair | src/main/java/org/spongepowered/despector/emitter/java/instruction/MultiNewArrayEmitter.java:51-55 | one pair around a size rendered without brackets holds exactly one `[` and one `]`, whatever the spacing switches |
| MultiNewArrayEmitter.OnePairPerSize | src/main/java/org/spongepowered/despector/emitter/java/instruction/MultiNewArrayEmitter.java:50-56 | when no rendered size contains a bracket, the brackets hold exactly one `[` and one `]` per size expression |
| MultiNewArrayEmitter.AllocationOutcome | src/main/java/org/spongepowered/despector/emitter/java/instruction/MultiNewArrayEmitter.java:41-49 | `IllegalStateException` is thrown if and only if the descriptor has fewer leading `[` than there are sizes; the output begins with `new ` either way; on success it is `new `, the base type (the descriptor without its first k characters) and the brackets |
| MultiNewArrayEmitter.TwoDimensionalInt | src/main/java/org/spongepowered/despector/emitter/java/instruction/MultiNewArrayEmitter.java:40-57 | with every switch off, descriptor `[[I` and sizes 3 and 4 give `new int[3][4]` |
| MultiNewArrayEmitter.EmitBracketPair | src/main/java/org/spongepowered/despector/emitter/java/instruction/MultiNewArrayEmitter.java:51-55 | one loop pass appends `[`, a space iff the after-opening-bracket switch is on, the size rendered as `int`, a space iff the before-closing-bracket switch is on, and `]` |
| MultiNewArrayEmitter.EmitBrackets | src/main/java/org/spongepowered/despector/emitter/java/instruction/MultiNewArrayEmitter.java:50-56 | the size loop appends the bracket pairs of all sizes, in order |
| MultiNewArrayEmitter.Emit | src/main/java/org/spongepowered/despector/emitter/java/instruction/MultiNewArrayEmitter.java:40-57 | the emitter appends exactly the allocation text and ends as it does (thrown after `new ` on a missing marker, otherwise completed); nothing else in the context changes |
| ForEmitter.Part | src/main/java/org/spongepowered/despector/emitter/statement/ForEmitter.java:42-50 | definition: an absent init or increment clause writes nothing; a present one is the statement rendered with the semicolon flag off |
| ForEmitter.Header | src/main/java/org/spongepowered/despector/emitter/statement/ForEmitter.java:38-52 | definition: `for`, a space iff the before-paren switch is on, `(`, a space iff the after-paren switch is on, the init clause, `"; "`, the condition, `"; "`, the increment clause, `) {` and a line break |
| ForEmitter.Block | src/main/java/org/spongepowered/despector/emitter/statement/ForEmitter.java:53-58 | definition: nothing for an empty body; otherwise the body rendered one level deeper than the current one, then a line break |
| ForEmitter.Loop | src/main/java/org/spongepowered/despector/emitter/statement/ForEmitter.java:37-61 | definition: the header, the block, the indentation of the current level and `}` |
| ForEmitter.LoopShape | src/main/java/org/spongepowered/despector/emitter/statement/ForEmitter.java:38-60 | the output starts with `for`, then a space exactly when the before-paren switch is on, then `(`; it ends with `}` and never with `;` |
| ForEmitter.HeaderEnds | src/main/java/org/spongepowered/despector/emitter/statement/ForEmitter.java:51-52 | the header always ends with `) {` and one line break, whatever the init and increment are |
| ForEmitter.EmptyBodyNormalised | src/main/java/org/spongepowered/despector/emitter/statement/ForEmitter.java:53-60 | with an empty body, the header is followed directly by the indentation and `}`, with no further line break |
| ForEmitter.CountingLoop | src/main/java/org/spongepowered/despector/emitter/statement/ForEmitter.java:37-61 | with every switch off, `for (i=0; i<10; i++)` around one statement prints `for(i=0; i<10; i++) {`, the indented statement, a line break and `}` |
| ForEmitter.EmitPart | src/main/java/org/spongepowered/despector/emitter/statement/ForEmitter.java:42-44 | an init or increment clause is written only when present, and without its own semicolon |
| ForEmitter.EmitBlock | src/main/java/org/spongepowered/despector/emitter/statement/ForEmitter.java:53-58 | a non-empty body is written one level deeper and followed by a line break; an empty body writes nothing; indentation is back where it started either way |
| ForEmitter.Emit | src/main/java/org/spongepowered/despector/emitter/statement/ForEmitter.java:37-61 | the emitter appends exactly the loop text at the starting indentation, the `semicolon` flag having no effect, and leaves the indentation as it found it |
| KotlinInvoke.Attempt | src/main/java/org/spongepowered/despector/emitter/kotlin/instruction/method/KotlinInstanceMethodInvokeEmitter.java:72-74 | definition: the registered rewriter for the key `owner + methodName` is asked, and its verdict and text are kept; with no rewriter the call is declined and nothing is written |
| KotlinInvoke.Receiver | src/main/java/org/spongepowered/despector/emitter/kotlin/instruction/method/KotlinInstanceMethodInvokeEmitter.java:88-103 | definition: nothing for a bare-call key; for a local of an instance method, `super.` or nothing on slot 0 (`super.` exactly when an enclosing type exists and differs from the owner), otherwise the local rendered with no expected type and `.`; any other callee rendered against the owner type and `.` |
| KotlinInvoke.Head | src/main/java/org/spongepowered/despector/emitter/kotlin/instruction/method/KotlinInstanceMethodInvokeEmitter.java:77-105 | definition: for `<init>`, `this` when an enclosing type exists and equals the owner name, else `super`; for any other method, the receiver followed by the method name |
| KotlinInvoke.Arguments | src/main/java/org/spongepowered/despector/emitter/kotlin/instruction/method/KotlinInstanceMethodInvokeEmitter.java:110-129 | definition: the fixed arguments, as far as the declared types reach, each rendered against its type and followed by `", "` and a wrap point unless it is the last parameter; `IndexOutOfBoundsException` thrown when the fixed arguments outnumber the types; otherwise the trailing array's elements follow as a list of their own |
| KotlinInvoke.ArgumentList | src/main/java/org/spongepowered/despector/emitter/kotlin/instruction/method/KotlinInstanceMethodInvokeEmitter.java:109-130 | definition: `(`, the arguments for the types split from the method descriptor, and `)` only when they completed; the outcome is that of the arguments |
| KotlinInvoke.Invocation | src/main/java/org/spongepowered/despector/emitter/kotlin/instruction/method/KotlinInstanceMethodInvokeEmitter.java:71-131 | definition: an accepting rewriter's text alone, completed; otherwise the declining rewriter's text, the call target and, unless the key is property-style, the argument list with its outcome |
| KotlinInvoke.TablesDisjoint | src/main/java/org/spongepowered/despector/emitter/kotlin/instruction/method/KotlinInstanceMethodInvokeEmitter.java:52-68 | no key is in two of the three static tables, and no constructor key is in any of them |
| KotlinInvoke.SpecialHandled | src/main/java/org/spongepowered/despector/emitter/kotlin/instruction/method/KotlinInstanceMethodInvokeEmitter.java:72-76 | when a registered rewriter takes the call, its text is all that is written and the call completes |
| KotlinInvoke.SpecialDeclined | src/main/java/org/spongepowered/despector/emitter/kotlin/instruction/method/KotlinInstanceMethodInvokeEmitter.java:72-76 | when no rewriter takes the call, the output begins with the declining rewriter's text (empty when none is registered) followed by the call target |
| KotlinInvoke.UnlistedCall | src/main/java/org/spongepowered/despector/emitter/kotlin/instruction/method/KotlinInstanceMethodInvokeEmitter.java:72-130 | a call with no rewriter that is not property-style prints its call target followed by its argument list, and ends as the argument list does |
| KotlinInvoke.ConstructorCall | src/main/java/org/spongepowered/despector/emitter/kotlin/instruction/method/KotlinInstanceMethodInvokeEmitter.java:77-86 | a constructor call's target is `this` exactly when there is an enclosing type whose name is the owner, and `super` otherwise; the callee never affects the output |
| KotlinInvoke.BareCall | src/main/java/org/spongepowered/despector/emitter/kotlin/instruction/method/KotlinInstanceMethodInvokeEmitter.java:88-104 | for `PrintStream.print`/`println` no receiver and no `.` precede the method name; the output is the name followed by the argument list |
| KotlinInvoke.SelfCall | src/main/java/org/spongepowered/despector/emitter/kotlin/instruction/method/KotlinInstanceMethodInvokeEmitter.java:89-94 | on local slot 0 of an instance method, the call target is the bare method name or `super.` and the name; it is `super.` exactly when there is an enclosing type and the owner differs from it; no receiver is rendered, so the call target is the same whatever the child renderers produce |
| KotlinInvoke.RenderedReceiver | src/main/java/org/spongepowered/despector/emitter/kotlin/instruction/method/KotlinInstanceMethodInvokeEmitter.java:95-102 | any other callee is rendered and followed by `.` and the name: another local of an instance method without an expected type, everything else with the owner as its expected type |
| KotlinInvoke.PropertyCall | src/main/java/org/spongepowered/despector/emitter/kotlin/instruction/method/KotlinInstanceMethodInvokeEmitter.java:106-108 | `String.length` completes right after the method name: no parentheses, no arguments |
| KotlinInvoke.ArgumentsThrow | src/main/java/org/spongepowered/despector/emitter/kotlin/instruction/method/KotlinInstanceMethodInvokeEmitter.java:110-124 | the argument loop throws `IndexOutOfBoundsException` exactly when an argument before any spread array has no declared parameter type; by then every argument that has one has been written, each followed by a separator, and no `)` follows |
| KotlinInvoke.ArgumentsJoined | src/main/java/org/spongepowered/despector/emitter/kotlin/instruction/method/KotlinInstanceMethodInvokeEmitter.java:109-130 | a completed argument list is the joined list of every entry in order: the fixed arguments rendered against their declared types, then the trailing array's elements against its element type, the array itself never rendered; the one exception is below |
| KotlinInvoke.ArgumentsDangling | src/main/java/org/spongepowered/despector/emitter/kotlin/instruction/method/KotlinInstanceMethodInvokeEmitter.java:113-128 | a trailing array with no elements after other arguments leaves the `", "` (and its wrap point) before it dangling |
| KotlinInvoke.ArgumentWrapPoints | src/main/java/org/spongepowered/despector/emitter/kotlin/instruction/method/KotlinInstanceMethodInvokeEmitter.java:109-130 | n arguments with no spread array give n - 1 wrap points; f fixed arguments and a spread array of m >= 1 elements give f + m - 1; every wrap point comes right after a `", "` |
| KotlinInvoke.SpreadArguments | src/main/java/org/spongepowered/despector/emitter/kotlin/instruction/method/KotlinInstanceMethodInvokeEmitter.java:109-130 | one fixed argument `s` and a trailing array of `a` and `b` give `s, a, b` with wrap points at 3 and 6 |
| KotlinInvoke.SpreadCall | src/main/java/org/spongepowered/despector/emitter/kotlin/instruction/method/KotlinInstanceMethodInvokeEmitter.java:71-131 | the call `info` on local slot 1 (`log`) of an instance method with those arguments prints `log.info(s, a, b)` with wrap points at 12 and 15 |
| KotlinInvoke.LocalReceiverHead | src/main/java/org/spongepowered/despector/emitter/kotlin/instruction/method/KotlinInstanceMethodInvokeEmitter.java:95-98 | local slot 1 of an instance method is rendered as the receiver, followed by `.` and the name |
| KotlinInvoke.RunSpecial | src/main/java/org/spongepowered/despector/emitter/kotlin/instruction/method/KotlinInstanceMethodInvokeEmitter.java:73-74 | a rewriter's attempt appends its text and reports whether it took the call |
| KotlinInvoke.EmitEntry | src/main/java/org/spongepowered/despector/emitter/kotlin/instruction/method/KotlinInstanceMethodInvokeEmitter.java:124-128 | one argument appends its rendering and, when more follow, `", "` with a wrap point right after it |
| KotlinInvoke.EmitSpread | src/main/java/org/spongepowered/despector/emitter/kotlin/instruction/method/KotlinInstanceMethodInvokeEmitter.java:114-121 | the inner loop appends the array's elements as a list of their own, after what is already written |
| KotlinInvoke.EmitArguments | src/main/java/org/spongepowered/despector/emitter/kotlin/instruction/method/KotlinInstanceMethodInvokeEmitter.java:110-129 | the outer loop appends the argument text and wrap points of the specification and ends as it does: completed or thrown at the first argument without a declared type |
| KotlinInvoke.EmitArgumentList | src/main/java/org/spongepowered/despector/emitter/kotlin/instruction/method/KotlinInstanceMethodInvokeEmitter.java:109-130 | `(`, the arguments, and `)` only when the loop completes |
| KotlinInvoke.KotlinInstanceMethodInvokeEmitter.constructor | src/main/java/org/spongepowered/despector/emitter/kotlin/instruction/method/KotlinInstanceMethodInvokeEmitter.java:52-68 | the static initializer fills the three tables with the registered keys, which is the emitter's validity condition |
| KotlinInvoke.KotlinInstanceMethodInvokeEmitter.TrySpecial | src/main/java/org/spongepowered/despector/emitter/kotlin/instruction/method/KotlinInstanceMethodInvokeEmitter.java:72-76 | the table lookup and attempt: the registered rewriter's text and verdict, or nothing and "declined" when none is registered |
| KotlinInvoke.KotlinInstanceMethodInvokeEmitter.EmitReceiver | src/main/java/org/spongepowered/despector/emitter/kotlin/instruction/method/KotlinInstanceMethodInvokeEmitter.java:88-103 | the receiver choice appends exactly the receiver text of the specification |
| KotlinInvoke.KotlinInstanceMethodInvokeEmitter.EmitHead | src/main/java/org/spongepowered/despector/emitter/kotlin/instruction/method/KotlinInstanceMethodInvokeEmitter.java:77-105 | appends `this`/`super` for a constructor, otherwise the receiver and the method name |
| KotlinInvoke.KotlinInstanceMethodInvokeEmitter.Emit | src/main/java/org/spongepowered/despector/emitter/kotlin/instruction/method/KotlinInstanceMethodInvokeEmitter.java:71-131 | on an emitter whose tables are the registered ones, the emitter appends exactly the text and wrap points of the specified invocation, placed where the output ended, and ends as it does; nothing else in the context changes |

## Left out

- The emitter context classes (`EmitterContext`, `JavaEmitterContext`) are not part of this model. Their primitives are modelled by the effect the emitters rely on:
  - `printString` appends; its conditional form appends only when the switch is on;
  - `newLine` appends a line break;
  - `indent`/`dedent` move the counter, and `dedent` refuses to go below zero;
  - `markWrapPoint` records the current output length.
- `printIndentation` is modelled as `indentationSize` spaces per level, or one tab per level, as the format chooses. Its real definition is not part of this model.
- Child rendering (`ctx.emit` for instructions, statements and conditions, `emitBody`, `emitType`) is an arbitrary function of its own arguments: the node and the expected type for `ctx.emit`, the statement and the semicolon flag for statements, the condition alone, and the descriptor alone for `emitType`. Only `emitBody` also receives the indentation level, so every other child renders the same at any depth (a `for` init clause, for instance). Wrap points and indentation changes made inside a child rendering are not modelled.
- `TypeHelper.splitSig` is an arbitrary function of the method descriptor. `ClassTypeSignature.of(d)` is the expected type `OfDescriptor(d)`; the `int` type is `IntType`; no expected type (`null`) is `NoType`.
- The special rewriters (`StringConcatEmitter`, `ListContainsEmitter`, `MapGetEmitter`, `MapPutEmitter`) are an oracle that returns whether it took the call and the text it wrote. Text written by a rewriter that declines stays in the output, since nothing in the emitter removes it. Wrap points and exceptions from rewriters are not modelled.
- The later line-wrapping pass that consumes the wrap points is out of scope.
- Null fields are not modelled: the callee, parameters, descriptor, sizes and array initializer are always present, so the null-dereference failures of the source do not arise. Only the exceptions the emitters themselves raise are modelled: `IllegalStateException` and `IndexOutOfBoundsException` from `param_types.get(i)`.
- The emitter registry and the dispatch that selects these emitters are out of scope.
