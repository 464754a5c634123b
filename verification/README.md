# A verified model of js55

js55 is a JavaScript engine. This project models the parts of it whose correctness is hardest to see from the code, and
proves what they are for. `dafny verify dfyconfig.toml` checks all of it.

The parts, and where to start reading:

- **Compiler and virtual machine.** `Source` gives functions a meaning with lexical scopes and no mention of slots, jumps
  or a stack. `CodeGen` gives them bytes, with every jump target known in advance; `CompilerRun` is the one-pass compiler
  that appends bytes and patches jumps, and emits the same bytes. `VmRun` is the dispatch loop. `CompilerCorrect` has the
  theorems: running the bytes is running the source, in both directions, for every amount of gas. `CaseLets`, `CaseScopes`
  and `Updates` say how far that goes for lets in switch cases and for `++` and `--`; `Aligned` shows that every jump
  lands on an instruction. Interpreter and machine share the functions that decide operators; `Operators` says what compiled
  runs of each operator come to without naming them, and `DeclaredNames` which names a function declares.
- **Recycled environments.** `EnvPool` is a machine with two ways of making the environment of a call, and shows that no
  program can tell them apart. `FrameEnv` decodes bytecode into that machine, with the static check that decides which
  calls may recycle: with that check, and jumps that land on instructions, the theorem applies. The check does not look
  where jumps go, and needs them to land (`FrameEnv.AstrayVisible`); `CompiledPool` shows that the compiler's do.
  `FrameEnv` also has the pool operations in place. `EnvLaws` says what a call, return, throw, variable access and
  suspension of that machine do, since both ways share the functions for them.
- **Regular expressions.** `Regexp` is the backtracking matcher with its continuations made explicit, a declarative match
  relation, and the proof that the search is sound, complete and leftmost. `RegexpLaws` says of the answers what anchors,
  literals, dots and classes accept. `RegexpRun` changes captures and gas in place.
- **Managed heap.** `Heap` has handles and slots: none is reissued or revived. `HeapGc` is the collector, its
  roots told by the place each stands in; `HeapCheck` says exactly what survives, and when the survivors' references all resolve.
- **Shared realm.** `Shapes` and `Properties` are hidden classes and the properties of one object. `Overlay` and
  `OverlayRuns` are the isolate's copy-on-write view of the frozen realm, shown to refine a private deep copy, with the
  exact condition under which a step writes the realm; `OverlayHeap` is the heap that does it in place, `Realm` the
  sealing. `Descriptors` has Object.defineProperty, and `Sharing` the invariants of section 6.1.7.3 of ECMA-262 over runs
  on several objects, whose accessors may share the cells that hold their functions. `ObjectLaws` and `SharingLaws` say
  what each single operation of these leaves behind.
- **Expressions.** `Syntax` is the tree and the printer, `Parser` the recursive descent, `RoundTrip` the proof that
  parsing undoes printing, `Precedence` the proof that climbing builds the one tree the table allows. `Productions` has
  the operators' grammar by its productions, and shows that the parser accepts and returns exactly its derivations;
  `ParserLaws` that every tree the parser returns is one of the grammar's and reads back. `ParserRun` is both as they run.
- **Numbers as text.** `Decimal` and `BigDecimal` are multi-limb arithmetic, `DoubleText` the exact expansion of a double
  and its rounding, `NumberText` and `NumberEmit` the ECMAScript layout, `TextForm` its form character by
  character, `NumberParse` its inverse, `DoubleRoundTrip` the
  two together, `DoubleApart` the proof that seventeen digits tell doubles apart.
- **Normals kernel.** `Normals` and `NormalsKernel` are the resumable computation and its independence of how the budget
  is sliced, `NormalsMeaning` what it computes where arithmetic is exact, `NormalsQuota` what it costs.
- **Promises.** `Promises` is settlement and the microtask queue as a protocol, `PromiseLaws` what a job and a settlement
  hand on, `PromiseAll` what Promise.all comes to, `PromiseVm` the operations in place.

Modelling choices that hold throughout: floating-point operations are parameters about which nothing is assumed, except in
`NormalsMeaning`, which is about arithmetic without rounding; strings
are sequences of characters; an exception or panic of the source is an error result; interrupts, clocks and quotas of
bytes are parameters or left out. Go's 64-bit words are natural numbers with the wrap-around written where it can happen.
What a method changes in place is proved equal to a function of the old state, and the theorems are about those functions.

Where the code does not do what it is meant to, the model follows the code. There is a concrete case, and the exact condition:

- A switch opens no scope, so a let in a case assigns to the variable it should hide (`CaseLets.CaseLetEscapes`) or, with
  no such variable around it, is in scope from there to the end of the enclosing block (`CaseLets.CaseLetLeaks`,
  `CaseScopes.ScopeAfter`). Without such lets compiled code is right (`CompilerCorrect.RunIsSource`); with lets of the first
  kind it runs as the function in which they are assignments (`CaseLets.RunIsPlain`), so it is right exactly when that
  function and the original run alike.
- `++` and `--` add the number 1 to their operand without converting it, so they join strings (`Updates.CountsText`) and
  throw on BigInts (`Updates.CountsBigInt`). They are right exactly for operands that the conversion and the unit of their
  type leave as good as they are: prefix for all but strings, BigInts and symbols, postfix for numbers
  (`Updates.UpdateExact`, `Updates.UpdateByKind`); a run that counts nothing but numbers is right as a whole
  (`Updates.RunIsLanguage`).
- `Promise.call(p, f)` on an existing promise starts it over: a settled one is settled twice, a pending one loses its
  reactions (`PromiseRuns.SettledTwice`, `PromiseRuns.ReactionLost`). Everything is kept exactly in the runs without such a
  call on a promise that is settled or has reactions (`PromiseRuns.KeptExactly`); Promise.all also needs that there is none
  on its own promise (`PromiseAll.AllOutcome`, `PromiseAll.TakenFails`).
- Constructors write their receiver without preparing it, so `Map.call(Object.prototype)` changes every isolate
  (`Realm.RealmLeaks`). So do accessors in literals with the cell they find, and a spread copies cells:
  `({...RegExp.prototype, get source() { .. }})` changes every isolate's regular expressions (`Realm.RealmGetterLeaks`, and
  for any realm accessor `Realm.SpreadLeaks`). Of the steps modelled these two write the realm, exactly when the object they
  find is the realm's, has no clone and is changed (`OverlayRuns.DoKeepsRealm`, `OverlayRuns.RunKeepsRealm`). Defining an
  indexed property of an array would write a realm array through a stale pointer (`OverlayRuns.StalePointer`), but there is
  no realm array (`OverlayRuns.IndexedKeepsRealm`).
- Since a spread copies the cell of an accessor, a definition on one object changes the getter of another, frozen or not
  (`Sharing.SharedGetter`). An accessor keeps its functions exactly in the runs without a definition of other functions
  through a property in its cell (`Sharing.RunFunctions`); one can come exactly while a configurable property is in the cell
  (`Sharing.Exposed`, `Sharing.ChangeableAgain`).
- `o["x"]` gives the cell of an accessor where `o.x` calls its getter, and a cell that is stored in a data property makes an
  accessor of it, configurable or not (`Sharing.CellRecasts`). The invariants of objects are kept exactly in the runs that
  store no cell over a property that is not configurable (`Sharing.RunKeeps`).
- An ordinary map that survives only as the value of a weak map's entry keeps a key that does not survive
  (`HeapCheck.WeakMapDangles`); when the survivors of a collection are closed is `HeapCheck.SurvivorsClosedExactly`.
- A write to a deleted property whose slot was read-only revives it as undefined (`Properties.ReadAfterWrite`,
  `Properties.RevivedUnstored`). The list of deleted keys is filtered by identity but searched by text, so an entry made in
  another heap keeps the property deleted; the same condition covers it.
- A getter defined over a read-only configurable property is accepted and lost (`Descriptors.AccessorInstalled`,
  `Descriptors.GetterLost`).
- The parser bounds its depth, so a deeply nested expression prints to text it refuses (`RoundTrip.ParsePrint`).
- Integers of more than 64 bits written out in full are not read back (`DoubleRoundTrip.DoubleReadsBack`).

Two names whose slots agree in the low 16 bits share one (`CompilerCorrect.SlotsAlias`); that is why the compiler's theorems
ask for at most 65536 slots. When a larger function goes wrong is not said.

## Model
| member | source | states |
|---|---|---|
| Regexp.SearchRight | pkg/js55/engine/jsre.go:814-852 | For every pattern without back references, subject, allowance and interrupt schedule: a match found starts at the least position where the pattern matches at all and ends where the declarative relation allows; "no match" means no start has one; any other answer means the run was interrupted, ran out of gas or the subject is over the bound. What single nodes accept is the next rows' |
| RegexpLaws.AnchorIs | pkg/js55/engine/jsre.go:1057-1084 | An anchor at any place of a pattern: ^ is passed at the start, $ at the end, with the multiline flag also after and before a rune that is 10, 13, 0x2028 or 0x2029, \b exactly between a word rune and none, \B exactly elsewhere; what is found passes it and nothing that does is missed |
| RegexpLaws.CaretStarts | pkg/js55/engine/jsre.go:1057-1060 | Without the multiline flag a search for ^ and a rest answers with a match of the rest from 0, exactly where there is one |
| RegexpLaws.DollarEnds | pkg/js55/engine/jsre.go:1061-1070 | and for a rest and $ with the first match of the rest up to the end, exactly where there is one |
| RegexpLaws.RuneIs | pkg/js55/engine/jsre.go:861-890 | A literal, a dot or a class at any place takes exactly one rune: the literal's, or with the ignore-case flag one of the same lower case; any but a line break, or any at all with the dotAll flag; one that is listed, itself or by its cases under the flag, or with negation one that is not |
| RegexpLaws.ClassOrNegation | pkg/js55/engine/jsre.go:691-712 | Of a class and its negation exactly one finds a rune |
| RegexpLaws.LiteralIsItself | pkg/js55/engine/jsre.go:1086-1094 | Without the ignore-case flag a literal finds the first rune equal to it, and misses none |
| Regexp.EndsIffMatches | pkg/js55/engine/jsre.go:854-1084 | The ends the backtracking order lists are exactly those of the declarative match relation, in spite of the repeat cap and the empty-iteration rules |
| Regexp.RepSound | pkg/js55/engine/jsre.go:917-968 | Every end of a repeat is reached by a number of iterations between its bounds |
| Regexp.RepComplete | pkg/js55/engine/jsre.go:917-968 | Any number of iterations between the bounds is found again, with the cap of remaining length + 1 and empty iterations cut |
| Regexp.SeqIffMatches | pkg/js55/engine/jsre.go:891-901 | A concatenation ends where its parts, matched one after another, end |
| Regexp.AltIffMatches | pkg/js55/engine/jsre.go:902-916 | An alternation ends where one of its branches does |
| Regexp.BehindIff | pkg/js55/engine/jsre.go:989-1033 | A lookbehind holds exactly if its body matches some stretch that ends here |
| Regexp.ExecRight | pkg/js55/engine/jsre.go:854-1084 | Continuation-passing search: success goes with the first listed end whose continuation succeeds, and the outermost continuation records that end; failure without abort means there is none |
| Regexp.ResumeRight | pkg/js55/engine/jsre.go:854-1084 | The same for a defunctionalised continuation, whatever part of the pattern it still has to match |
| Regexp.TakeRight | pkg/js55/engine/jsre.go:917-968 | The same for the iterations of a repeat, greedy first |
| Regexp.TakeLazyRight | pkg/js55/engine/jsre.go:917-968 | The same for a lazy repeat, which tries to stop first |
| Regexp.LookRight | pkg/js55/engine/jsre.go:989-1033 | Lookaround answers whether its body matches, unless the run was aborted |
| Regexp.SearchFromRight | pkg/js55/engine/jsre.go:814-852 | From any start position on, the answer is right for the positions from there |
| Regexp.GasOnlyStops | pkg/js55/engine/jsre.go:761-790 | Two allowances that both give an answer give the same one |
| RegexpRun.Run.Charge | pkg/js55/engine/jsre.go:776-790 | Takes from the allowance in place; once it is used up the run is aborted for good |
| RegexpRun.Run.Enter | pkg/js55/engine/jsre.go:761-771 | Counts a step, polls for interruption and charges for the node |
| RegexpRun.Run.Exec | pkg/js55/engine/jsre.go:854-1084 | The matcher with its captures changed in place does what the specification on values does |
| RegexpRun.Run.ExecAlt | pkg/js55/engine/jsre.go:902-916 | The loop over branches is the specification of alternatives |
| RegexpRun.Run.Take | pkg/js55/engine/jsre.go:917-968 | An iteration of a repeat, in place |
| RegexpRun.Run.LookBehind | pkg/js55/engine/jsre.go:989-1033 | The loop over possible starts of a lookbehind |
| RegexpRun.Run.SearchLoop | pkg/js55/engine/jsre.go:814-852 | The loop over start positions |
| RegexpRun.FindSubmatchIndex | pkg/js55/engine/jsre.go:792-852 | The entry point in place answers as the search that those theorems are about, with the default allowance where none is given |
| CompilerCorrect.SimFunction | pkg/js55/engine/compile.go:2639-2750 | Where no case of a switch declares a let: compiled code, run for enough steps, reaches the source interpreter's outcome and globals; while the interpreter has not finished, the machine is still going |
| CompilerCorrect.RunIsSource | pkg/js55/engine/vm.go:545-627 | Where no case of a switch declares a let: whatever the gas, a run that is not cut short ends with the interpreter's value or exception and globals, ++ and -- adding to their operand as it is, and never faults |
| CompilerCorrect.SourceIsRun | pkg/js55/engine/vm.go:545-627 | and an interpreter run that ends is reproduced by every large enough amount of gas |
| Operators.CoalesceIs | pkg/js55/engine/compile.go:2039-2045 | In every function: a compiled run of a ?? b comes to what `a, b` comes to when a is undefined or null, and otherwise to what a comes to, its globals and so b unevaluated |
| Operators.LogicalIs | pkg/js55/engine/compile.go:2030-2052 | Likewise for the logical and/or, by whether a counts as true: all values do but undefined, null, false, the zeros of both kinds of number and of BigInt, NaN and the empty string |
| Operators.CondIs | pkg/js55/engine/compile.go:2053-2061 | A conditional comes to the branch its test takes, and throws with the test |
| Operators.NegationsAre | pkg/js55/engine/vm.go:1177-1221 | ! takes the other branch of a conditional and is false or true by it, !== and != are ! of === and ==, void is undefined after its operand: compiled runs of the two sides have the same outcomes |
| Operators.BinaryIs | pkg/js55/engine/vm.go:1177-1206 | A binary operator evaluates its operands in order and gives what its own primitive gives for the two, or throws what that throws |
| Operators.UnaryIs | pkg/js55/engine/vm.go:1208-1221 | and a unary operator for the one |
| Operators.GlobalReadIs | pkg/js55/engine/vm.go:1302-1315 | Reading a global throws a ReferenceError when it is not bound or not yet declared, and gives its value otherwise |
| Operators.GlobalTypeofIs | pkg/js55/engine/vm.go:1345-1353 | typeof a global that is not bound is that of undefined |
| Operators.GlobalWriteIs | pkg/js55/engine/vm.go:1316-1332 | Assigning to a global stores the value and yields it; in strict code one to a global that is not bound throws and stores nothing, as does one to a global not yet declared |
| Operators.OneOutcome | pkg/js55/engine/vm.go:545-627 | A compiled run has at most one outcome, so these laws say what it is |
| Operators.ExecNames | pkg/js55/engine/compile.go:431-741 | No statement changes which names are in scope around it |
| DeclaredNames.VarNamesAre | pkg/js55/engine/compile.go:245-336 | The vars hoisted for a statement are those declared anywhere inside it, at any depth |
| DeclaredNames.LexNamesAre | pkg/js55/engine/compile.go:168-205 | and the lets hoisted for a body those its own statements declare |
| DeclaredNames.GrammaticalIsWf | pkg/js55/engine/compile.go:168-336 | Every function of the grammar whose breaks and continues have targets is one the compiler theorems apply to |
| CompilerCorrect.InitRelated | pkg/js55/engine/vm.go:1852-2012 | A fresh call's slots hold the parameters, the arguments and the hoisted vars the interpreter starts with |
| CompilerCorrect.ParamSlotsRight | pkg/js55/engine/compile.go:2639-2750 | Each parameter has the slot of its last occurrence and finds its argument there |
| CompilerCorrect.SlotsAlias | pkg/js55/engine/compile.go:163 | Accesses to two names compile alike exactly when their slots agree in 16 bits |
| CaseLets.RunIsPlain | pkg/js55/engine/compile.go:659-714 | For every function in which something around each declaration has its name in scope, lets in cases included: the compiled run is the source run of the function with the lets of cases turned into assignments, so it is right for the function itself exactly when those two source runs agree |
| CaseLets.SameCode | pkg/js55/engine/compile.go:1632-1715 | A let in a case whose name something around it declares compiles to the bytes of an assignment |
| CaseLets.PlainFunctionSame | pkg/js55/engine/compile.go:659-714 | Without lets in cases that is the function itself |
| CaseLets.CaseLetEscapes | pkg/js55/engine/compile.go:659-714 | A let in a case overwrites the variable it should hide: the concrete function means 1 and returns 5 |
| CaseLets.CaseLetLeaks | pkg/js55/engine/compile.go:51-59 | With nothing around it of its name, the let is a variable of what encloses the switch and hides a global in the text that follows: the concrete function compiles to the bytes of the one that declares it as a var |
| CaseScopes.ScopeAfter | pkg/js55/engine/compile.go:51-59 | For every statement: the names in scope after it are those before it, each at its slot, and the ones it declares outside the blocks and for loops it opens; so a let in a case is in scope, at a slot of its own if nothing around it has the name, up to the end of the enclosing block, and not before |
| Updates.UpdateExact | pkg/js55/engine/compile.go:1954-1970 | ++ and -- do what section 13.4 of ECMA-262 asks exactly when converting the operand, and counting in units of its type, makes no difference to the sum and, for the postfix forms, to the old value |
| Updates.UpdateByKind | pkg/js55/engine/vm.go:2115-2145 | By the laws of conversion and of the machine's addition that is: prefix, for every operand that is not a string, a BigInt or a symbol; postfix, for numbers only; objects aside |
| Updates.CountsText | pkg/js55/engine/compile.go:1954-1970 | Counting up from the string 5 gives the string 51 and yields the string 5, not 6 and the number 5 |
| Updates.CountsBigInt | pkg/js55/engine/vm.go:2115-2124 | Counting up from 1n throws, prefix or postfix, where the language makes it 2n |
| Updates.RunIsLanguage | pkg/js55/engine/vm.go:545-627 | A whole compiled run is what the language asks of the function, conversions and units included, if the run counts nothing that they would change |
| Aligned.JumpsLand | pkg/js55/engine/compile.go:431-741 | Compiled code is the bytes of whole instructions from the first to the last, and every jump in it, taken or not, lands on the start of one or on the end |
| Simulation.SimE | pkg/js55/engine/compile.go:1851-2347 | Every expression of the fragment pushes exactly one value, the interpreter's, or throws its exception, and ends just after its code |
| Simulation.SimLogical | pkg/js55/engine/compile.go:2030-2052 | The logical operators evaluate their right side only when they must, and leave one value; which values those are is Operators.LogicalIs |
| Simulation.SimCond | pkg/js55/engine/compile.go:2053-2061 | A conditional runs one branch |
| Simulation.SimAssignOp | pkg/js55/engine/compile.go:2509-2587 | Compound assignment reads, computes, stores and yields the stored value |
| Simulation.SimUpdate | pkg/js55/engine/compile.go:1954-2020 | Prefix and postfix updates add to the value of the variable as it is, store, and yield the new or the old value |
| Simulation.SimSequence | pkg/js55/engine/compile.go:2065-2072 | A sequence drops all values but the last |
| StatementSim.SimS | pkg/js55/engine/compile.go:431-741 | Every statement leaves the operand stack as it was and lands where its outcome says: after it, at the target of a break or continue, or out of the frame |
| StatementSim.SimL | pkg/js55/engine/compile.go:460-473 | So does a list of statements |
| StatementSim.SimBlock | pkg/js55/engine/compile.go:460-473 | A block's let names live in slots of their own, dead until declared, and end with it |
| StatementSim.SimIf | pkg/js55/engine/compile.go:474-489 | An if runs the branch its test selects |
| StatementSim.SimWhile | pkg/js55/engine/compile.go:490-503 | A while loop, for any number of iterations and any way out of its body |
| StatementSim.SimDo | pkg/js55/engine/compile.go:504-515 | A do loop, continue going on with its test |
| StatementSim.SimFor | pkg/js55/engine/compile.go:516-553 | A for loop with its own scope for let, optional parts, and continue going on with its update |
| StatementSim.SimSwitch | pkg/js55/engine/compile.go:659-714 | A switch compares its tests in order, enters at the case found or the last default, and falls through; no case declares a let |
| StatementSim.SimJump | pkg/js55/engine/compile.go:554-569 | Break and continue reach the statement that the innermost fitting label or loop is |
| StatementSim.SimVar | pkg/js55/engine/compile.go:1632-1715 | Declarations initialise their slots, let names without a value to undefined |
| StatementSim.SimHoist | pkg/js55/engine/compile.go:168-243 | Hoisting gives every let name of a scope a slot of its own, holding the dead-zone token |
| Bytecode.OpRoundTrip | pkg/js55/engine/chunk.go:119-138 | Opcode bytes decode to the opcode they encode |
| Bytecode.WordRoundTrip | pkg/js55/engine/chunk.go:134-138 | A 32-bit operand is read back as written |
| Bytecode.SignedRoundTrip | pkg/js55/engine/vm.go:999-1009 | A relative jump distance within 32 bits is read back with its sign |
| Bytecode.StepsAdd | pkg/js55/engine/vm.go:1011-1580 | Running a steps and then b is running a + b |
| Bytecode.RunGasIsSteps | pkg/js55/engine/vm.go:545-627 | A gas-bounded run that is not exhausted is a number of steps within the gas |
| Bytecode.EnoughGas | pkg/js55/engine/vm.go:545-627 | More gas than steps gives the halting result |
| CodeGen.AddConst | pkg/js55/engine/chunk.go:149-177 | The constant is in the table at the index returned, and what was there before stays where it was |
| CompilerRun.Compiler.Append | pkg/js55/engine/chunk.go:119-124 | Emitting appends bytes; the finished code grows by them |
| CompilerRun.Compiler.EmitJump | pkg/js55/engine/compile.go:431-741 | A forward jump is emitted with an empty operand that is recorded as open |
| CompilerRun.Compiler.Patch32 | pkg/js55/engine/chunk.go:142-144 | Patching fills in exactly the operand of one open jump |
| CompilerRun.Compiler.Land | pkg/js55/engine/compile.go:431-741 | A jump patched here leads here |
| CompilerRun.Compiler.ConstOp | pkg/js55/engine/chunk.go:149-177 | An instruction on a constant carries its index |
| CompilerRun.Compiler.PushLoop | pkg/js55/engine/compile.go:1537-1542 | Opens a statement that breaks and continues can name |
| CompilerRun.Compiler.PopLoop | pkg/js55/engine/compile.go:1618-1630 | Closes it: all its waiting breaks and continues get their targets |
| CompilerRun.Compiler.FindBreak | pkg/js55/engine/compile.go:1586-1599 | The innermost statement a break leaves |
| CompilerRun.Compiler.FindContinue | pkg/js55/engine/compile.go:1601-1616 | The innermost loop a continue goes on with |
| CompilerRun.Compiler.HoistLexicals | pkg/js55/engine/compile.go:168-243 | Gives let names their slots and emits the dead-zone stores |
| CompilerRun.Compiler.CompileDecls | pkg/js55/engine/compile.go:1632-1715 | Declarations in order: initialiser, then the slot of the name, a new one if it has none in the scope, then the store |
| CompilerRun.Compiler.Expr | pkg/js55/engine/compile.go:1851-2347 | The one-pass compiler emits, for an expression, the code whose meaning is proved |
| CompilerRun.Compiler.Stmt | pkg/js55/engine/compile.go:431-741 | The same for a statement, all its inner jumps being patched on return, and the names a declaration outside a hoisted scope adds kept to the end of that scope |
| CompilerRun.Compiler.CompileSwitch | pkg/js55/engine/compile.go:659-714 | The layout of tests, entries that drop the subject, and bodies |
| CompilerRun.CompileFunction | pkg/js55/engine/compile.go:2639-2750 | The bytes the imperative compiler leaves are those of the specification, back-patching and all, for every function whose breaks and continues have targets |
| VmRun.Vm.Step | pkg/js55/engine/vm.go:1011-1580 | One turn of the dispatch loop changes the machine in place as the specification does |
| VmRun.Vm.ApplyJump | pkg/js55/engine/vm.go:999-1009 | Jumps move the instruction pointer, or fault outside the code |
| VmRun.Vm.Interpret | pkg/js55/engine/vm.go:545-627 | The loop with its gas is the bounded run of the theorems |
| VmRun.CallFunction | pkg/js55/engine/vm.go:545-627 | Compiling any function whose breaks and continues have targets and running it is the bounded run of its code, which the Operators rows pin; where its declared names are in scope that gives the source interpreter's outcome and globals, unless the gas runs out, lets in cases read as assignments |
| EnvPoolRefines.PoolInvisible | pkg/js55/engine/frame_env.go:57-103 | From any start, after any number of steps, a machine that recycles environments and one that always makes new ones have the same result, or the same operand stack, globals, properties and frames |
| EnvPoolRefines.RunRel | pkg/js55/engine/vm.go:545-627 | Related machines stay related for any number of steps |
| EnvPoolRefines.StepRel | pkg/js55/engine/vm.go:1011-1580 | Every instruction, call, return, throw, catch, suspension and resumption keeps the relation: pooled environments are unaliased, distinct, all undefined, and reached by nothing |
| EnvPoolRefines.ExecuteRel | pkg/js55/engine/vm.go:1011-1580 | In a safe frame no regular instruction lets the environment escape; in any other frame closures, arguments objects, yields and the rest keep the relation |
| EnvPoolRefines.CallRel | pkg/js55/engine/vm.go:1852-2012 | Calls of any callee with any number of arguments keep the relation |
| EnvPoolRefines.SafeEnter | pkg/js55/engine/vm.go:1947-2011 | A frame entered on a recycled environment cannot be told from one on a new environment |
| EnvPoolRefines.ReturnRel | pkg/js55/engine/vm.go:958-973 | Returning gives the environment back without effect on anything else |
| EnvPoolRefines.UnwindRel | pkg/js55/engine/vm.go:663-706 | Unwinding frames to a handler does too |
| EnvPoolRefines.CatchRel | pkg/js55/engine/vm.go:663-706 | The innermost handler is the same one in both machines, and catches the same value |
| EnvPoolRefines.ReadRel | pkg/js55/engine/vm.go:1583-1598 | Variables read the same through chains of environments |
| EnvPoolRefines.WriteRel | pkg/js55/engine/vm.go:1600-1616 | and are written the same |
| EnvPoolRefines.ResumeRel | pkg/js55/engine/builtins_generator.go:224-270 | A suspended generator goes on with its own environment, operands and place in both |
| EnvPoolRefines.SuspendRel | pkg/js55/engine/builtins_generator.go:272-310 | Yield and await take the frame off the stack and leave its environment, operands and place with the generator, alike in both |
| EnvPoolRefines.PropRel | pkg/js55/engine/heap.go:904-960 | Elements of an arguments object read and write the variables of its call alike in both |
| EnvPoolRefines.TrackedStep | pkg/js55/engine/vm.go:545-627 | A frame of a safe chunk whose jumps land on instructions is always at the start of one, for every step of every frame |
| EnvLaws.CallBinds | pkg/js55/engine/vm.go:1852-2012 | A call starts its function at the beginning on an environment inside the function's: parameter i holds argument i, or undefined where there is none, the arguments object and the function itself are in their slots, all other locals are undefined; an arguments object is mapped to all parameters in sloppy code and to none in strict; callee and arguments leave the operands; no other environment changes |
| EnvLaws.CallRefused | pkg/js55/engine/vm.go:1852-1885 | A call past the bound on nesting throws, as does one of what is neither a function nor a generator |
| EnvLaws.PoolStaysClean | pkg/js55/engine/frame_env.go:57-103 | In every run of a program with regular safe chunks the idle environments are empty, which is what a call on a recycled one needs for that |
| EnvLaws.Recycled | pkg/js55/engine/frame_env.go:57-103 | While fewer than 64 are idle and fewer than frames may be nested, the environment a safe call gives back is the one the next safe call gets |
| EnvLaws.ReturnGives | pkg/js55/engine/vm.go:958-973 | A return leaves its value on the caller's operands as the call left them, and ends the run from the outermost frame |
| EnvLaws.HaltGives | pkg/js55/engine/vm.go:1475-1480 | The end of a script gives the value on top of its operands, or undefined |
| EnvLaws.WalkIs | pkg/js55/engine/vm.go:1583-1598 | A variable some scopes out is found by as many links outwards |
| EnvLaws.AssignedIsRead | pkg/js55/engine/vm.go:1600-1616 | An assignment changes the one variable it names, for every frame and depth that sees it, and no other |
| EnvLaws.ClosureKeeps | pkg/js55/engine/vm.go:1462-1500 | A function that is made closes over the environment of the frame that makes it |
| EnvLaws.ArgumentsShare | pkg/js55/engine/heap.go:904-960 | The mapped elements of an arguments object are the variables of its call, read and written |
| EnvLaws.JumpGoes | pkg/js55/engine/vm.go:1412-1421 | A jump goes to its target, a conditional one exactly when its operand counts as false, or as true |
| EnvLaws.InnermostHandler | pkg/js55/engine/vm.go:663-706 | The handler chosen is the one around the place with the shortest range, the first of those |
| EnvLaws.ThrowCaught | pkg/js55/engine/vm.go:663-706 | A thrown value goes on at that handler's catch, in its variable and alone on the frame's operands |
| EnvLaws.ThrowPasses | pkg/js55/engine/vm.go:663-706 | Without a handler the frame is left, its environment given back, and the caller is asked; past the last the run ends with the value |
| EnvLaws.GeneratorMade | pkg/js55/engine/vm.go:1947-2011 | Calling a generator function runs nothing of it and gives an object on an environment that holds the arguments |
| EnvLaws.SuspendGives | pkg/js55/engine/builtins_generator.go:272-310 | A yield hands its operand to whoever asked |
| EnvLaws.SuspendThenResume | pkg/js55/engine/builtins_generator.go:224-310 | and being asked again goes on at the same place with the same environment and operands and the value sent |
| FrameEnv.RegularFrameBody | pkg/js55/engine/frame_env.go:9-50 | The scan accepts a chunk exactly when it is plain, not empty, and every instruction of it, from boundary to boundary, is on the list and whole, its variable accesses its own |
| FrameEnv.AcceptedIsRegular | pkg/js55/engine/frame_env.go:9-50 | What the scan accepts decodes to code of the environment machine that is regular: reading from the first byte on, no closure, no suspension, and only its own variables |
| FrameEnv.MustExclude | pkg/js55/engine/frame_env.go:9-50 | In a plain chunk yield and await are the only opcodes besides variable accesses that the list has to keep out; all others it leaves out see nothing of the environment |
| FrameEnv.ScanEnough | pkg/js55/engine/frame_env.go:9-50 | Programs given as bytes, recycling decided by the scan: from any start, after any number of steps, the pool is not observable, provided that in what the scan accepts every jump and handler lands on the start of an instruction |
| FrameEnv.AstrayVisible | pkg/js55/engine/frame_env.go:9-50 | The proviso is needed: a jump into an operand, in a chunk the scan accepts, and the run with the pool goes on where the run without it faults |
| CompiledPool.CompiledLands | pkg/js55/engine/compile.go:431-741 | The bytes the compiler emits meet that proviso, read as the pool's machine reads them |
| CompiledPool.ReadsWhatIsWritten | pkg/js55/engine/vm.go:1011-1580 | Each instruction the compiler writes is read as the access, jump, literal, closure, return or throw that it is, with its operand; all others as one that sees the operands and the store alone |
| CompiledPool.CompiledScanEnough | pkg/js55/engine/frame_env.go:9-50 | so with accepted chunks that are the compiler's the pool is not observable, and nothing is asked of jumps |
| FrameEnv.Vm.AcquireFrameEnv | pkg/js55/engine/frame_env.go:57-81 | Takes a pooled environment that is large enough or makes a new one |
| FrameEnv.Vm.ReleaseFrameEnv | pkg/js55/engine/frame_env.go:85-103 | Clears the environment and keeps it while there is room |
| FrameEnv.Vm.RestoreFrameBoundary | pkg/js55/engine/frame_env.go:128-141 | Abandons every frame above a boundary, recycling their environments |
| FrameEnv.RestoreRel | pkg/js55/engine/frame_env.go:128-141 | Abandoning frames is not observable either |
| Handles.WordRoundTrip | pkg/js55/engine/value.go:96-98 | A handle and its 48-bit word determine each other |
| Handles.RootTag | pkg/js55/engine/value.go:101-117 | Tagging and stripping the realm bit undo each other, and a realm handle is never a local one |
| Handles.ValueRoundTrip | pkg/js55/engine/value.go:146-162 | Only object references hold a handle, and give it back; no number is taken for one |
| HeapSlots.TakeRight | pkg/js55/engine/heap.go:626-671 | Taking a slot gives a handle that resolves to the new cell and was never given out |
| HeapSlots.SweptRight | pkg/js55/engine/heap.go:1257-1289 | Sweeping keeps the slots well formed, saturated generations included |
| HeapSlots.ResetRight | pkg/js55/engine/heap.go:542-564 | So does resetting the heap around the global object |
| HeapSlots.Step | pkg/js55/engine/heap.go:542-671 | Every operation keeps what the two theorems below need |
| HeapSlots.NeverReissued | pkg/js55/engine/heap.go:626-671 | Over any interleaving of allocations, collections and resets, no handle is given out twice |
| HeapSlots.DeadForever | pkg/js55/engine/heap.go:440-462 | A handle that no longer resolves never resolves again |
| Reachability.ChainInside | pkg/js55/engine/heap.go:1083-1201 | A closed set that holds the roots holds all they reach |
| Reachability.AliveClosed | pkg/js55/engine/heap.go:1083-1201 | What the roots reach is such a set |
| Reachability.AliveLeast | pkg/js55/engine/heap.go:1083-1201 | and the least one: marking that stops between them has marked exactly it |
| Reachability.EdgesRight | pkg/js55/engine/heap.go:1083-1201 | The edges the scan follows are those of the declarative definition, for each of the two passes |
| Reachability.LeadsRight | pkg/js55/engine/heap.go:1068-1081 | References to realm objects count for their private clones |
| HeapGc.VmNamesAre | pkg/js55/engine/vm.go:208-238 | The machine's roots are exactly: of each frame the environment, callee and new target, each global and module export, the stacks of this and new targets, the safe environments, the three kept values, what each job holds, the global object and the generator prototype |
| HeapGc.NamesAre | pkg/js55/engine/heap.go:1108-1131 | The heap's roots are exactly: those, its explicit roots, its stack, its scanners' values and the three intrinsic prototypes |
| HeapGc.RootedAre | pkg/js55/engine/heap.go:1068-1131 | A slot is a root exactly when one of them names its cell, or the private clone of a realm object it names, or it is such a clone |
| HeapGc.TrailLive | pkg/js55/engine/heap.go:1083-1201 | Every trail of references that begins at one of them stays in what the roots reach |
| HeapGc.TrailKept | pkg/js55/engine/heap.go:1083-1289 | so what is at its end is still there, unchanged but for dropped entries of weak maps |
| HeapGc.EntriesLeftAre | pkg/js55/engine/heap.go:1203-1226 | A weak map keeps exactly the entries whose keys are marked at the time |
| HeapGc.Heap.MarkRoots | pkg/js55/engine/heap.go:1083-1131 | Marks a slot exactly when a root names it: the explicit roots, the stack, each frame's environment, callee and new target and the rest of the machine's, the clones and the intrinsic prototypes, each by its place in its list |
| HeapGc.Collector.Scan | pkg/js55/engine/heap.go:1083-1201 | Visits every edge of one cell |
| HeapGc.Collector.Drain | pkg/js55/engine/heap.go:1083-1201 | The worklist terminates with the marks closed, and marks nothing outside any closed set it started in |
| HeapGc.Heap.Mark | pkg/js55/engine/heap.go:1083-1201 | Marks exactly what the roots reach |
| HeapGc.Heap.WeakPass | pkg/js55/engine/heap.go:1203-1226 | Marks exactly what the entries of weak maps with live keys lead to, and leaves each weak map exactly those entries; without weak maps it changes nothing |
| HeapGc.Heap.Sweep | pkg/js55/engine/heap.go:1257-1289 | Frees every unmarked cell and moves its slot to the next generation |
| HeapGc.Heap.Collect | pkg/js55/engine/heap.go:1083-1289 | Exactly the cells that the roots reach, and those that weak entries of live keys lead to in the second pass, survive, unchanged but for the entries dropped; in particular the cell every frame, global, stack entry or explicit root names, and all that trails of references from there lead to, is still there |
| HeapGc.Heap.Alloc | pkg/js55/engine/heap.go:626-671 | The new handle was never given out, no dead handle comes back, and what the roots reach survives a collection on the way |
| HeapGc.Heap.MaybeCollect | pkg/js55/engine/heap.go:626-671 | Collects in stress mode or past the threshold, sparing what the roots reach |
| HeapGc.Heap.TakeSlot | pkg/js55/engine/heap.go:626-671 | The free list and generation handling of an allocation |
| HeapGc.Heap.ResetLocal | pkg/js55/engine/heap.go:542-564 | Every handle but the global object's dies; that object is left without slots and elements, with the object prototype if there is one, the rest of it as it was |
| HeapCheck.SurvivorsExact | pkg/js55/engine/heap.go:1257-1289 | After a collection a cell is there, unchanged, exactly if it was reached; the handles of the others are dead |
| HeapCheck.CollectSound | pkg/js55/engine/heap.go:1083-1340 | Without weak maps a heap whose references all resolve is left so, each reference naming the cell it did |
| HeapCheck.CheckHeap | pkg/js55/engine/heap.go:1296-1340 | The check succeeds exactly when every reference it looks at resolves |
| HeapCheck.SoundIsChecked | pkg/js55/engine/heap.go:1296-1340 | A heap whose references all resolve passes the check |
| HeapCheck.CollectAndCheck | pkg/js55/engine/heap.go:1083-1340 | The check after a collection succeeds |
| HeapCheck.SurvivorsClosedExactly | pkg/js55/engine/heap.go:1203-1289 | For every heap whose kept cells hold references that resolve, weak maps included: after a collection the survivors' references all resolve exactly when no cell kept only for weak entries has a map, set, promise, proxy or generator reference to one that is not kept, which can be told before |
| HeapCheck.CollectExactly | pkg/js55/engine/heap.go:1083-1289 | The collection in place, to that effect |
| HeapCheck.WeakMapDangles | pkg/js55/engine/heap.go:1203-1255 | The concrete case: every reference resolves, and a collection keeps an ordinary map, for being the value of a weak map's entry, with a key that is gone |
| Overlay.WriteKeepsRealm | pkg/js55/engine/heap.go:464-506 | No write through any handle reaches the realm's objects or the shapes it shares |
| Overlay.WriteSeen | pkg/js55/engine/heap.go:464-506 | A write changes what is seen at exactly the object named, and there as the operation by itself does; every other handle sees what it saw |
| Overlay.WriteValid | pkg/js55/engine/heap.go:464-506 | Clones stay private: no two realm objects share one, no clone carries the realm flag |
| Overlay.PrepareSame | pkg/js55/engine/heap.go:480-506 | The object to write to is a copy of the one named, and not the realm's |
| Overlay.PrepareOthers | pkg/js55/engine/heap.go:464-506 | Handles that named one object still do, others still do not |
| Overlay.PutSeen | pkg/js55/engine/heap.go:802-873 | Writing back, with a shape transition for a new key, changes no other object |
| Overlay.DiscardRestores | pkg/js55/engine/heap.go:508-512 | Discarding the clones brings the realm's own objects back |
| Overlay.DirectSeen | pkg/js55/engine/builtins_regexp.go:36-66 | A write to an object that was looked up and not prepared, by a constructor or an accessor of a literal, changes what is seen at that object and at no other |
| Overlay.DirectRealm | pkg/js55/engine/builtins_accessors.go:34-44 | and writes the realm exactly when the object is the realm's, has no clone and is changed |
| ObjectLaws.ProtoWritten | pkg/js55/engine/heap.go:752-759 | A changed prototype is the next object on the chain, for every handle of the object; nothing else about it or others changes |
| ObjectLaws.ElementWritten | pkg/js55/engine/heap.go:1007-1035 | A written element is there, undefined fills the gap before it, the others stay |
| ObjectLaws.Constructed | pkg/js55/engine/builtins_collections.go:24-37 | A constructor gives its receiver kind, contents and, if it has one to give, prototype; properties, elements and flags stay |
| ObjectLaws.FunctionPoked | pkg/js55/engine/builtins_accessors.go:34-44 | A function poked into a cell is its getter, or its setter; the other one stays |
| ObjectLaws.LiteralOverCell | pkg/js55/engine/builtins_accessors.go:9-47 | An accessor of a literal over one that is there does that to its cell and leaves the object as it is |
| ObjectLaws.SpreadIs | pkg/js55/engine/vm.go:771-780 | Spreading a key assigns the value the chain of the source first binds it to, exactly if its own property is enumerable |
| ObjectLaws.MadeIs | pkg/js55/engine/heap.go:674-705 | A new object has a fresh handle, no prototype and no properties; an array its length of undefined elements, a cell its two functions |
| ObjectLaws.BoundIs | pkg/js55/engine/heap.go:943-970 | What a text is bound to in an object by itself: its property, or an array's element under its index, and nothing for a deleted key |
| ObjectLaws.IndexTexts | pkg/js55/engine/heap.go:921-939 | The texts that name elements are the decimal texts of the numbers that fit, each for its own number |
| OverlayRuns.RunShows | pkg/js55/engine/heap.go:422-512 | Over any run of writes, allocations, constructors, spreads, accessors in literals and definitions from descriptors, the overlay shows each of a program's handles what a private deep copy of the realm would hold, and two handles name one object in both or in neither |
| OverlayRuns.DefineSeen | pkg/js55/engine/builtins_object_descriptors.go:336-471 | Object.defineProperty through the overlay is refused with nothing written, or changes what is seen of the object and, if it is an accessor that is there, of its cell, so of every property in that cell, and of nothing else |
| OverlayRuns.PristineShows | pkg/js55/engine/heap.go:422-438 | An isolate that has written nothing shows the realm |
| OverlayRuns.ReadsAgree | pkg/js55/engine/heap.go:972-1003 | Property reads along prototypes agree with the private copy's |
| OverlayRuns.RunKeepsRealm | pkg/js55/engine/heap.go:464-506 | No step of a run writes the realm exactly when none is a constructor applied to a realm object, or an accessor in a literal over an own property whose cell is a realm object, that has no clone and that the step changes; then the realm is at the end as it was |
| OverlayRuns.DoKeepsRealm | pkg/js55/engine/builtins_accessors.go:9-47 | A step writes the realm exactly when it is one of these two; spreads, descriptors and every prepared write never do |
| OverlayRuns.WorldStep | pkg/js55/engine/builtins_accessors.go:9-47 | and then, and only then, the other isolate in the same memory is changed by it |
| OverlayRuns.Isolated | pkg/js55/engine/root_realm.go:10-28 | Two isolates in one memory, neither of which takes such a step, never observe each other: in any interleaving each is where its own steps alone take it |
| OverlayRuns.GetPropertyExact | pkg/js55/engine/heap.go:972-1003 | A property read returns the first binding on the prototype chain exactly when there is one, even on a cyclic chain |
| OverlayRuns.WalkExact | pkg/js55/engine/heap.go:972-1003 | With a guard of at least the number of objects the bounded walk finds every first binding, since up to it no object is met twice |
| OverlayRuns.GuardEnough | pkg/js55/engine/heap.go:972-1003 | The guard the code computes is large enough |
| OverlayRuns.StalePointer | pkg/js55/engine/builtins_object_descriptors.go:461-469 | Defining an indexed property of an array, done through the object looked up before the clone, writes the realm itself exactly if the handle still names a realm array, the index is dense and the element differs |
| OverlayRuns.IndexedKeepsRealm | pkg/js55/engine/builtins_object_descriptors.go:461-469 | No realm array exists or comes to exist, so at no moment of any run does that happen |
| Shapes.TransitionRight | pkg/js55/engine/heap.go:160-194 | A transition leads to the same keys and one more, changes no node's keys, and writes to no shared node |
| Shapes.UnshareRight | pkg/js55/engine/heap.go:184-194 | The private copy of a shared shape has the same keys |
| Shapes.Converges | pkg/js55/engine/heap.go:160-180 | Objects given the same keys in the same order come to share their shape |
| Shapes.LookupIs | pkg/js55/engine/heap.go:128-155 | Lookup finds the slot of the only key with the text, whichever heap interned it; the key at slot i is found at i |
| Realm.SealedShapes | pkg/js55/engine/root_realm.go:110-120 | Sealing marks every shape of a realm and changes no object's keys |
| Realm.SealedIsRoot | pkg/js55/engine/root_realm.go:52-108 | No handle left in a sealed object names an isolate's object: prototype, environment, home object, slots, elements, and whatever its kind holds |
| Realm.SealKeeps | pkg/js55/engine/root_realm.go:52-108 | Sealing changes nothing about an object but the names of what it refers to: each handle becomes the realm handle of the same slot |
| Realm.ExtendRemembered | pkg/js55/engine/heap.go:160-180 | A realm under construction only has shapes that sealing reaches |
| Realm.AttachedValid | pkg/js55/engine/root_realm.go:10-50 | An isolate attached to a sealed realm starts in a state all the overlay theorems apply to |
| Realm.AttachedNoArrays | pkg/js55/engine/root_realm.go:10-50 | A realm built without arrays is attached without arrays |
| Realm.RealmLeaks | pkg/js55/engine/builtins_collections.go:24-37 | Calling Map on Object.prototype in one isolate makes it a map in another that has done nothing: the concrete case |
| Realm.SpreadLeaks | pkg/js55/engine/builtins_accessors.go:9-47 | From any well-formed state: spreading an object that shows a realm accessor without a clone, and writing another getter over it, puts the isolate's function into the realm's cell |
| Realm.RealmGetterLeaks | pkg/js55/engine/builtins_regexp.go:150-203 | A literal that spreads RegExp.prototype and has its own source getter: the other isolate, having done nothing, finds that function in its accessor, in the concrete realm |
| Realm.Builder.MarkShapeShared | pkg/js55/engine/root_realm.go:110-120 | The recursive marking reaches everything parents and transitions lead to, once each |
| Realm.Builder.SealRoot | pkg/js55/engine/root_realm.go:52-108 | Tags every object and marks every shape an object or the root shape reaches |
| OverlayHeap.Isolate.PrepareWrite | pkg/js55/engine/heap.go:473-506 | Clones a realm object on its first write only |
| OverlayHeap.Isolate.Get | pkg/js55/engine/heap.go:422-462 | Resolves a handle through the clone, the realm or the local table |
| OverlayHeap.Isolate.Lookup | pkg/js55/engine/heap.go:128-146 | The two passes over the chain of a shape, by identity and by text |
| OverlayHeap.Isolate.Keys | pkg/js55/engine/heap.go:149-155 | The keys in insertion order |
| OverlayHeap.Isolate.Transition | pkg/js55/engine/heap.go:160-180 | The memoised transition, in place |
| OverlayHeap.Isolate.Unshare | pkg/js55/engine/heap.go:184-194 | Rebuilds a shared shape key by key |
| OverlayHeap.Isolate.SetProperty | pkg/js55/engine/heap.go:802-841 | The write in place is the one of the theorems |
| OverlayHeap.Isolate.DefineDataProperty | pkg/js55/engine/heap.go:845-873 | So is the definition of a data property |
| OverlayHeap.Isolate.DeleteProperty | pkg/js55/engine/heap.go:775-800 | and the deletion, with its answer |
| OverlayHeap.Isolate.SetPropertyAttrs | pkg/js55/engine/heap.go:889-902 | and the change of attributes |
| OverlayHeap.Isolate.SetProto | pkg/js55/engine/heap.go:752-759 | and the change of prototype |
| OverlayHeap.Isolate.SetElement | pkg/js55/engine/heap.go:1007-1035 | and the write of an element, growing the array |
| OverlayHeap.Isolate.Freeze | pkg/js55/engine/builtins_object.go:1012-1046 | Freezing through the mutable view, attribute by attribute |
| OverlayHeap.Isolate.Seal | pkg/js55/engine/builtins_object.go:1049-1079 | Sealing, likewise |
| OverlayHeap.Isolate.GetProperty | pkg/js55/engine/heap.go:972-1003 | The guarded loop along the prototypes |
| OverlayHeap.Isolate.DefineFromDesc | pkg/js55/engine/builtins_object_descriptors.go:336-471 | Object.defineProperty on an ordinary object, in place: refused with its reason and nothing written, or exactly the moves of the theorems, on the object and on the cell it holds; the realm untouched |
| OverlayHeap.Isolate.DefineAccessor | pkg/js55/engine/builtins_accessors.go:9-47 | An accessor in a literal or a class: a cell that is found is written as it is, else one is made |
| OverlayHeap.Isolate.CopyProperty | pkg/js55/engine/vm.go:771-780 | One key of a spread: the value found along the prototypes, an accessor's cell included, is written as it is |
| OverlayHeap.Isolate.NewObject | pkg/js55/engine/heap.go:674-720 | A new object is the isolate's own and does not show in the realm |
| OverlayHeap.Isolate.Construct | pkg/js55/engine/builtins_promise.go:43-53 | A constructor writes kind, contents and prototype of its receiver through the lookup, in place |
| Properties.ReadAfterWrite | pkg/js55/engine/heap.go:802-841 | A property reads back what was written exactly when its slot, a deleted one's too, is writable and no other heap's entry keeps it deleted, or it held that value already |
| Properties.RevivedUnstored | pkg/js55/engine/heap.go:802-841 | A deleted read-only property comes back as undefined when it is written: the concrete case that fails |
| Properties.SetReadsBack | pkg/js55/engine/heap.go:802-841 | Where the write gets through, the value is there with the attributes of the slot |
| Properties.SetOthers | pkg/js55/engine/heap.go:802-841 | Writing one key leaves every other property alone |
| Properties.DefineReadsBack | pkg/js55/engine/heap.go:845-873 | Defining a property gives it the value and attributes, unless another heap's entry keeps it deleted, and leaves the others alone |
| Properties.DeleteRemoves | pkg/js55/engine/heap.go:775-800 | A deletion is refused exactly for a property that is not configurable or on a frozen object; done, it removes that property only |
| Properties.AttrsChange | pkg/js55/engine/heap.go:889-902 | Attributes change on a present property only |
| Properties.SetOnMap | pkg/js55/engine/heap.go:802-841 | On the finite map of an object's properties, a write that gets through is the map's update |
| Properties.DefineOnMap | pkg/js55/engine/heap.go:845-873 | So is a definition |
| Properties.DeleteOnMap | pkg/js55/engine/heap.go:775-800 | and a deletion is the map's removal |
| Properties.AttrsOnMap | pkg/js55/engine/heap.go:889-902 | and a change of attributes updates one entry |
| Sharing.RunKeeps | pkg/js55/engine/builtins_object_descriptors.go:336-471 | The invariants of section 6.1.7.3 of ECMA-262, for each of any number of ordinary objects over any run of definitions, assignments, deletions, integrity levels, literals and spreads, what stays of an accessor being its cell: kept at every step exactly if none stores an accessor's cell over a data property that is not configurable |
| Sharing.StepKeeps | pkg/js55/engine/builtins_object_descriptors.go:336-471 | The same, if and only if, for each single operation |
| Sharing.CellRecasts | pkg/js55/engine/vm.go:2405-2436 | A computed read of an accessor gives its cell; assigned to a data property that is writable and not configurable it makes that an accessor: the concrete step |
| Descriptors.DefineKeeps | pkg/js55/engine/builtins_object_descriptors.go:355-471 | Object.defineProperty keeps a non-configurable property within its limits, an accessor in its cell, exactly unless it defines a cell as the value of a non-configurable data property |
| Descriptors.AssignKeeps | pkg/js55/engine/vm.go:2335-2403 | Assignment does too, and adds nothing to a frozen object, exactly unless it puts a cell over a data property that is writable and not configurable |
| Descriptors.RemoveKeeps | pkg/js55/engine/heap.go:775-800 | and deletion |
| Descriptors.IntegrityLevelsKeep | pkg/js55/engine/builtins_object.go:1012-1099 | and freezing, sealing and preventing extensions |
| Sharing.FrozenForever | pkg/js55/engine/builtins_object.go:1012-1046 | After Object.freeze no run over any objects adds or removes a property, changes the value of a data property up to SameValue, or gives an accessor another cell; what the cell holds is the next rows' |
| Sharing.StepFunctions | pkg/js55/engine/builtins_object_descriptors.go:336-471 | A step changes an accessor's functions exactly when it is an accepted definition, from a descriptor or a literal, with another function, through a property in the same cell |
| Sharing.RunFunctions | pkg/js55/engine/builtins_object_descriptors.go:336-471 | Over any run over any objects an accessor has the same functions at every step exactly when no step is such a definition |
| SharingLaws.CopyShares | pkg/js55/engine/vm.go:771-780 | A spread puts the value found under the key, an accessor's same cell; other objects and all cells stay |
| SharingLaws.LiteralInstalls | pkg/js55/engine/builtins_accessors.go:9-47 | An accessor of a literal is there afterwards with its function in its place and the other as it was, in the cell found or in a new one |
| SharingLaws.DefinedThroughout | pkg/js55/engine/builtins_object_descriptors.go:421-435 | A redefined accessor has the functions given, for the others those it had, seen through every property in its cell |
| Sharing.ThroughAnother | pkg/js55/engine/builtins_object_descriptors.go:336-471 | Such a definition never goes through a property that is not configurable: the functions of a frozen accessor can only change through another property in its cell |
| Sharing.Exposed | pkg/js55/engine/builtins_accessors.go:9-47 | A next step can change an accessor's functions exactly when a configurable property is in its cell |
| Sharing.ChangeableAgain | pkg/js55/engine/vm.go:771-780 | Once none is, one comes to be exactly by storing the cell: by a spread of a property in it, or by assigning or defining the cell that a computed read gave, where the write gets through |
| Sharing.GuardedForever | pkg/js55/engine/vm.go:771-780 | So an accessor all of whose properties are past configuring keeps its functions in every run that stores its cell nowhere |
| Sharing.SharedGetter | pkg/js55/engine/builtins_object_descriptors.go:426-435 | A literal with a getter, spread into a second one and frozen; defining the getter of the second changes the frozen one's: the concrete run |
| Descriptors.DefineDataIs | pkg/js55/engine/builtins_object_descriptors.go:456-461 | What a data definition leaves under its key |
| DescriptorLaws.DefinitionAccepted | pkg/js55/engine/builtins_object_descriptors.go:355-455 | Object.defineProperty is refused exactly for a malformed descriptor, an addition to an object that is not extensible, or a change that a non-configurable property does not allow: section 10.1.6.3 of ECMA-262 as the code has it |
| DescriptorLaws.DefinitionFields | pkg/js55/engine/builtins_object_descriptors.go:355-471 | Each attribute is what its field says, else what it was, else false; the value the one given, else the old one, else undefined |
| DescriptorLaws.AccessorFields | pkg/js55/engine/builtins_object_descriptors.go:421-451 | An accessor gets the functions given, for the others those it had or undefined, the flags likewise, and is not writable |
| DescriptorLaws.AssignmentIs | pkg/js55/engine/vm.go:2335-2403 | An assignment, case by case: refused on an object that is not extensible, the setter called, a read-only property refused in strict code and ignored in other, and otherwise the value stored, attributes kept, a new property with all three, every other one left alone |
| DescriptorLaws.IntegrityIs | pkg/js55/engine/builtins_object.go:1012-1099 | The three levels close an object and change no value; sealing makes every property non-configurable, freezing every data property read-only as well |
| DescriptorLaws.ArrayGrows | pkg/js55/engine/heap.go:875-887 | A key that reads as an index below 10000 lengthens an array to it with undefined elements; no other write touches elements |
| DescriptorLaws.ElementDeleted | pkg/js55/engine/heap.go:775-800 | Deleting an element's key leaves undefined in its place |
| Descriptors.DefineAccessorIs | pkg/js55/engine/builtins_object_descriptors.go:421-435 | An accessor that exists keeps its cell, which takes the new functions whatever the attributes are |
| Descriptors.AccessorInstalled | pkg/js55/engine/builtins_object_descriptors.go:421-451 | An accessor defined over a data property or over none is installed, in a new cell, exactly when the key is settable |
| Descriptors.GetterLost | pkg/js55/engine/builtins_object_descriptors.go:436-451 | A getter defined over a read-only configurable property is accepted and lost: the concrete case |
| Descriptors.SameValueIs | pkg/js55/engine/builtins_object_descriptors.go:698-710 | SameValue tells numbers apart as their floats do, signed zeros and NaN included, and everything else by equality |
| RoundTrip.ParsePrint | pkg/js55/printer/printer.go:22-26 | Parsing the tokens of a printed expression gives the expression back, leaving what follows, exactly when its nesting fits the parser's bound; otherwise parsing fails on the bound and on nothing else |
| ParserLaws.ParsedReadsBack | pkg/js55/parser/parser.go:614-624 | From any tokens: what is parsed, printed and parsed again comes back the same, unless it is nested too deep |
| ParserLaws.ExpressionWf | pkg/js55/parser/parser.go:614-689 | Every tree the parser returns is one of the grammar's: targets where targets stand, patterns where patterns, no hole outside an array |
| ParserLaws.AssignTargets | pkg/js55/parser/pattern.go:30-110 | An assignment is accepted exactly on a name, a member or, for =, an array pattern of such, with defaults |
| ParserLaws.UpdateTargets | pkg/js55/parser/parser.go:958-1023 | ++ and -- take exactly a name or a member, and not what a line break keeps apart |
| ParserLaws.NamesAfterDots | pkg/js55/parser/parser.go:1141-1148 | After a dot stands an identifier or any reserved word, and nothing else |
| RoundTrip.PrintInjective | pkg/js55/printer/printer.go:22-26 | Two expressions that fit with the same tokens are the same |
| RoundTrip.AssignRound | pkg/js55/parser/parser.go:635-689 | An expression between separators is read whole, patterns as the expressions that cover them |
| RoundTrip.MemberRound | pkg/js55/parser/parser.go:1028-1139 | Reading an operand goes on with what follows it, from exactly that operand |
| RoundTrip.InsideRound | pkg/js55/parser/parser.go:811-996 | What stands in an operator's parentheses reads as that operator's expression |
| RoundTrip.CallRound | pkg/js55/parser/parser.go:1171-1191 | Calls with any arguments |
| RoundTrip.InsideNew | pkg/js55/parser/parser.go:1150-1169 | `new` with a parenthesised callee takes its own arguments only |
| RoundTrip.ElementsRound | pkg/js55/parser/primary.go:191-232 | Array elements with holes, a trailing hole included |
| RoundTrip.ItemsRound | pkg/js55/parser/primary.go:433-520 | Lists in parentheses |
| RoundTrip.PatternBack | pkg/js55/parser/pattern.go:30-110 | Reinterpreting the covering expression gives the pattern that was printed |
| Precedence.BinaryExact | pkg/js55/parser/parser.go:876-936 | Climbing accepts exactly the operand and operator sequences that some tree allowed by the table and the bans groups, up to the tokens left, and returns that tree; the table is pinned by the next rows |
| Productions.ParsesWhatDerives | pkg/js55/parser/parser.go:847-936 | The parser of binary expressions accepts a stretch of tokens exactly when it derives by the productions of sections 13.6 to 13.13 of ECMA-262 with no operator after it, and returns that derivation's tree |
| Productions.ShortCircuitAre | pkg/js55/parser/parser.go:847-871 | A tree obeys the table and the bans exactly when it is a derivation |
| Productions.DerivesAre | pkg/js55/parser/parser.go:847-871 | level by level |
| Productions.Unambiguous | pkg/js55/parser/parser.go:847-871 | The productions leave one derivation to each sequence of operands and operators |
| Precedence.BinarySound | pkg/js55/parser/parser.go:876-936 | What it returns is grouped by precedence, to the left but for `**`, mixes no `??` with a bare logical and/or, puts no bare prefix operator before `**`, and consumed exactly its own tokens |
| Precedence.BinaryComplete | pkg/js55/parser/parser.go:876-936 | Every such tree is found |
| Precedence.GroupingUnique | pkg/js55/parser/parser.go:847-871 | There is only one: two groupings of the same sequence that obey the table are equal |
| Precedence.RootPlace | pkg/js55/parser/parser.go:847-871 | The root is the last of the loosest operators, or the first `**` |
| ParserRun.Printer.Node | pkg/js55/printer/printer.go:51-536 | The printer, appending to its output, prints the tokens of the specification |
| ParserRun.Printer.List | pkg/js55/printer/printer.go:32-42 | Lists with separators |
| ParserRun.Printer.Elements | pkg/js55/printer/printer.go:542-554 | Array elements with the comma after a last hole |
| ParserRun.Reader.ParseExpression | pkg/js55/parser/parser.go:614-624 | The recursive descent over mutable state returns, and leaves unread, what the parser's function says, depth and context restored |
| ParserRun.Reader.ParseAssign | pkg/js55/parser/parser.go:635-689 | Assignments, with the target checked before the value is read |
| ParserRun.Reader.ParseConditional | pkg/js55/parser/parser.go:811-839 | Conditionals |
| ParserRun.Reader.ParseBinary | pkg/js55/parser/parser.go:876-936 | Operators, with the climbing loop, in place: the tree of Productions.ParsesWhatDerives |
| ParserRun.Reader.ParseUnary | pkg/js55/parser/parser.go:958-996 | Prefix operators and updates |
| ParserRun.Reader.ParsePostfix | pkg/js55/parser/parser.go:1011-1023 | Postfix updates, not across a line break |
| ParserRun.Reader.ParseMember | pkg/js55/parser/parser.go:1028-1139 | Members and calls |
| ParserRun.Reader.ParseNew | pkg/js55/parser/parser.go:1150-1169 | `new` |
| ParserRun.Reader.ParseItems | pkg/js55/parser/parser.go:1171-1191 | Arguments, with a trailing comma |
| ParserRun.Reader.ParseElements | pkg/js55/parser/primary.go:191-232 | Array literals |
| ParserRun.Reader.ParsePrimary | pkg/js55/parser/primary.go:9-138 | Operands of one token, parentheses and arrays |
| ParserRun.PrintThenParse | pkg/js55/printer/printer.go:22-26 | Printing and parsing back, run one after the other |
| Limbs.Mul5Right | pkg/c2d2s/d2s_gen.go:302-337 | The limbs after the loop denote five times the number, and at most one limb more |
| Limbs.Shl1Right | pkg/c2d2s/d2s_gen.go:339-361 | Doubling, likewise |
| Limbs.Div10Right | pkg/c2d2s/d2s_gen.go:363-389 | Quotient and remainder by ten |
| Decimals.DecOfDigits | pkg/c2d2s/d2s_gen.go:21-41 | Reading the digits of a number gives it back |
| Decimals.DigitsOfDec | pkg/c2d2s/format.go:16-118 | and the digits of what a text without leading zeros denotes are the text |
| BigDecimal.MulWord | pkg/c2d2s/d2s_gen.go:302-337 | One limb's product from shifts and wrapped additions |
| BigDecimal.DivWord | pkg/c2d2s/d2s_gen.go:363-389 | One limb's division in two halves |
| BigDecimal.LimbsMul5 | pkg/c2d2s/d2s_gen.go:302-337 | The loop over the buffer; only a carry past limb 40 would be dropped |
| BigDecimal.LimbsShl1 | pkg/c2d2s/d2s_gen.go:339-361 | The loop over the buffer, doubling |
| BigDecimal.LimbsDiv10Rem | pkg/c2d2s/d2s_gen.go:363-389 | The loop from the top limb down |
| BigDecimal.LimbsZero | pkg/c2d2s/d2s_gen.go:391-402 | Whether the number is zero |
| BigDecimal.FillMul5 | pkg/c2d2s/d2s_gen.go:404-432 | The buffer ends up holding exactly m * 5^q |
| BigDecimal.FillShl1 | pkg/c2d2s/d2s_gen.go:434-462 | The buffer ends up holding exactly m * 2^q |
| BigDecimal.ReadDigits | pkg/c2d2s/d2s_gen.go:404-462 | Exactly the decimal digits of the number, within the 800-digit buffer |
| BigDecimal.BitsFit | pkg/c2d2s/d2s_gen.go:404-462 | A number below 2^2559 fits 40 limbs and 788 digits |
| BigDecimal.NegativeFits | pkg/c2d2s/d2s_gen.go:404-432 | m * 5^q has room for every double: no carry is dropped and no digit overflows |
| BigDecimal.PositiveFits | pkg/c2d2s/d2s_gen.go:434-462 | So has m * 2^q |
| DoubleText.NegexpToDec | pkg/c2d2s/d2s_gen.go:404-432 | Writes m / 2^q from its exact digits |
| DoubleText.PosexpToDec | pkg/c2d2s/d2s_gen.go:434-462 | Writes m * 2^q from its exact digits |
| DoubleText.U128ToDec | pkg/c2d2s/d2s_gen.go:258-300 | Exactly the digits of hi * 2^64 + lo |
| DoubleText.ShiftU128 | pkg/c2d2s/d2s_gen.go:649-703 | Two words hold m * 2^e, bit by bit |
| DoubleText.Increment | pkg/c2d2s/d2s_gen.go:464-514 | One unit in the last of seventeen digits, a carry out of all nines reported |
| DoubleText.RoundDigits | pkg/c2d2s/d2s_gen.go:464-514 | The digits left denote the number rounded half up at the seventeenth, end in no zero, and are those its text is laid out from, the carry being moved into the exponent |
| DoubleText.EmitFromDigits | pkg/c2d2s/d2s_gen.go:464-514 | The text of the number rounded to seventeen digits |
| DoubleText.ExactRight | pkg/c2d2s/d2s_gen.go:649-703 | The digits and exponent used denote the double exactly |
| DoubleText.D2sBits | pkg/c2d2s/d2s_gen.go:649-703 | The text of a double from its bits: NaN, the signed infinities and 0, or the digits of its magnitude rounded half up to seventeen, written in the form of TextForm.LayoutWritten, which fixes each character's place |
| DoubleText.TextWritten | pkg/c2d2s/d2s_gen.go:649-703 | So is the specified text of every double |
| NumberLayout.ShowIs | pkg/c2d2s/d2s_gen.go:159-256 | The text depends on the number alone |
| NumberLayout.ShowSame | pkg/c2d2s/d2s_gen.go:159-256 | Equal numbers have equal texts |
| NumberLayout.Round17Near | pkg/c2d2s/d2s_gen.go:464-514 | Rounding moves the number by at most half a unit, upwards from the half |
| NumberEmit.EmitUintRev | pkg/c2d2s/d2s_gen.go:21-41 | The decimal text of a word |
| NumberEmit.EmitExp | pkg/c2d2s/d2s_gen.go:43-77 | The exponent with its sign |
| NumberEmit.EmitEcma | pkg/c2d2s/d2s_gen.go:159-256 | The four layouts of section 6.1.6.1.20 of ECMA-262, after a minus sign for negative numbers: digits and zeros, a point inside, a point after leading zeros, or an exponent, each exactly in its range |
| TextForm.LayoutWritten | pkg/c2d2s/d2s_gen.go:159-256 | An 'e' exactly when n > 21 or n <= -6; up to 21, n digits without a point from k on, below that one point at index n; for n <= 0 a zero, the point, -n zeros, the digits; with 'e' one digit before the point and an exponent that reads n - 1 |
| NumberEmit.EmitScientific | pkg/c2d2s/d2s_gen.go:159-256 | One digit, the rest without trailing zeros, the exponent |
| NumberEmit.LastNonZero | pkg/c2d2s/d2s_gen.go:159-256 | Where the significant digits end |
| NumberParse.ParseEcma | pkg/c2d2s/format.go:16-118 | The parser's loops compute the value the specification of the inverse gives |
| NumberParse.ReadChecked | pkg/c2d2s/format.go:16-118 | Digits into a word, refusing what does not fit |
| NumberParse.ReadWrapping | pkg/c2d2s/format.go:16-118 | Digits into a word that wraps |
| NumberParse.RoundTrip | pkg/c2d2s/format.go:16-118 | Reading a laid-out number gives it back for exponents below 1000, exactly unless it is written as an integer of more than 64 bits |
| NumberParse.RoundTripScientific | pkg/c2d2s/format.go:16-118 | The same for the scientific layout by itself |
| DoubleRoundTrip.DoubleReadsBack | pkg/c2d2s/d2s_gen.go:649-703 | The text of a proper double is laid out from at most seventeen digits denoting its magnitude rounded half up, and reads back to that number unless it is an integer of more than 64 bits |
| DoubleApart.TextsTellApart | pkg/c2d2s/d2s_gen.go:649-703 | Seventeen digits are enough: finite doubles other than zero with the same text are the same, but for the sign |
| DoubleApart.FarApart | pkg/c2d2s/d2s_gen.go:649-703 | Of two different doubles the smaller is less than 2^53 times their distance |
| DoubleApart.CloseTogether | pkg/c2d2s/d2s_gen.go:464-514 | while two numbers that round to the same seventeen digits are closer than that |
| NormalsSpec.StepTwice | pkg/c2archtsim/geometry/normals_generated_nosimd.go:183-289 | Budgets a and b leave the phase, cursor, normals and last vector that a + b leaves |
| NormalsSpec.Schedules | pkg/c2archtsim/geometry/normals_generated_nosimd.go:183-289 | Only the total of a schedule matters |
| NormalsSpec.AnyScheduleFinishes | pkg/c2archtsim/geometry/normals_generated_nosimd.go:183-289 | Any schedule totalling 2 * nverts + ntris reaches the end with the result of a single call |
| NormalsMeaning.NormalsAre | pkg/c2archtsim/geometry/normals_generated_nosimd.go:9-139 | Where the arithmetic is exact, what any schedule leaves at a vertex when it finishes is the sum of the right-handed cross products of the triangles around the vertex, scaled to length 1, or zero if the sum is |
| NormalsMeaning.TriangleAdds | pkg/c2archtsim/geometry/normals_generated_nosimd.go:9-80 | One triangle adds its product to its three corners and to nothing else |
| NormalsSpec.DoneStays | pkg/c2archtsim/geometry/normals_generated_nosimd.go:183-289 | A finished computation is left alone |
| NormalsKernel.Kernel.Begin | pkg/c2archtsim/geometry/normals_generated_nosimd.go:151-181 | Starts in the first or the normalising phase |
| NormalsKernel.Kernel.AccumulateOne | pkg/c2archtsim/geometry/normals_generated_nosimd.go:9-80 | Adds one triangle's cross product to its three vertices, in place |
| NormalsKernel.Kernel.AccumulateBlock | pkg/c2archtsim/geometry/normals_generated_nosimd.go:102-107 | Four triangles are four times one |
| NormalsKernel.Kernel.ZeroPhase | pkg/c2archtsim/geometry/normals_generated_nosimd.go:183-289 | Zeroes vertices within the budget |
| NormalsKernel.Kernel.AccumulatePhase | pkg/c2archtsim/geometry/normals_generated_nosimd.go:183-289 | Accumulates within the budget, in blocks of four or not |
| NormalsKernel.Kernel.NormalizeRange | pkg/c2archtsim/geometry/normals_generated_nosimd.go:109-139 | Normalises a range and keeps the last vector |
| NormalsKernel.Kernel.Step | pkg/c2archtsim/geometry/normals_generated_nosimd.go:183-289 | A call refuses states it did not begin, does up to `budget` units across phases, and reports the units used |
| NormalsQuota.StepClosed | pkg/c2archtsim/geometry/normals_api.go:508-590 | The closed form counts exactly the units and transitions the kernel performs for the same state and budget |
| NormalsQuota.Grouping | pkg/c2archtsim/geometry/normals_api.go:490-506 | Charging in fours costs what single units do |
| NormalsQuota.PriceIsDue | pkg/c2archtsim/geometry/normals_api.go:508-590 | The price of that tally, phase by phase |
| NormalsQuota.QuotaFrom | pkg/c2archtsim/geometry/normals_api.go:508-590 | The charge is that price, and fails exactly when it exceeds 64 bits or the cursor is out of its phase |
| NormalsQuota.ChargeGrouped | pkg/c2archtsim/geometry/normals_api.go:490-506 | Fails exactly when the true total exceeds 64 bits |
| NormalsQuota.AddU | pkg/c2archtsim/geometry/normals_api.go:109-114 | Checked addition |
| NormalsQuota.MulU | pkg/c2archtsim/geometry/normals_api.go:116-121 | Checked multiplication |
| NormalsQuota.SubU | pkg/c2archtsim/geometry/normals_api.go:703-708 | Checked subtraction |
| NormalsQuota.PlanNormalize | pkg/c2archtsim/geometry/normals_api.go:710-782 | The loop over vertices checks each and comes to the closed form's price |
| NormalsQuota.PlansAgree | pkg/c2archtsim/geometry/normals_api.go:508-782 | Closed form and loop agree in the normalising phase, and the plan foresees where the kernel stops |
| PromiseRuns.SettledForever | pkg/js55/engine/builtins_promise.go:187-207 | After its first settlement a promise's state and result never change, in every run in which nothing constructs on a promise that is settled or has reactions |
| PromiseRuns.ReactionsRunOnce | pkg/js55/engine/builtins_promise.go:100-128 | In every such run the reactions on a promise run once each, after settlement and with its result, in registration order, and all of them once the queue is empty |
| PromiseLaws.HandlerChosen | pkg/js55/engine/builtins_promise.go:310-333 | A job carries the handler that was registered for how its promise was settled, and the promise's result |
| PromiseLaws.PassedOn | pkg/js55/engine/builtins_promise.go:310-333 | Without a handler a rejection stays a rejection and a fulfilment one, with its result, in the child |
| PromiseLaws.HandlerStarts | pkg/js55/engine/builtins_promise.go:310-333 | A handler's job starts it and settles nothing |
| PromiseLaws.HandlerEnds | pkg/js55/engine/builtins_promise.go:310-333 | What it returns fulfils the child, what it throws rejects it |
| PromiseLaws.ResolverSettles | pkg/js55/engine/builtins_promise.go:171-207 | A resolver settles a pending promise once, with its value, and queues its reactions in order behind the jobs there are |
| PromiseLaws.ThenWaits | pkg/js55/engine/builtins_promise.go:100-128 | `then` makes a pending child; the handlers wait behind the others, or the right one is queued at once |
| PromiseRuns.BatchesAreOneQueue | pkg/js55/engine/vm.go:1705-1719 | Draining in batches runs the same jobs in the same order, to the same effect, as one queue |
| PromiseRuns.RunInv | pkg/js55/engine/builtins_promise.go:187-207 | Over any such run: settled promises hold no reactions, every job belongs to a settled promise, none is lost or repeated |
| PromiseRuns.KeptExactly | pkg/js55/engine/builtins_promise.go:43-53 | States, results and reactions are kept at every step of a run exactly when no step constructs on a promise that is settled or has reactions |
| PromiseRuns.StepKeepsExactly | pkg/js55/engine/builtins_promise.go:43-53 | The same for one step |
| PromiseRuns.SettledTwice | pkg/js55/engine/builtins_promise.go:43-53 | A promise fulfilled with 1, constructed on through Promise.call, is fulfilled with 2: the concrete run |
| PromiseRuns.ReactionLost | pkg/js55/engine/builtins_promise.go:43-53 | A reaction on a pending promise that is constructed on never runs: the concrete run |
| PromiseRuns.SettleInv | pkg/js55/engine/builtins_promise.go:187-207 | Settling keeps that |
| PromiseRuns.ThenInv | pkg/js55/engine/builtins_promise.go:100-128 | So does registering |
| PromiseRuns.NextInv | pkg/js55/engine/vm.go:1705-1719 | So does starting a job |
| PromiseAll.AllOutcome | pkg/js55/engine/builtins_promise.go:209-308 | In every run that constructs on no promise that is settled, has reactions or is a Promise.all's own, at every moment and whatever inputs are still pending: Promise.all is fulfilled, with the results in index order, exactly when the reactions of all inputs have run and all were fulfilled, and rejected, with the result of the first rejected input whose reaction ran, exactly when some reaction on a rejected input has |
| PromiseAll.TakenFails | pkg/js55/engine/builtins_promise.go:43-53 | Constructing on the promise of a Promise.all under way that nothing waits on takes this away: its next resolution settles it, whatever the inputs |
| PromiseAll.AllSettles | pkg/js55/engine/builtins_promise.go:209-308 | In particular, once its inputs are settled and the queue is empty it is settled, and fulfilled exactly when all inputs are |
| PromiseAll.RunAllA | pkg/js55/engine/builtins_promise.go:240-300 | Each callback of the aggregate keeps its results, count and outcome right |
| PromiseAll.AllA | pkg/js55/engine/builtins_promise.go:209-308 | Hooking the inputs, plain values wrapped, sets the aggregate up |
| PromiseVm.Vm.SettlePromise | pkg/js55/engine/builtins_promise.go:187-207 | Settles in place and queues the reactions in order |
| PromiseVm.Vm.Then | pkg/js55/engine/builtins_promise.go:100-128 | Registers or queues at once, with a child promise |
| PromiseVm.Vm.Construct | pkg/js55/engine/builtins_promise.go:43-53 | The Promise constructor on an existing object starts it over |
| PromiseVm.Vm.Perform | pkg/js55/engine/builtins_promise.go:36-128 | Any operation, in place, is the step of the protocol |
| PromiseVm.Vm.EnqueueReaction | pkg/js55/engine/builtins_promise.go:310-333 | Appends one job |
| PromiseVm.Vm.All | pkg/js55/engine/builtins_promise.go:209-308 | The loop over the inputs |
| PromiseVm.Vm.AllFulfilled | pkg/js55/engine/builtins_promise.go:245-274 | The fulfilment callback: stores by index, counts down, settles at zero |
| PromiseVm.Vm.AllRejected | pkg/js55/engine/builtins_promise.go:277-300 | The rejection callback: settles the first time |
| PromiseVm.Vm.NextJob | pkg/js55/engine/vm.go:1705-1719 | One turn of the microtask loop |

## Left out

- CompilerCorrect.RunIsSource: assumes the compiled function fits (`Fits`: under 2^31 bytes of code, 2^32 constants and 65536 slots), since beyond that the operands wrap; `CompilerCorrect.SlotsAlias` says how for slots.
- HeapCheck.CollectSound: says what survives and that it is closed for heaps without reached weak maps; for all heaps `HeapCheck.SurvivorsClosedExactly` says when it is.
- HeapCheck.CheckHeap: checks references only; the source also checks kinds, shapes and the number of slots.
- HeapCheck.CollectAndCheck: for heaps without reached weak maps, with the reduced check.
- CaseLets.RunIsPlain: for lets in cases whose names something around them declares. Of the others it is said where their names are in scope (`CaseScopes.ScopeAfter`), not what a run of the whole function computes, except in `CaseLets.CaseLetLeaks`.
- Updates.UpdateByKind: objects aside, whose conversion may run code.
- Updates.RunIsLanguage: one direction; a run that counts something else may still come to what the language asks.
- FrameEnv.Vm.RestoreFrameBoundary: without the stacks of `this` and `new.target` objects and the value kept alive.
- FrameEnv.ScanEnough: a generator object stands for its own `next`, whose `return` and `throw`, and `yield*`, are not modelled, and a result is its value without the object around it; native functions are not called.
- PromiseAll.AllOutcome: in runs that construct on no promise that is settled, has reactions or is a Promise.all's own; starting over a promise the aggregate does not depend on would do no harm to it.
- NormalsKernel.Kernel.Begin: without the refusals of buffers of the wrong size.
- Sharing.RunKeeps: ordinary objects only, without their prototypes (a deleted key that is spread is found in any object) and without constructors applied to them or to cells; array lengths and elements, arguments objects and the `length` and `name` of functions have rules of their own.
- OverlayRuns.StalePointer: the descriptor is taken to pass its checks, and to define a data property.
- OverlayRuns.DefineSeen: ordinary objects only, as `Sharing.RunKeeps`; a property whose cell a constructor has been applied to, which ends its being one, still counts as an accessor for the refusals and for the integrity levels.
- OverlayRuns.RunShows: a program is taken to hold the cell of an accessor with the object, and the prototypes of what it spreads.
- OverlayRuns.RunKeepsRealm: constructors are taken to write kind, contents and prototype of their receiver; what a map, set or proxy does with its contents afterwards is not part of the overlay.
- Compiler: `arguments` is a name like any other, where the source gives it a slot in functions that mention it; an assignment to a let before its declaration stores silently, as it does in the source; `undefined` is the value even where a local has that name, as in the source.
- Operators.BinaryIs: which results arithmetic, comparison and equality have, and what `typeof` calls a value, are the primitives'.
- Compiler: the name `globalThis`, which the source binds as soon as there is a global object, is a global like any other.
- Compiler: calls, closures, objects, exception handlers, assignment to const, labelled statements that are not loops or switches, destructuring, generators, classes, modules and for-in/for-of.
- Compiler: the calling convention beyond one frame; arguments are given and one function runs.
- Environment pool: instructions that only see the operand stack and the store are one abstract step, getters and conversions that run code included; a rest parameter is an array like any value; environments have stable names, so collections during a run are not part of it.
- Regular expressions: back references, the values of inner captures, and the parsing of patterns.
- Heap: objects are values in a table, so Go's aliasing of object records is not captured; the realm while it is being built, byte quotas, Go closures and queued jobs as roots are left out; the values a scanner visits are given, and the machine's globals and module exports as lists in some order.
- Overlay: handles are positions in one store, so collections and recycling of slots, treated in `HeapGc`, do not happen there; typed arrays, the global object's bindings, proxies and string objects are left out; a spread is one key at a time, and the order of its keys is not modelled.
- Overlay: operations on a released handle, which panic or return, leave the model's state alone.
- Descriptors: fields of a descriptor object are given as read, so getters of descriptors do not run; a setter that assignment calls is reported, not run.
- Expressions: tokens are given; the lexer, positions, spaces and the gluing of adjacent tokens are not modelled. Regular expression literals, templates, optional chains, objects, functions, classes, spread, private names, `await`, `yield`, `async` and reserved words used as identifiers are reported as not modelled where the parser would read them; absent and empty `new` arguments are one tree.
- Expressions: the parenthesised expressions the parser remembers in a map are a flag beside each result.
- Numbers: the buffered conversion and its helpers that estimate in floating point (`C2_ecma_d2s_buffered`, `recons`, `floor_log10_pos`) and the part of `Format` and `Append` that calls the standard library; a branch of the bit conversion that no double reaches is omitted.
- Numbers: C2_ecma_d2s_bits ignores the sign of finite doubles, and so does the model; the layout with a sign is `NumberEmit.EmitEcma`.
- NormalsMeaning.NormalsAre: for exact arithmetic; how far rounding takes the normals from that is not said.
- Normals: floating-point operations are otherwise uninterpreted; the alias and finiteness guards of the API around the kernel, and the binding of buffers, are left out.
- Promises: Promise.race and Promise.allSettled, thenables, a replaced `then`, and errors thrown inside the queue itself; identifiers of reactions and the record of which ran are bookkeeping of the model.
- The web server, browser bridge, fetch, conformance runner, Date, Math, URI and JSON wrappers, string kernels, compaction, preparser and AST arena, which would only add easy members.
