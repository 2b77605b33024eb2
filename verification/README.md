# Charcoal in Dafny

A model of Charcoal, a small language with its own parser, optimizer, bytecode
compiler, verifier, register machine and moving garbage collector, and proofs about
what those parts promise each other. `dafny verify dfyconfig.toml` checks all of it.

The code that works in place is modelled in place: the collector, the compiler, the
parser, the formatter, the file reader and the map builtins are classes whose methods
update their fields, each proved against a specification. The specifications are
functions and predicates on values, and the theorems are about those.

| part | files |
|---|---|
| Garbage collector | `Objects`, `Graph` (renamings of object graphs), `Minor`, `Major`, `Remembered`, `Heap`, `StaleRun` |
| Bytecode, verifier, machine | `Bytecode`, `Verifier`, `Decoder`, `Values`, `Machine`, `Safety` |
| Compiler and its meaning | `Ast`, `Source` (big-step semantics), `CodeOf`, `CodeFrames`, `Assembly`, `Building`, `ExprCode`, `StmtCode`, `LoopCode`, `FnCode`, `Compiler`, `Isolation`, `Simulation`, `Faithfulness`, `Assignments`, `Programs` |
| Parser and formatter | `Tokens`, `Grammar`, `Parser`, `Depths`, `Pratt`, `Format`, `Spines`, `RoundExprs`, `RoundStmts`, `RoundTrip`, `Losses` |
| Folding and the pipeline | `Folding`, `Meaning`, `FoldedRuns`, `Numbering`, `Pipeline`, `LongCode`, `Compilations` |
| The .cbc file | `Serializer`, `Loader` |
| Maps on the moving heap | `OrderedMap`, `Relocation`, `Following`, `MovingHeap`, `HeapMoves` |
| Numeric and string builtins | `EditDistance`, `Numbers` |

How to read the main notions:

- A memory maps the addresses of the objects that may be read to those objects, so
  reading evacuated, overwritten or freed memory does not verify.
- `Graph.Renaming(m, m', names)` says that `names` is a bijection of addresses under
  which the objects of `m` it covers are those of `m'`: kinds, fields, order of
  children and sharing. `Graph.Indistinguishable` is what it means for a program: the
  same finding on every path from every root.
- `Doing(j, u)` and `ExprDone(e, dst, u, v)` say what the compiler's state is in the
  middle of a job and what a finished expression added to it.
- `Runs(c, st, st', k)` says that the machine takes `k` steps from `st` to `st'`.
- A semantics takes `AsMeant` or `AsCompiled`: they differ only in what an assignment
  to a variable does while its right side is being evaluated.

## Model

| member | source | states |
|---|---|---|
| HeapModel.Heap.Copy | src/heap.cc:116-140 | an old object stays; a young one ends up with its forwarding address, set at most once in a cycle; the collection invariant is kept and nothing already forwarded is lost |
| HeapModel.Heap.CopyPromote | src/heap.cc:146-159 | as `Copy`, but into the old arena; without the over-cap flag set nothing new went to the young space; when the holders' children have room it never spills |
| HeapModel.Heap.Trace | src/heap.cc:161-201 | every child of a young copy ends up forwarded and the object keeps its shape |
| HeapModel.Heap.TraceFromOld | src/heap.cc:208-256 | every child of an old holder ends up forwarded, and the holder is remembered for the next cycle exactly if one of them stayed young |
| HeapModel.Heap.ScanFrontiers | src/heap.cc:288-308 | the two-frontier scan ends, and then every survivor has been traced and the next remembered set is exact |
| Minor.EvacuateStep | src/heap.cc:116-159 | copying one object keeps the whole collection invariant, gap-free runs and byte budget included, and leaves one object fewer to copy |
| Minor.ToSpaceFits | src/heap.cc:128-137 | the young to-space always has room for the next survivor, so the fallback that gives up is never taken |
| Minor.AdvanceStep | src/heap.cc:161-256 | forwarding one more child of a copy keeps the collection invariant |
| Minor.DrainedIsRenaming | src/heap.cc:272-319 | once both frontiers are drained, what is left is the old memory under a bijective renaming, closed and with clean headers |
| Minor.OnlyLiveKept | src/heap.cc:272-319 | nothing young survives that was not reachable |
| Minor.Finish | src/heap.cc:272-319 | a drained cycle is a renaming of heap and roots that keeps exactly the old objects and what handles, root cells and remembered holders reach |
| HeapModel.Heap.CollectMinor | src/heap.cc:272-319 | any minor collection that leaves the over-cap flag clear, and any that starts without repeats in the remembered set, renames the heap and all roots, keeps exactly the old and the reachable objects, moves no old one, leaves nothing else behind, re-establishes the exact duplicate-free remembered set, ages or promotes each survivor by its age, and never makes the young space fuller; the flag is never set when everything young would fit the old arena |
| HeapModel.Heap.RoomyIsCollectable | src/heap.cc:53-58 | repeats in the remembered set are harmless when everything young would fit the old arena |
| Major.MarkedExactly | src/heap.cc:392-414 | an old object is marked exactly if roots, or young survivors, reach it |
| HeapModel.Heap.MarkLive | src/heap.cc:392-414 | clears all scratch and marks exactly the old objects that are held |
| Major.SlideMove | src/heap.cc:441-450 | moving one object down in place destroys only dead objects and objects already moved: everything not yet moved and every header still to be walked is intact |
| HeapModel.Heap.SlideOld | src/heap.cc:441-450 | every live object lands whole at its precomputed address |
| HeapModel.Heap.Relocate | src/heap.cc:416-457 | addresses, pointer updates, slide and clearing fit together: roots are renamed and the compacted region holds the live objects with clean headers |
| Major.CompactionDone | src/heap.cc:392-460 | marking, addresses, updates and slide together are a compaction: live objects renamed, order kept, a gap-free run |
| HeapModel.Heap.CompactOld | src/heap.cc:392-460 | a major collection keeps exactly the old objects that are held, in order and without gaps, renames heap and roots, and leaves a well-formed heap |
| Remembered.RememberedSurvives | src/heap.cc:392-460 | after a major collection the remembered set is still exact if and only if no dead old object lay below a remembered holder |
| Remembered.StaleExampleOk | src/heap.cc:392-460 | a well-formed heap of three objects with an exact remembered set |
| Remembered.StaleExampleFails | src/heap.cc:392-460 | compacting that heap leaves an old object with a young child that is not remembered |
| HeapModel.Heap.Collect | src/heap.cc:323-326 | likewise, collecting renames heap and roots; the remembered set is exact afterwards if and only if no compaction ran or it moved or dropped no holder |
| HeapModel.Heap.Bump | src/heap.cc:99-109 | likewise, an allocation renames heap and roots and yields the end of the young run, or fails with the over-cap flag set and the heap intact; with room nothing is collected |
| HeapModel.Heap.NewObject | src/heap.cc:533-580 | a new object is none of the renamed old ones and holds what it was given |
| HeapModel.Heap.NewSlots | src/heap.cc:558-568 | a new slot block holds only nil |
| StaleRun.Stale | src/heap.cc:323-326 | from an empty heap, allocations, one store and three collections, with nothing over the cap, lead to a heap whose remembered set misses a holder |
| HeapModel.Heap.WriteBarrier | src/heap.cc:53-58 | records the holder exactly if it is old and the value young |
| HeapModel.Heap.Store | src/interp.cc:449-450 | store and barrier together keep the remembered set complete and change just that slot |
| Verifier.VerifyFn | src/verifier.cc:112-214 | accepts a function if and only if every instruction is complete, has its operands and call window in range, and jumps to an instruction |
| Verifier.Verify | src/verifier.cc:218-224 | accepts a module if and only if every function is accepted |
| Decoder.DecodeAt | src/interp.cc:210-214 | what was encoded is decoded, with the encoding's length |
| Decoder.InstrOkIsFits | src/verifier.cc:148-198 | the verifier's table-driven check of an instruction is exactly that the decoded instruction's operands and call window are in range |
| Safety.StepInv | src/interp.cc:199-653 | in a verified module every step is possible and keeps the machine invariant |
| Safety.VerifiedRunsAreSafe | src/interp.cc:150-657 | in every reachable state each frame is at an instruction start or the end of its code, has the registers its function asked for, returns into its caller's window, and the depth limit holds |
| Safety.Run | src/interp.cc:150-657 | the run loop stops within the budget with what that many steps lead to, or with the budget error |
| CompilerModel.Compiler.Intern | src/compiler.cc:63-86 | returns the index of a constant equal to the one asked for, adds at most one, and never changes an earlier one |
| CompilerModel.Compiler.PatchTo | src/compiler.cc:110-117 | the jump at that place leads to the target and nothing else changed, or compilation has failed |
| CompilerModel.Compiler.FindOrAddUpvalue | src/compiler.cc:125-137 | a name captured before keeps its place, a new one is listed with the register the enclosing function keeps it in, and the answer is -1 only if it is no name of that function |
| CompilerModel.Compiler.Expr | src/compiler.cc:189-440 | the code of any expression writes only its result register and temporaries, jumps only within itself, keeps every earlier instruction, and on the simple fragment is the code the semantics is proved about |
| CompilerModel.Compiler.LambdaExpr | src/compiler.cc:143-187 | compiling a function expression does what compiling any expression does: the enclosing code, names, loops and captures are kept, nothing but the result and temporaries is written, and the function and all those in it are compiled |
| CompilerModel.Compiler.Statement | src/compiler.cc:444-590 | the code of any statement is added without touching what was there, leaves the registers in use as they were, and on the simple fragment is the code the semantics is proved about |
| CompilerModel.Compiler.LoopStmt | src/compiler.cc:523-573 | after a loop no jump of it is left unpatched and the enclosing loops are as they were; on the simple fragment breaks lead behind the loop, continues to the condition or the step, and the back jump to the start |
| CompilerModel.Compiler.Body | src/compiler.cc:608-645 | a finished function passes the verifier, with as many registers as its high-water mark |
| CompilerModel.Compiler.IndexLambdas | src/compiler.cc:652-662 | every function expression has its own slot before any body is compiled |
| CompilerModel.Compiler.Run | src/compiler.cc:664-700 | if compilation succeeds the module passes the verifier and the entry function's code is that of the program's statements |
| Programs.Compile | src/compiler.cc:705-717 | success means a verified module whose functions have string names and sizes that fit their bytes |
| Isolation.CompiledIsFenced | src/compiler.cc:189-440 | the bytes of any compiled expression, calls and closures included, write no register but the result's and the temporaries, and are left only at their end |
| Isolation.FencedRuns | src/interp.cc:199-653 | while such code runs, however deep its calls go, its frame's other registers and all frames below keep their values |
| Isolation.ExpressionsSpare | src/compiler.cc:594-645 | running a compiled expression to its end leaves every local and every earlier operand and argument as it was |
| Simulation.ExprRuns | src/compiler.cc:189-317 | the code of an expression puts its value into the result register, or stops with its error |
| Faithfulness.LoopRuns | src/compiler.cc:523-573 | the code of a loop does what the loop means, with break and continue, for any number of rounds |
| Faithfulness.AllRuns | src/compiler.cc:444-590 | the code of a list of statements ends as the statements do: fallen through, left by break or continue, returned, or stopped by the same error, with the same output and variables |
| Programs.MainRuns | src/interp.cc:150-657 | the compiled entry function, run by the machine, has the output, final variables or error of the source semantics, assignments read as they are compiled |
| Programs.MainRunsAsMeant | src/compiler.cc:472-500 | when no variable is read on the right of an assignment to it whose root is a logical operator, that is what the program means |
| Programs.EnoughBudget | src/interp.cc:200 | a run that ends within the budget is unchanged by it |
| Assignments.AssignedExact | src/compiler.cc:472-500 | at any nesting of logical operators, an assignment as compiled gives what it means if and only if, operand by operand, overwriting the variable changes no truth that counts |
| Assignments.OverwrittenExact | src/compiler.cc:472-500 | for one logical operator: right if and only if the first operand stops or decides, or the second operand is as true with the variable overwritten by the first operand's value as with it untouched |
| Assignments.HarmlessOverwrite | src/compiler.cc:472-500 | after `x = 1;`, `x = 2 && x;` reads the overwritten variable and still gives the meant true |
| Programs.MisreadMeans | src/compiler.cc:472-500 | `x = 0; x = 1 && x; print x;` means to print false, and as compiled prints true |
| Programs.MisreadRuns | src/compiler.cc:472-500 | every compilation of that program, run by the machine, prints true |
| Compilations.MisreadHappens | src/compiler.cc:472-500 | and there is one: 33 bytes of code that print true |
| ParserModel.Parse | src/parser.cc:528-538 | the parser accepts exactly what the grammar does and builds the grammar's tree |
| ParserModel.Parser.ParseExpr | src/parser.cc:293-313 | the climbing loop reads what the grammar's precedence rule does, position and depth included |
| ParserModel.Parser.ParseStatement | src/parser.cc:456-513 | a statement is read as the grammar reads it, and the depth is given back |
| Depths.ExprShallower | src/parser.cc:293-313 | the depth limit only refuses: an expression accepted at one depth is read the same at any smaller one |
| Depths.StatementShallower | src/parser.cc:456-513 | the same of statements |
| Pratt.ClimbingOrders | src/parser.cc:293-313 | whatever expression is accepted, it was read as a tree whose left operators bind at least as tightly and whose right operators bind more tightly than their parent |
| Pratt.Unique | src/parser.cc:13-35 | there is only one such tree over a row of operands and operators |
| Pratt.OnlyTree | src/parser.cc:293-313 | the tree read is the only tree over those tokens that respects the binding powers, for operands of any kind |
| Pratt.OneTree | src/parser.cc:293-313 | a row of one-token operands parses whatever its length, to the one tree over its items |
| Format.FormatSource | src/astprint.cc:412-420 | prints the tokens of every statement |
| RoundTrip.FormatThenParse | src/astprint.cc:17-21 | formatting a parsed program and parsing it again gives it back if and only if its printed form stays within the depth limit, no statement starts with a map or function literal, and no string has a carriage return |
| RoundTrip.AssignedFunctionKept | src/astprint.cc:377-380 | a function value assigned in a statement comes back as it was whatever statements follow, as its semicolon is printed |
| Losses.LongSums | src/astprint.cc:215-218 | a sum of n additions parses whatever n is, and survives formatting if and only if n is at most 98 |
| Losses.BracedIsLost | src/astprint.cc:318-382 | the parser reads `({});` as a map literal, and refuses what the formatter makes of it, `{};` |
| Losses.FunctionIsLost | src/astprint.cc:318-323 | the parser reads `(fn() {});` as a function literal, and refuses what the formatter makes of it, `fn() {}` |
| Tokens.EscapeExact | src/astprint.cc:193-206 | a string survives printing and reading if and only if it has no carriage return |
| Folding.FoldTwice | src/optimize.cc:143-152 | folding a folded expression changes nothing |
| Folding.FoldAllTwice | src/optimize.cc:156 | folding a folded program changes nothing |
| Meaning.FoldKeeps | src/optimize.cc:63-152 | an expression without `!` on a text evaluates, folded, to the same value, error and state in every world, whatever calls, fields and variables do in it; with it, in worlds where making a text has no effect |
| Meaning.NotTextExact | src/optimize.cc:124-128 | folding `!"t"` is right in a world and state if and only if making the text would succeed there and change nothing |
| Meaning.NotTextDiffers | src/optimize.cc:124-128 | over the machine's objects, `!"t"` makes one more of them or runs out of memory, its folded form does neither: they agree on the outcome if and only if there is room |
| Meaning.NotTextSteps | src/interp.cc:397-403 | the two instructions `!"t"` compiles to do on the machine just that: false and one object more, or an out-of-memory stop when allocation fails |
| Meaning.FoldExact | src/optimize.cc:63-152 | folding keeps every expression's meaning in a world if and only if making texts has no effect in it |
| FoldedRuns.ExecAllSame | src/optimize.cc:143-156 | folded statements run as the unfolded ones do |
| Numbering.NumbersDistinct | src/compiler.cc:652-662 | function expressions told apart by number are distinct, as nodes are by address |
| Pipeline.CompileSource | src/vm.cc:13-28 | what is accepted was parsed, folded, compiled to a verified module and serialized |
| Pipeline.RunFile | src/vm.cc:30-41 | loads, verifies and runs, with the error of the first step that refuses |
| Pipeline.NeverRefused | src/vm.cc:13-41 | a program that was accepted, and fits the file, is refused neither by the loader nor by the verifier: running its file is running it |
| Pipeline.FitsExact | src/module.cc:32-79 | a compiled module reads back as itself if and only if its literals and sizes fit the file format |
| Pipeline.SourceToRun | src/vm.cc:13-41 | from source tokens to the run of the file: the output, variables or error are those the unfolded source means |
| LongCode.LongCodeIsLost | src/module.cc:66-75 | the condition can fail: no compilation of a program of 2^31 assignments reads back from its file |
| Compilations.LongCodeHappens | src/module.cc:66-75 | and there is such a compilation, of any number of assignments |
| Serializer.Serialize | src/module.cc:32-79 | writes the module's bytes |
| Loader.RoundTrip | src/loader.cc:64-149 | a serialized module followed by anything loads as itself |
| Loader.RoundTripExact | src/module.cc:32-79 | a module survives serializing and loading if and only if it fits the format |
| Loader.LoadedFits | src/loader.cc:64-149 | whatever bytes load, they load as a module that fits the format |
| Loader.PrefixRefused | src/loader.cc:64-149 | no strict prefix of a serialized module loads |
| Loader.Load | src/loader.cc:64-149 | loads what the format says, refuses the rest, and the cursor never passes the end of the data |
| Loader.Reader.Take | src/loader.cc:23-46 | a read yields the number there and moves on, or sets the sticky flag and stays |
| OrderedMap.PutRefines | src/interp.cc:103-146 | inserting keeps keys unique and in order of insertion, and changes the value of that key alone |
| OrderedMap.RemoveRefines | src/native.cc:742-755 | removing takes out that key alone |
| OrderedMap.PutThenRemove | src/native.cc:742-802 | removing a key that was just inserted undoes the insertion |
| OrderedMap.PutAllRefines | src/native.cc:1215-1235 | merging keeps keys unique, and the second map wins |
| MovingHeapModel.MovingHeap.MapSet | src/interp.cc:103-146 | though every allocation may move every object, a successful insertion leaves the map with just that entry put, a failed one leaves it as it was, and every other object is unchanged up to the renaming |
| MovingHeapModel.MovingHeap.Insert | src/native.cc:761-802 | the same of the part after the key was not found: growth by doubling, the new key, the re-read value |
| MovingHeapModel.MovingHeap.Grow | src/interp.cc:112-133 | growing keeps the entries, or fails with the map as it was |
| MovingHeapModel.MovingHeap.RemoveKey | src/native.cc:742-755 | removes the entry and keeps the others in order, touching nothing but the map's own blocks |
| MovingHeapModel.MovingHeap.Merge | src/native.cc:1215-1235 | a new map with the entries of both, the second winning, while both sources may move at every step |
| MovingHeapModel.MovingHeap.Find | src/interp.cc:90-98 | the index of the key's entry, or that there is none |
| MovingHeapModel.MovingHeap.Root | src/heap.h:141-145 | a rooted address can be re-read under the index handed out |
| MovingHeapModel.MovingHeap.Release | src/heap.h:127-130 | a scope's end leaves the handles of the enclosing scopes |
| MovingHeapModel.MovingHeap.NewString | src/heap.cc:462-478 | the string holds its text although its bytes may have moved before it was made |
| MovingHeapModel.MovingHeap.NewArray | src/heap.cc:480-497 | the array holds nils although its slots may have moved |
| MovingHeapModel.MovingHeap.NewClosure | src/heap.cc:499-515 | the closure holds its own slots although they may have moved |
| MovingHeapModel.MovingHeap.NewIter | src/heap.cc:517-531 | the iterator holds the array it was given, wherever it is by then |
| MovingHeapModel.MovingHeap.NewMap | src/heap.cc:533-545 | the new map is empty |
| HeapMoves.CollectMinor | src/heap.cc:272-319 | what the minor collection does to the heap is a move in the sense the maps are proved for, unless it sets the over-cap flag |
| HeapMoves.CompactOld | src/heap.cc:392-460 | so is what the major collection does |
| HeapMoves.Bump | src/heap.cc:99-109 | so is what any allocation does, unless it sets the over-cap flag |
| EditDistance.Levenshtein | src/native.cc:2565-2584 | the two rolling rows compute the distance |
| EditDistance.NoFewer | src/native.cc:2565-2584 | no script of insertions, deletions and substitutions turns one text into the other in fewer edits |
| EditDistance.SoMany | src/native.cc:2565-2584 | some script does it in that many |
| EditDistance.Symmetric | src/native.cc:2565-2584 | the distance is the same both ways |
| EditDistance.Triangle | src/native.cc:2565-2584 | going over a third text is never shorter |
| EditDistance.ZeroMeansEqual | src/native.cc:2565-2584 | the distance is zero exactly between equal texts |
| Numbers.Ncr | src/native.cc:2959-2973 | a returned number is exactly C(n, k) and fits 64 bits; overflow is reported if and only if some partial product would not fit |
| Numbers.Absorption | src/native.cc:2966-2970 | k C(n, k) = n C(n-1, k-1), why every division in the loop is exact |
| Numbers.PowMod | src/native.cc:2342-2362 | the result is b^e mod m, with every product within 64 bits, and the three refusals are as coded |

## Findings

Where the code does not do what it or its documentation promises, the model keeps the
code as it is, a lemma shows an input that fails, and a theorem says exactly when it
does not.

| what fails | input | exactly when it holds |
|---|---|---|
| `compact_old` slides old objects but leaves `remembered_` as it was (src/heap.cc:392-460), so a moved holder of a young object is no longer remembered and the next minor collection can lose its child | a dead function object below a slot block that holds a young one: `Remembered.StaleExampleFails`; a run from an empty heap that ends so, `StaleRun.Stale` | no dead old object lies at or below a remembered holder: `Remembered.RememberedSurvives`; in `HeapModel.Heap.Collect`, no compaction ran or that holds |
| an assignment compiles its right side straight into the variable's register (src/compiler.cc:478), which a logical operator writes before it has read its second operand | `x = 0; x = 1 && x; print x;` prints true: `Programs.MisreadMeans`, `Programs.MisreadRuns`, `Compilations.MisreadHappens` | the overwriting changes no truth that counts: `Assignments.AssignedExact`; for a single operator, the first operand stops or decides, or the second is as true with the variable overwritten as with it untouched: `Assignments.OverwrittenExact`. A check on the text that suffices, but is not necessary (`Assignments.HarmlessOverwrite`), is `Assignments.SafeTarget` |
| "fully parenthesizing ... guarantees the emitted source re-parses to an equivalent tree" (src/astprint.cc:17-21) | `a + a + ... + a` with 99 additions is refused after formatting: `Losses.LongSums` | `RoundTrip.FormatThenParse`: the written depth is at most 200 and the statements are sound |
| the same | `({});`, read as a map literal, is written `{};` and refused: `Losses.BracedIsLost`; `(fn() {});` is written `fn() {}` and refused, as a declaration without a name: `Losses.FunctionIsLost` | the same theorem, `Spines.SoundS` |
| an assigned function value is to be printed without a semicolon (src/astprint.cc:182-191) | `g = fn() {};` is printed with one: the parser hands on an assignment statement as a bare assignment node (src/parser.cc:507), which the formatter's default branch prints (src/astprint.cc:377-380) | harmless; without the semicolon a next statement that starts with `-`, `(` or `[` would become part of the assignment, as it is it never does: `RoundTrip.AssignedFunctionKept` |
| a string is printed so that it reads back (src/astprint.cc:193-206, src/parser.cc:120-141) | a carriage return comes back as the letter r | there is none in the string: `Tokens.EscapeExact` |
| folding leaves "the program's observable behavior ... unchanged" (src/optimize.cc:19-23) | `!"a"` when memory is full: unfolded it runs out of memory, folded it is false: `Meaning.NotTextDiffers`, on the machine `Meaning.NotTextSteps` | `Meaning.NotTextExact` for the expression, world and state; `Meaning.FoldExact` for all expressions of a world |
| the file holds every compiled module | `x = nil;` 2^31 times over, which parses (`LongCode.ClearsParse`): its code is longer than 4 GB, a length the file cannot tell and nothing refuses, so that no compilation of it reads back: `LongCode.LongCodeIsLost`, `Compilations.LongCodeHappens` | the parts are below 4 GB and the literals in range: `Pipeline.FitsExact` |
| "every read returns 0 once `bad` is set" (src/loader.cc:9-11) | after a 4-byte read that does not fit, a 1-byte read that does still returns its byte | `Loader.Reader.Take` follows the code; `load_cbc` tests the flag before it uses a value, so what it returns is not affected |

## Left out

- HeapModel.Heap.CollectMinor: of one kind of cycle it says only that the over-cap flag is set: a holder is listed twice and, by the second time, a child of it was spilled to the young space because the old arena is full. That child is then copied once more (src/heap.cc:151, 281), and from there on the cycle is given up as `lost`. The comment that the scan tolerates repeats (src/heap.cc:56) holds in all other cycles. `Collect`, `Bump`, `NewObject` and `NewSlots` pass the outcome on.
- MovingHeapModel.MovingHeap.MapSet: capacities are unbounded, so a capacity that wraps around at 2^32 entries is not modelled; the write barrier is proved in `HeapModel.Heap.Store` and not repeated here.
- MovingHeapModel.MovingHeap.Merge: the type checks on the arguments and the error text are not modelled; both sources are maps.
- CompilerModel.Compiler.Run: says nothing of the module when compilation fails, nor which error text and line it reports; an operation that fails emits nothing, where the code may have emitted an opcode first.
- Programs.MainRuns: covers entry statements built of integers, booleans, nil, variables, unary, binary and logical operators, assignments to variables, print, if, while, for, break, continue, return and blocks. Doubles, texts, arrays, maps, calls and closures are compiled, verified and kept safe and isolated, but have no source semantics here. Every variable the entry statements mention is to be assigned in one of them (`Programs.VariablesAssigned`), which by `Programs.AssignedAreLocals` is just when the compiler gives each a register: any other name it takes for a declared function, used as a value, or refuses.
- Pipeline.SourceToRun: has the same fragment, and asks that the module fits the file (`Pipeline.FitsExact`, exact; `LongCode.LongCodeIsLost` shows it can fail). That literals are 64-bit numbers and byte strings is part of that condition and not derived from the lexer, which is left out.
- Meaning.FoldKeeps: an expression with `!` on a text needs a world where making a text has no effect; `Meaning.NotTextExact` is the condition for the rest.
- FoldedRuns.ExecAllSame: is about the simple fragment, in which there are no texts.
- Loader.Load: the error texts are one refusal.
- Safety.VerifiedRunsAreSafe: builtins are any functions from arguments and objects to a value and objects that do not take objects away; objects are never moved or freed there, and whether an allocation succeeds is decided by the environment.
- RoundTrip.FormatThenParse: is about tokens; white space, the text of numbers and the lexer are left out.
- ParserModel.Parse: gives no error text or position, and every function expression the number 0, which `Numbering.NumberAll` replaces.
- Numbers.Ncr: argument type checks are left out, as in `Numbers.PowMod` and `EditDistance.Levenshtein`.
- Byte layout of objects, malloc, poisoning and the visitor callback: addresses are an arena and an offset, sizes are those of the structs, roots are a list of cells.
- In-place rewriting of syntax nodes by the optimizer: folding is modelled on trees as values, so that two references to one node do not exist.
- Doubles: opaque bits with arithmetic as a parameter; interning merges constants the parameter calls equal.
- The texts that `print` renders: the output is the list of printed values.
- The command line, the disassembler, the token and tree dumps, the fuzzer, and the other builtins: they would add only easy members.
