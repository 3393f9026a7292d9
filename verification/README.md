# Lanky, modelled and verified in Dafny

Lanky is a scripting language written in C: a compiler from syntax trees to bytecode, a stack
machine, a mark-and-sweep collector over a block allocator, a regex engine, and a small runtime
library. This project models the parts of it whose correctness cannot be read off a single
function, and proves what they are for. Where the program does not do what it is for, the model
does what the program does, a lemma or method gives an input that shows it, and the exact
condition under which all is well is proved. `dafny verify dfyconfig.toml` checks everything.

## The parts

- **Compiler and machine** (`vm_*.dfy`, `bytecode_analyzer.dfy`, `doubles.dfy`). `vm_syntax` and
  `vm_semantics` give the language and a big-step evaluator that knows no bytecode; `vm_machine`
  is one turn of the dispatch loop as a function. `vm_layout` says which bytes are code for a
  tree, with tags or with addresses. `vm_compiler` is the compiler as a class that appends to its
  lists and patches tags in place; its output is code for the tree (`vm_assembly`, `vm_carry`,
  `vm_tags`, `vm_addresses`). `vm_runs`, `vm_expressions` and `vm_statements` prove that the
  machine on such code does what the evaluator does, and the other way round. `vm_exceptions` has
  the two kinds of programs with a try for which that is false. `vm_constants` says when
  interning integer constants is safe.
- **Stacks** (`vm_depth`, `vm_block_depth`, `vm_stack`, `bytecode_analyzer`, `vm_estimates`,
  `vm_operands`, `vm_interpreter`, `vm_program`). How deep the operand stack is at each address and which
  handlers wait there; that every run keeps to it; that the analyzer's sums are large enough, and
  programs for which they are not; the machine on arrays of fixed size; all of it together.
- **Variables** (`vm_names`, `vm_name_lists`, `vm_name_compiler`). Which accesses to a variable
  get a local slot and which go through closures, when functions are nested and code that is
  already emitted is rewritten in place.
- **Regex engine** (`regex_*.dfy`). Parser, Thompson automata threaded with patch lists, subset
  simulation with generation marks.
- **Collector** (`gc*.dfy`), **allocator** (`aquarium.dfy`), **hash tables** (`hashtable.dfy`, and
  `gc_hashset.dfy`, both on the linked cells of `chains.dfy`), **serializer** (`serialize.dfy`,
  `buffers.dfy`), **event queue** (`runtime.dfy`, on `arraylist.dfy`), **strings**
  (`strings.dfy`).

What the model takes as given: the operators, calls, printing and the indexing of anything but
arrays are functions of the values and the world, which may change the world, raise, or crash;
what `malloc` returns and what memory holds before it is written are parameters; threads are the
moments at which their events fire; pointers are indices into a sequence of cells, except where a
class stands for the pointed-to object.

## Model

| member | source | states |
|---|---|---|
| RegexPattern.ParserInvertsPrint | src/stdlib/regex.c:146-462 | every well-formed pattern, brackets, ranges, escapes and predefined classes included, parses to the tree it was written from, without an error and without reading past its end |
| RegexEngine.Regex.Patch | src/stdlib/regex.c:464-488 | following the list that is threaded through the open slots fills exactly these slots, and ends |
| RegexEngine.Regex.Build | src/stdlib/regex.c:499-604 | every builder adds an automaton for its tree behind the old states, whose dangling list names exactly the open slots, once each, and leaves the old states alone |
| RegexNfa.WiredSound | src/stdlib/regex.c:514-604 | an accepting run through the wired automaton of a tree first reads a word of that tree and leaves by its exit in fewer moves |
| RegexNfa.WiredComplete | src/stdlib/regex.c:514-604 | any word of the tree takes the automaton wired for it from its entry to its exit |
| RegexNfa.CompiledLanguage | src/stdlib/regex.c:202-224 | the start-to-MATCH runs of the pool that compilation leaves spell exactly the words of the tree |
| RegexEngine.Regex.AddState | src/stdlib/regex.c:606-627 | from any state, cycles of silent moves included, exactly what is silently reachable gets marked, its consuming and MATCH states are listed without duplicates and within the room of the list, and `matched` says whether MATCH was among them |
| RegexEngine.Regex.Step | src/stdlib/regex.c:669-684 | from a list of the states of S, the new list holds without duplicates the consuming and MATCH states of the closure of the moves of S, and `matched` says whether MATCH is among them |
| RegexClosure.AfterAccepts | src/stdlib/regex.c:850-887 | what the states reached on a text accept is exactly what the start accepts of that text and the rest |
| RegexEngine.Regex.Match | src/stdlib/regex.c:850-887 | on a ready regex the answer is 1 exactly when the subject is not empty and in the language of the tree, and on one that is not ready it is 0; a regex is ready when it is compiled, and after a subject exactly if any character was ever read |
| RegexEngine.FullMatch | src/stdlib/regex.c:202-224 | compiling a well-formed pattern and matching a subject decides the language of the pattern, with or without regard to case, but for the empty subject |
| RegexEngine.MatchEach | src/stdlib/regex.c:850-887 | of any number of subjects each is answered correctly exactly unless it is empty, or is not the first and all before it were empty |
| RegexEngine.EmptyFirst | src/stdlib/regex.c:866-872 | both exceptions happen: `a?` turns the empty subject down, and the subject `a` right after it |
| LankyCompiler.CompilerWrapper.ReplaceTags | src/compiler/ast_compiler.c:1544-1586 | walking backwards, every marker becomes IGNORE, the four slots of every use become the address of its marker in little-endian order, and nothing else changes |
| LankyTags.ResolvedBytes | src/compiler/ast_compiler.c:325-337 | when every used tag has its marker, no tag and no placeholder is left: only values from 0 to 255, and the counts of arguments as they were |
| LankyCompiler.CompilerWrapper.CompileTryCatch | src/compiler/ast_compiler.c:466-500 | appends code for the try statement, with its two tags marked behind all their uses and the loop stacks as before |
| LankyCompiler.CompilerWrapper.CompileAst | src/compiler/ast_compiler.c:1635-1708 | for every tree whose calls have fewer than 1000 arguments, nested loops, conditions and try blocks with break and continue anywhere inside of loops included, the finished bytes are code for the tree, and all of them are bytes; every constant has the place of one that compares equal to it, which is the constant itself if no two integers are the same double; and the table of constants is the interned list of the constants of the tree |
| LankyStatements.ProgramRuns | src/interpreter/lky_machine.c:326-985 | with enough fuel the machine stops with the evaluator's result; a program that runs out of fuel keeps the machine running for as many turns |
| LankyStatements.ProgramMeans | src/interpreter/lky_machine.c:326-985 | the machine on the code of a program stops with a result (value or uncaught error, variables, arrays, output) exactly when the evaluator has that result, for loops over growing arrays, break, continue, raise and try too, in the body of a for-in as well if its block, by the form of its expressions, can only fail with no operand waiting |
| LankyStatements.CaughtAt | src/interpreter/lky_machine.c:349-376 | a noted error goes to the innermost handler with whatever is on the operand stack at that moment, and gets its name there; so the stack is as it was at the entry of the block exactly if no operand was pending |
| LankyStatements.RaiseRestores | src/interpreter/lky_machine.c:976-980 | none is for a raise whose operand has a value |
| LankyExpressions.TidyFails | src/interpreter/lky_machine.c:349-376 | none is for an expression in which only undeclared variables can fail, with nothing computed in front of them but what is used up |
| LankyExceptions.FailingCaught | src/interpreter/lky_machine.c:349-376 | in the code of any try around `nil + y` with y undeclared, the handler starts with exactly the nil left above the old operands |
| LankyExceptions.BuriedIterator | src/interpreter/lky_machine.c:911-931 | on the code of `for x, i in [nil, nil] { try { nil + y } catch e { } }` the machine makes one round where the program has two, and ends with different variables |
| LankyExceptions.StaleHandler | src/compiler/ast_compiler.c:630-652 | a break out of a try leaves its handler waiting: a program that ends with an error raised behind the loop returns nil on the machine |
| LankyRuns.ArgumentsPassed | src/interpreter/lky_machine.c:614-632 | the count of arguments is cut to a byte and read back as a signed char: the callee gets so many of the topmost ones, the others stay on the operand stack; it gets all exactly if there are no more than 127 |
| LankyProgram.CompileProgram | src/compiler/ast_compiler.c:1635-1708 | compiling gives bytes that stop with a result exactly when the program has it, unless two integers are the same double, a call has more than 127 arguments, a try stands in a for-in whose block may, by the form of its expressions, fail with operands waiting, or a try is left by a break or continue; with them a stack size no less than the greatest depth, for plain programs, and the catch size |
| LankyProgram.Interpret | src/interpreter/lky_machine.c:253-294 | on arrays of the stored sizes, when no break or continue leaves a try, the machine writes beyond the arrays exactly if the operands do not fit, and is otherwise after any number of turns where the machine function says |
| LankyProgram.PeakIsWithin | src/interpreter/lky_machine.c:106-118 | without a try the operands fit in every run if the stack size is no less than the greatest depth |
| LankyProgram.CompileAndRun | src/compiler/ast_compiler.c:1635-1708 | from any tree to its result, through the analyzer's own sizes: a run that stops gives the program's result, and a program that has a result has a run that stops, unless something is written beyond an array, which happens exactly if a turn of the machine needs more than the sizes; never for plain programs |
| LankyConstants.LoadedExactly | src/compiler/ast_compiler.c:1202-1213 | every use of a constant loads that constant exactly if no two integers of the program become the same double |
| LankyConstants.SmallToldApart | src/interpreter/lkyobj_builtin.c:646-671 | which is so if they are no larger than 2^53 |
| LankyConstants.WrongConstant | src/compiler/ast_compiler.c:1202-1213 | 2^53 + 1 behind 2^53 loads 2^53 |
| LankyStack.DepthKept | src/interpreter/lky_machine.c:106-140 | in every run of the code of a program without try the operand stack between two instructions is exactly as deep as the place says, and never deeper than the greatest depth |
| LankyStack.CatchesKept | src/interpreter/lky_machine.c:349-376 | in every run of code where no break or continue leaves a try, with an error noted between any two turns, the catch stack between two instructions is exactly the handlers of the try blocks around the place, and an error goes to the innermost one, where the others are left |
| LankyStack.CatchesBounded | src/compiler/bytecode_analyzer.c:45-54 | and it is never deeper than the number of bytes that look like PUSH_CATCH |
| BytecodeAnalyzer.CalculateMaxCatchDepth | src/compiler/bytecode_analyzer.c:45-54 | the loop returns that number |
| BytecodeAnalyzer.PassAbove | src/compiler/bytecode_analyzer.c:24-39 | at every instruction of plain code the one-pass sum is no less than the depth there, whatever branches there are |
| BytecodeAnalyzer.StackSuffices | src/compiler/bytecode_analyzer.c:24-39 | so the analyzer's maximum is enough for every run of a program that loads no element, has fewer than 50 arguments in each call, no break, continue or try, and whose code, constants and names number at most 12800 |
| LankyEstimates.BreakNeedsMore | src/compiler/bytecode_analyzer.c:56-137 | the POP behind a break is counted though never reached: the analyzer says one for a program whose every run has two operands |
| LankyEstimates.LeaverOverruns | src/interpreter/lky_machine.c:106-118 | run on a stack of that size, the second operand of that program is written one place beyond it |
| LankyOperands.LargeOperandsNeedMore | src/compiler/bytecode_analyzer.c:56-137 | the upper bytes of the operand 12800 are taken for an operator: compiled, `0; 1; ..; 12799; 12800 + 12800;` gets the stack size one, and every run of it has two operands |
| LankyOperands.IndexNeedsMore | src/compiler/bytecode_analyzer.c:56-137 | the byte behind LOAD_INDEX is skipped: compiled, `0; 1; ..; 74; [[0][0], 75, 75, 75, 75];` gets the stack size four, and every run of it has five operands |
| LankyEstimates.TryNeedsMore | src/interpreter/lky_machine.c:349-376 | a loop around a try that fails with an operand pending has exactly n operands more after n rounds, so that no size is enough |
| LankyEstimates.HoarderGoesOn | src/interpreter/lky_machine.c:106-118 | while that program itself just goes on, whatever the fuel |
| LankyInterpreter.StackFrame.PushNode | src/interpreter/lky_machine.c:106-118 | the program exits exactly if the pointer is at the size of the stack or above; the operand goes one place beyond the array exactly if the pointer is one below the size; with room left, it is on top and the rest unchanged |
| LankyInterpreter.StackFrame.MachEval | src/interpreter/lky_machine.c:326-985 | the loop over arrays updated in place is turn by turn where the machine function is, up to the first turn whose operands or handlers do not fit, in which something is written beyond an array |
| LankyNameCompiler.NameCompiler.SwitchToClose | src/compiler/ast_compiler.c:159-185 | the access becomes a closure access of the name, and no other byte and no length changes |
| LankyNameCompiler.NameCompiler.AppendVarInfo | src/compiler/ast_compiler.c:202-279 | every access to the name in the functions around loses its slot if it had one, and the new access gets one exactly if the name is not taken from outside, is or was saved here, and is not shared |
| LankyNameCompiler.CompileAst | src/compiler/ast_compiler.c:1309-1360 | in the code of every function, nested to any depth, exactly the accesses to a variable that the function may have in a slot, from its first save on, and only if no function declared after that save uses it, have a slot; different variables have different slots; every other instruction stands where it was emitted |
| LankyNames.OneKind | src/compiler/ast_compiler.c:202-279 | the recorded uses of a name by one function are all of one kind |
| LankyNames.HasSlot | src/compiler/ast_compiler.c:202-279 | a variable has a slot in the end exactly if it may have one, is saved, and no function declared after the first save uses it |
| LankyNames.NoSlotLeft | src/compiler/ast_compiler.c:159-185 | what a function has in a slot when it declares one that uses it is in no slot of either in the end |
| LankyNames.SavedLater | src/compiler/ast_compiler.c:202-279 | a function that is declared before the variable is saved does not share it: the inner one goes through closures, the outer one has a slot |
| GcMarking.MarkObject | src/interpreter/lky_gc.c:218-299 | over any object graph marking ends, marks the object and whatever it newly leads to, and nothing else |
| GcMarking.SpreadsExactly | src/interpreter/lky_gc.c:329-346 | after all roots exactly that is marked which was marked before or is reached from a root around those marks |
| Gc.ScannedExactly | src/interpreter/lky_gc.c:301-311 | a slot of a stack or of the locals protects its object exactly when no slot before it is empty |
| Gc.Collector.Mark | src/interpreter/lky_gc.c:313-346 | root list, frame buckets, data stacks, locals, parent stacks and module tables: exactly the live objects are marked |
| Gc.Collector.GcGc | src/interpreter/lky_gc.c:163-211 | one collection leaves in the pool exactly the pooled objects that are live, clears their marks, and counts exactly their sizes; below the threshold or paused nothing changes |
| Gc.Collector.LiveIsReachable | src/interpreter/lky_gc.c:163-211 | without stale marks, live is what the roots lead to |
| Gc.StaleMarksMiss | src/interpreter/lky_gc.c:176-211 | with stale marks every reachable object is kept exactly if whatever a reachable stale object points to is stale itself or reached around the stale ones |
| Gc.StaleMarkLoses | src/interpreter/lky_gc.c:149-211 | it can fail: an object made while collection is paused, held by a root, no longer protects what it points to in the second collection |
| GcHashsets.GcHashset.Add | src/interpreter/gc_hashset.c:40-89 | adding, with the rebuild into three times as many buckets, adds to the set, and the rebuild needs no further one |
| GcHashsets.GcHashset.Contains | src/interpreter/gc_hashset.c:91-104 | whether the object is in the set |
| GcHashsets.GcHashset.Rebuilt | src/interpreter/gc_hashset.c:40-89 | a fresh set of three times the size has the same elements |
| GcHashsets.GcHashset.Remove | src/interpreter/gc_hashset.c:106-136 | removing unlinks the one cell of the element, if there is one |
| GcHashsets.GcHashset.ToList | src/interpreter/gc_hashset.c:175-192 | the list has every element once, and fills its buffer exactly |
| Aquarium.Allocator.constructor | src/interpreter/aquarium.c:66-106 | the threaded pool has all its blocks free, in order |
| Aquarium.Allocator.FindPoolOf | src/interpreter/aquarium.c:46-64 | the pool found is the one pool the address lies in |
| Aquarium.Allocator.RequestNextBlock | src/interpreter/aquarium.c:108-142 | the block was not live, is the first free one of the first pool that has one, or of a new pool; free lists, counts and disjoint pools stay in order |
| Aquarium.Allocator.Release | src/interpreter/aquarium.c:144-178 | the block becomes the first free one of its pool; an emptied pool leaves the chain and is given back; all stays in order exactly unless the block was the last used one of the first pool |
| Aquarium.ReleaseFirst | src/interpreter/aquarium.c:144-178 | one request and its release leave an allocator that starts from memory it has given back |
| Aquarium.Allocator.Write | src/interpreter/aquarium.c:108-142 | whatever users write into live blocks, free lists stay in order |
| Aquarium.NoOverlap | src/interpreter/aquarium.c:108-142 | live blocks are apart by the block size |
| Serialize.RoundTrip | src/interpreter/serialize.c:80-354 | an object nested to any depth, with any bytes around it, is read back, and is the one written exactly when its integers are doubles, its string constants hold no escape and its name is not empty; the length in front is the number of bytes written |
| Serialize.SerializeObject | src/interpreter/serialize.c:159-252 | the buffers filled at a moving index hold the format |
| Serialize.DeserializeObject | src/interpreter/serialize.c:254-354 | the reader with its moving pointer reads the format |
| Hashtables.Hashtable.Put | src/stdlib/hashtable.c:102-137 | the table is the finite map with the key bound to the value |
| Hashtables.Hashtable.Get | src/stdlib/hashtable.c:139-152 | the value bound to the key, if there is one |
| Hashtables.Hashtable.RemoveKey | src/stdlib/hashtable.c:185-219 | the key is unbound, and its value returned if there was one |
| Hashtables.Hashtable.Resize | src/stdlib/hashtable.c:66-100 | relinking every node into new buckets keeps the map, with every node in the bucket of its hash |
| Hashtables.Hashtable.AddAllFrom | src/stdlib/hashtable.c:154-166 | the bindings of the other table are added and win, and that table stays as it is, also when a table is added to itself |
| ArrayLists.ArrayList.ManageSize | src/interpreter/arraylist.c:40-50 | contents are kept, and there is room afterwards exactly if the list was made with any |
| ArrayLists.ArrayList.RemoveAtIndex | src/interpreter/arraylist.c:92-101 | everything behind the place moves down by one |
| Runtime.ScanMovesFired | src/interpreter/runtime.c:68-80 | a scan moves only events that have fired |
| Runtime.ScanMovesHalf | src/interpreter/runtime.c:68-80 | though it skips the event behind each one removed, a scan moves at least half of what had fired when it began |
| Runtime.EveryOther | src/interpreter/runtime.c:68-80 | and when all had fired, exactly every other one stays |
| Runtime.NoStarvation | src/interpreter/runtime.c:68-80 | a fired event at place n is moved by one of the next n + 1 scans, whatever else is registered and fires |
| Runtime.InOnePlace | src/interpreter/runtime.c:44-99 | in every history each registered event is in exactly one of waiting, queued and delivered |
| Runtime.EventRuntime.Next | src/interpreter/runtime.c:82-99 | what is delivered has fired and leaves in the order of arrival in the queue, and NULL comes exactly when all registered events are delivered |
| Runtime.EventRuntime.RunEvents | src/interpreter/lky_machine.c:295-311 | the loop around it ends with every event delivered once, those registered by callbacks too |
| Strings.SplitThenJoin | src/stdlib/stl_string.c:384-440 | joining what splitting gives is the string exactly if it holds no escape, for any delimiter |
| Strings.PiecesAreClean | src/stdlib/stl_string.c:404-439 | no piece contains the delimiter |
| Strings.SplitString | src/stdlib/stl_string.c:384-440 | the loop over strstr gives these pieces |
| Strings.Joined | src/stdlib/stl_array.c:789-850 | the precomputed buffer is filled exactly, with the items joined |
| Strings.Multiply | src/stdlib/stl_string.c:116-153 | doubling copies give the repeated string, in no more rounds than doubling needs |

## Left out

- Functions, closures, objects and classes at run time: the machine model has top-level code; the
  three modules about names say which accesses are local, not what they load.
- A parameter that is assigned in its function gets a slot of its own behind earlier loads; names
  of parameters play no part in the model of names.
- Object literals that name themselves (`compile_object` switches the uses recorded in its own
  wrapper), tables, members, modules (`LOAD_MODULE`, `md_*`), unit and regex literals.
- LankyCompiler.CompilerWrapper.CompileAst: trees with a call of 1000 arguments or more, whose count
  `replace_tags` takes for a tag, and code of 2^31 bytes or more.
- BytecodeAnalyzer.StackSuffices: calls with 50 arguments or more, whose count byte the analyzer takes for an
  opcode; for the other exclusions LankyEstimates has programs that need more.
- LankyStatements.ProgramMeans: whether errors in the block of a try leave nothing is judged by the form of its
  expressions; a call that fails in a function of the language leaves nothing either, a native one
  leaves nil, and the form does not say which it is.
- Popping below the bottom of the operand stack, or an operand that is not what an instruction takes it
  for, is undefined in C; the model stops with the result Crash.
- POP_CATCH writes the slot above the one it gives up, which is one place behind the array when the
  catch stack is full; the model does not have that write.
- The trace, line numbers and texts of errors; the REPL's patching of the last POP.
- Products and other arithmetic on doubles; a double is 8 bytes to the serializer, and integers
  pass through doubles where the program makes them do so.
- `catch_size` is neither written nor read by the serializer, so that a code object with a try has
  none after reading; the field is not in the model of code objects there.
- Reading malformed input; `srl_deserialize_from_file`.
- `rgx_search`, `rgx_collect_matches` and malformed patterns.
- `on_destroy_` hooks, the freeing itself, and the sizes of the object types in the collector.
- The allocator's mode without pools, and `aqua_teardown`.
- Automatic resizing in `hst_put`, which NO_RESIZE switches off; `hst_remove_val`, `hashmap.c`.
- `arr_heapsort`, which leaves the last parent out of the heap.
- The interleaving of threads inside of a scan: an event has fired at a look or has not.
- `units.c`, the extensions, input and output.
