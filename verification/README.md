# Verified models of the Lua 5.2.3 and libuv 1.3.0 kernels

A Dafny project that models the algorithmic kernels of the vendored Lua and libuv sources and proves what their
comments, tests and documentation promise. `dafny verify dfyconfig.toml` checks all of it.

Code that works in place is modelled in place: a class with the fields of the C structure, methods with its loops, and
ghost fields that say what the structure stands for. Each method is proved against a specification, and the main
results are about whole runs: any sequence of operations, or any interleaving of steps.

| files | component | main result |
|---|---|---|
| `gc_*.dfy` | incremental garbage collector (`lgc.c`, `lgc.h`) | in every interleaving with the program nothing reachable is freed and no field dangles; a collection without interference, from any phase, keeps exactly the least closed set, ephemerons included; the exact condition under which `lua_setmetatable` breaks this |
| `code_*.dfy` | code generator with jump lists (`lcode.c`) | the code of any logical expression computes its short-circuit value, every jump patched once |
| `table_*.dfy`, `tables.dfy` | tables (`ltable.c`) | any sequence of writes behaves as a finite map; the array part has its optimal size; traversals see every entry once |
| `rb_*.dfy`, `splay*.dfy` | red-black and splay trees (`tree.h`) | any sequence of operations leaves a valid, for red-black trees also shallow, search tree with the right nodes |
| `queues.dfy`, `pool*.dfy` | thread pool (`threadpool.c`, `queue.h`) | in every interleaving `done` is called exactly once per submitted item, with the right status; no lost wake-up; orderly exit |
| `heap*.dfy` | binary heap of pointers (`heap-inl.h`) | insertion and removal of any node keep the heap, draining sorts |
| `pattern*.dfy` | pattern matcher (`lstrlib.c`) | a search finds the first place that the declarative meaning of the pattern admits, and the preferred match there; when a plain search may take its place |
| `parse_*.dfy` | expression parser (`lparser.c`) | exactly the expressions of the grammar are read, with its trees; minimal printing and parsing are inverse, and no pair of parentheses is superfluous |
| `dump*.dfy`, `zio.dfy`, `undump.dfy` | binary chunks (`ldump.c`, `lundump.c`, `lzio.c`) | loading a dumped prototype gives it back, however the reader cuts the stream; the error for every other header and every truncation |
| `strings.dfy` | string table (`lstring.c`) | pointer equality is text equality through interning, resizing and sweeping |
| `quicksort.dfy` | `table.sort` (`ltablib.c`) | sorts, in place, with logarithmic nesting; any order function leaves a permutation |
| `inet*.dfy` | address conversion (`inet.c`) | reading a printed address gives it back; a text is accepted exactly if the grammar (RFC 4291) makes it an address |

`hide` statements at the head of a proof keep definitions out of it; the small lemmas beside a method open the
definitions it needs.

## Model

| member | source | states |
|---|---|---|
| `GcCollector.Collector.Start` | lua/src/lstate.c:266-308 | the state a new Lua state starts from satisfies the whole invariant, in the pause, with the main thread as the only object |
| `GcCollector.Collector.ReallyMarkObject` | lua/src/lgc.c:243-295 | marks the object: a string, userdata or closed upvalue with what it holds, any other kind by putting it on the gray list once; nothing outside a set closed under references is marked, and the tri-colour invariant is kept |
| `GcCollector.Collector.IsCleared` | lua/src/lgc.c:121-128 | an entry counts as cleared exactly if its object is unmarked and not a string; a string is marked on the way |
| `GcCollector.Collector.TraverseStrongTable` | lua/src/lgc.c:416-431 | afterwards everything the table holds is marked, and only empty entries lost their keys |
| `GcCollector.Collector.TraverseWeakValue` | lua/src/lgc.c:355-375 | keys are marked; the list the table is linked to says what is still missing: values to be cleared, or a second visit |
| `GcCollector.Collector.TraverseEphemeron` | lua/src/lgc.c:378-413 | values whose keys are marked are marked; the table is linked to the list that stands for what is left (again, ephemeron, allweak, none), and the result says whether anything was marked |
| `GcCollector.Collector.TraverseTable` | lua/src/lgc.c:434-454 | the table ends black, or gray on exactly the list whose meaning holds of it |
| `GcCollector.Collector.TraverseProto` | lua/src/lgc.c:457-476 | an unmarked cached closure is dropped, everything else the prototype holds is marked |
| `GcCollector.Collector.TraverseStack` | lua/src/lgc.c:495-514 | the live slots are marked; in the atomic step the dead slots are cleared, before it the thread stays on grayagain |
| `GcCollector.Collector.PropagateMark` | lua/src/lgc.c:521-563 | one gray object leaves the gray list and no black object points to a white one, every gray object being on a list |
| `GcCollector.Collector.RetraverseGrays` | lua/src/lgc.c:582-591 | all gray objects but the tables of the allweak list are visited again |
| `GcCollector.Collector.ConvergeEphemerons` | lua/src/lgc.c:594-609 | ends, with every ephemeron table settled: no marked key hides an unmarked value |
| `GcCollector.Collector.RemarkUpvals` | lua/src/lgc.c:324-330 | the values of marked open upvalues are marked whether or not their thread is |
| `GcCollector.Collector.ClearValues` | lua/src/lgc.c:643-660 | exactly the entries with unmarked values are emptied; strings stay |
| `GcCollector.Collector.ClearKeys` | lua/src/lgc.c:625-636 | exactly the entries with unmarked keys are emptied; strings stay |
| `GcPhases.MarkedIsClosed` | lua/src/lgc.c:999-1016 | before weak values are cleared the marked objects are closed under strong references and the ephemeron rule, provided that the tables of the allweak list had their values marked |
| `GcPhases.FirmMarkedClosed` | lua/src/lgc.c:566-609 | whatever the program did before, the marked objects are closed under the references that always count |
| `GcPhases.StrongEntriesStay` | lua/src/lgc.c:416-431 | a strong table that survives, and was not on the allweak list, keeps every entry over the atomic step |
| `GcPhases.Flip` | lua/src/lgc.c:1034 | after the flip of the white every unmarked object is dead and no live object points to a dead one |
| `GcPhases.ReachableAlive` | lua/src/lgc.c:719-752 | whatever the roots reach is allocated and not dead, in every state with the invariant |
| `GcPhases.AllSwept` | lua/src/lgc.c:1083-1100 | when the sweep has passed both lists every object has the current white |
| `GcFields.FieldsHeld` | lua/src/lgc.c:243-563 | field by field, which objects a userdata, upvalue, closure, table, thread or prototype refers to |
| `GcFields.InvSound` | lua/src/lgc.h:14-25 | in every state with the invariant the roots and every field of every object that is not dead lead to allocated objects that are not dead |
| `GcFields.ReachClosed` | lua/src/lgc.c:243-563 | what can be reached contains the roots and what the fields of its members refer to |
| `GcFields.ReachLeast` | lua/src/lgc.c:243-563 | and it is the least such set |
| `GcFields.ClosedFields` | lua/src/lgc.c:355-514 | a set is closed exactly if the fields of its members that count lead into it: no weak reference, dead stack slot or prototype cache, and the value of an ephemeron entry only with its key |
| `GcCollector.Collector.AtomicPart` | lua/src/lgc.c:999-1037 | the atomic step leaves every marked object with marked references only, flips the white, and keeps what is kept alive with its entries |
| `GcCollector.Collector.CloseThread` | lua/src/lfunc.c:82-107 | a dead thread is freed only after its open upvalues: the dead ones are freed, the others get their own value |
| `GcCollector.Collector.SweepOne` | lua/src/lgc.c:719-752 | the next object of the list is freed exactly if it is dead, otherwise it gets the current white |
| `GcCollector.Collector.SingleStep` | lua/src/lgc.c:1040-1103 | every phase step keeps the invariant; nothing reachable is ever dead or gone; outside the atomic step nothing that was reachable is freed, in it nothing that is kept alive, each with a measure that goes down |
| `GcCollector.Collector.FullCycle` | lua/src/lgc.c:1040-1103 | from the pause, single steps to the next pause, without a step of the program: they leave, strings aside, exactly the least set that contains the roots, objects waiting for their finalizers included, and is closed under strong references and the ephemeron rule, with the entries of its tables; objects separated for finalization in this cycle enlarge what may be left by what they hold |
| `GcFull.RunToPause` | lua/src/lgc.c:1199-1205 | from any phase to the pause: only objects that were dead are freed; a mark phase is given up and frees nothing |
| `GcFull.FullGc` | lua/src/lgc.c:1189-1207 | a collection from any phase, in terms of the objects and roots at the call: the same as for the cycle; what is left contains the least set that holds the roots and, field by field, what its members refer to as far as that counts; every field of what is left leads to what is left, and objects have changed by clearing only |
| `GcMutator.Store` | lua/src/lgc.h:14-25 | a store keeps the invariant if the object is not black or gets marked values only |
| `GcMutator.BarrierBack` | lua/src/lgc.c:155-161 | a black table about to point to a white object becomes gray, on grayagain; otherwise nothing changes |
| `GcMutator.Barrier` | lua/src/lgc.c:135-146 | while marking, the value a black object is about to get is marked; while sweeping the object turns white |
| `GcProgram.SetArray` | lua/src/lgc.h:127-137 | a write to the array part with its back barrier keeps the invariant and changes just that element, and the value can be followed from the table |
| `GcProgram.SetNode` | lua/src/lgc.h:127-137 | a write to the hash part, of a key that may be new, keeps the invariant and changes just that node, and key and value can be followed from the table |
| `GcProgram.SetField` | lua/src/lapi.c:812-867 | a write to a userdata, closure, prototype or closed upvalue with its forward barrier keeps the invariant and changes just that field, and the value can be followed from the object |
| `GcProgram.BarrierProto` | lua/src/lgc.c:172-183 | for a black prototype the first closure cached is marked, and later ones make the prototype gray, on grayagain, and nothing else; for any other prototype nothing changes |
| `GcProgram.SetSlot` | lua/src/lapi.c:112-124 | a write to a stack slot, also through an open upvalue, needs no barrier, and the value can be followed from the thread or the upvalue |
| `GcProgram.Allocate` | lua/src/lgc.c:212-224 | a new object has the current white and the invariant holds in every phase |
| `GcProgram.Intern` | lua/src/lstring.c:133-150 | a dead string that is found again is resurrected before the program gets it |
| `GcProgram.FindUpval` | lua/src/lfunc.c:47-72 | an old open upvalue of the register is returned, not dead any more, and no object added, if there is one; otherwise exactly the new one; no register has two |
| `GcProgram.Close` | lua/src/lfunc.c:89-107 | no open upvalue at or above the level is left: dead ones are freed, the others have the value of their slot as their own; nothing else changes |
| `GcProgram.PopFinalizer` | lua/src/lgc.c:789-800 | the first object being finalized goes back to the program, not dead in any phase |
| `GcProgram.SetMetaExact` | lua/src/lapi.c:822-827 | lua_setmetatable on a table keeps the invariant if and only if the table is not on the allweak list of a running mark phase, or the metatable is marked |
| `GcMetatable.SetMetatable` | lua/src/lapi.c:822-827 | the call as the source makes it, without a guard: it keeps the invariant unless the table is on the allweak list of a running mark phase and the metatable is white |
| `GcMetatable.SetThenAtomic` | lua/src/lapi.c:822-827 | the call, with a metatable that nothing else holds, followed by the atomic step: all that is reachable is allocated and not dead if and only if that condition did not hold before the call; if it did, the metatable is reachable and dead |
| `GcMetatable.DanglingMetatable` | lua/src/lgc.c:582-591 | a run from the state a new Lua state starts from, made of allocations, stores, collector steps and one lua_setmetatable, that ends with a dead metatable on a table which a register holds |
| `GcRuns.Exec` | lua/src/lgc.c:1040-1103 | any single step of the program or of the collector keeps the invariant and what has to be kept, and does what its operation says: the heap, the roots and the phase after it are given for each operation |
| `GcRuns.Run` | lua/src/lgc.c:1040-1103 | every interleaving, each step doing what its operation says: at every moment all that is reachable is allocated and not dead, and all fields of objects that are not dead lead to such objects; each step but the atomic one frees nothing that was reachable; the atomic one keeps all that is reached by references that always count, with the entries of strong tables, and everything that is kept alive if no program step interfered |
| `CodeGen.FuncState.PatchTestReg` | lua/src/lcode.c:131-141 | a TESTSET gets its register, or becomes a TEST if no value is wanted; any other control instruction is left alone |
| `CodeGen.FuncState.PatchListAux` | lua/src/lcode.c:150-160 | every jump of the list, each once, goes to the target that its value calls for, and nothing else changes |
| `CodeGen.FuncState.NeedValue` | lua/src/lcode.c:122-128 | whether some jump of the list brings no value |
| `CodeGen.FuncState.RemoveValues` | lua/src/lcode.c:144-147 | the list stays, and none of its tests sets a register any more |
| `CodeGen.FuncState.Concat` | lua/src/lcode.c:198-209 | the two disjoint lists become one, in order, and only links change |
| `CodeGen.FuncState.Jump` | lua/src/lcode.c:59-66 | the new jump takes over the pending jumps to here |
| `CodeGen.FuncState.CondJump` | lua/src/lcode.c:74-77 | a run that reaches the test leaves by the jump exactly if the test lets it |
| `CodeGen.FuncState.PatchToHere` | lua/src/lcode.c:192-195 | all runs that were leaving by the list go on here |
| `CodeGen.FuncState.CodeNil` | lua/src/lcode.c:37-56 | every run does what a LOADNIL of that range does, also when the range of the previous LOADNIL is widened instead |
| `CodeGen.FuncState.LoadBools` | lua/src/lcode.c:473-482 | the pair of LOADBOOLs gives false, true, or is jumped over |
| `CodeExp.AddK` | lua/src/lcode.c:291-316 | the constant is in the table at the index, and no other index changes |
| `CodeExp.Discharge2Reg` | lua/src/lcode.c:421-457 | every run ends with the value in the register |
| `CodeExp.Exp2Reg` | lua/src/lcode.c:468-489 | whatever jumps the expression has, all runs end at the end of the code with its value in the register, and no jump of it is pending |
| `CodeOps.Exp2AnyReg` | lua/src/lcode.c:500-511 | the value is in the register returned |
| `CodeOps.Exp2RK` | lua/src/lcode.c:528-555 | the operand denotes the value: a constant with an index below the limit, or a register |
| `CodeOps.JumpOnCond` | lua/src/lcode.c:606-618 | a run leaves by the new jump exactly if the value is on the given side, with the test of a NOT turned round |
| `CodeOps.GoIf` | lua/src/lcode.c:621-665 | luaK_goiftrue and luaK_goiffalse: code goes on only for values of the other side; the rest leave by the list, with the value when the test sets one |
| `CodeOps.CodeNot` | lua/src/lcode.c:668-700 | the code computes the negation: lists change places and bring no values |
| `CodeExpr.CodeComp` | lua/src/lcode.c:746-759 | the code computes the comparison of its two operands |
| `CodeOps.EvalCompares` | lua/src/lcode.c:746-759 | on numbers ==, <, <=, ~=, >, >= are the comparisons of the integers |
| `CodeOps.EvalMirrored` | lua/src/lcode.c:746-759 | for any meaning of the comparisons a > b is b < a, a >= b is b <= a, and a ~= b is not (a == b) |
| `CodeExpr.PosfixLogic` | lua/src/lcode.c:813-829 | and, or: the jumps of the first operand join those of the second, and the whole has the short-circuit value |
| `CodeOps.EvalLogic` | lua/src/lcode.c:668-700 | nil and false are the values that count as false; not, and, or accordingly, and and or give one of their operands |
| `CodeExpr.Compile` | lua/src/lcode.c:492-497 | any expression, from any earlier code: every run that came to the old end comes to the new end with the value that short-circuit evaluation gives in the next register, lower registers untouched; no jump is left without a target |
| `CodeExpr.CompileFunction` | lua/src/lcode.c:468-489 | the code of a function that starts with the expression runs to its end with that value in the first free register; for the comparison of two locals that hold numbers this is the comparison of the integers |
| `CodeExpr.Assign` | lua/src/lcode.c:558-582 | an assignment to a local: its register gets the value, all other registers below the free ones stay |
| `TableChain.FindSlot` | lua/src/ltable.c:481-503 | a walk along the chain of the main position finds the live key if any slot has it |
| `TableChain.FindHolder` | lua/src/ltable.c:144-166 | the walk of findindex finds, among the slots that hold the key alive or dead, the one that comes first, or none if there is none |
| `TableChain.Reuse` | lua/src/ltable.c:405-412 | a key put into its free main position keeps the chains |
| `TableChain.Move` | lua/src/ltable.c:417-426 | a colliding key that is not in its main position moves to a free slot: chains, ranks and main positions stay right |
| `TableChain.AppendKey` | lua/src/ltable.c:427-433 | a colliding key in its main position stays, and the new one goes to a free slot next in the chain |
| `TableChain.LiveHolder` | lua/src/ltable.c:154-158 | a live key comes before any dead key that looks like it, so a traversal never goes back |
| `TableSizes.CeilLog2` | lua/src/lobject.c:55-70 | the exponent of the least power of two not below x |
| `TableSizes.ComputeSizes` | lua/src/ltable.c:196-215 | the largest power of two with more than half of its slots in use, 0 if there is none, and how many keys it takes |
| `TableSizes.LargestExact` | lua/src/ltable.c:13 | the size chosen is the one the comment speaks of, the largest n with at least half of 1 to n in use, exactly if no n above 0 has half in use, and then it is 0 |
| `TableSizes.LargestFails` | lua/src/ltable.c:206 | the keys 1, 2, 3 get 4 slots, where half of 6 are in use; the key 2 gets none, where half of 2 are |
| `TableSizes.HalfExact` | lua/src/ltable.c:13 | read for powers of two only, the comment agrees with the code exactly if the greatest power of two with at least half in use, if any, has more than half in use; otherwise it asks for more |
| `TableOps.NumUseArray` | lua/src/ltable.c:229-251 | the counts per power of two are those of the array part |
| `TableOps.NumUseHash` | lua/src/ltable.c:254-267 | the counts grow by exactly the live keys of the hash part |
| `TableOps.RoomForExtra` | lua/src/ltable.c:343-359 | the new hash part has room for all keys outside the new array part and for the extra one |
| `Tables.LTable.constructor` | lua/src/ltable.c:368-376 | a new table stands for the empty map |
| `Tables.LTable.Get` | lua/src/ltable.c:446-503 | all getters agree with the map that the table stands for |
| `Tables.LTable.GetFreePos` | lua/src/ltable.c:387-394 | a free slot, if there is one; above it every slot has a key |
| `Tables.LTable.SetNodeVector` | lua/src/ltable.c:279-300 | as many free slots as the least power of two that is not below the size, the dummy node for size 0 |
| `Tables.LTable.NewKey` | lua/src/ltable.c:405-440 | the key gets a slot and no entry changes; the table grows only when no slot is free, and the recursion through rehash, resize and set ends |
| `Tables.LTable.Resize` | lua/src/ltable.c:304-334 | the map stays the same while all entries move; with room for all keys outside the array part the array part is as asked for, the hash part has the least power of two of slots, and re-insertion never finds the table full |
| `Tables.LTable.ResizeArray` | lua/src/ltable.c:337-340 | the array part has the new size and the map stays the same |
| `Tables.LTable.Rehash` | lua/src/ltable.c:343-359 | the array part gets the optimal size for all keys and the extra one, the hash part the least power of two for the rest of them, and there is room for the extra key; the map stays the same |
| `Tables.LTable.Set` | lua/src/ltable.c:510-529 | the map changes at that key only, nil removes; nil and NaN as keys are refused |
| `Tables.LTable.Getn` | lua/src/ltable.c:560-576 | the result is a boundary: it has a value or is 0, and the next index has none |
| `Tables.LTable.UnboundSearch` | lua/src/ltable.c:532-553 | the same beyond the array part, also when the doubling leaves the range of int |
| `Tables.LTable.FindIndex` | lua/src/ltable.c:144-166 | the key has a place in the traversal exactly if it is nil, in the array part, or held by a slot, alive or dead |
| `Tables.LTable.Next` | lua/src/ltable.c:169-186 | the first entry behind the place of the key, the end if there is none, an error exactly if the key has no place |
| `Tables.LTable.RemoveEntries` | lua/src/lgc.c:107-111 | the collector may take keys out of empty slots: the map, the places and the chains stay |
| `Tables.Traverse` | lua/src/lapi.c:1114-1128 | a loop whose body assigns to existing fields, clears fields or lets the collector run sees no key twice, each with its value at that moment, has seen all that is left when it ends, and never stops with an error |
| `Tables.Run` | lua/src/ltable.c:304-529 | after any sequence of assignments and visits of the collector every read gives the value last assigned |
| `RbShape.RotateShape` | libuv/include/tree.h:342-380 | a rotation keeps search order and parent links |
| `RbCases.CaseOuterRed` | libuv/include/tree.h:460-528 | the rotation that ends the repair of a removal restores the black heights |
| `RbTree.RBTree.Rotate` | libuv/include/tree.h:342-380 | exactly the fields that the rotation names change, and the shape is kept |
| `RbTree.RBTree.InsertColor` | libuv/include/tree.h:407-448 | a tree whose only fault is a red node with a red parent is repaired, with the same nodes |
| `RbTree.RBTree.RemoveColor` | libuv/include/tree.h:451-528 | a tree in which one subtree is a black node short is repaired, with the same nodes |
| `RbTree.RBTree.Insert` | libuv/include/tree.h:598-626 | the node with the key is returned and nothing changes, or exactly the new node enters and the tree is valid |
| `RbTree.RBTree.Remove` | libuv/include/tree.h:530-596 | exactly the given node leaves and the tree is valid |
| `RbTree.RBTree.Next` | libuv/include/tree.h:668-688 | the node with the next greater key, or none |
| `RbTree.RBTree.Min` | libuv/include/tree.h:711-724 | the node with the least key, or none |
| `RbTree.RBTree.Foreach` | libuv/include/tree.h:668-724 | a loop over the tree meets every node once, in ascending order |
| `RbTree.RBTree.Find` | libuv/include/tree.h:629-645 | the node with the key, if there is one |
| `RbTree.RBTree.NFind` | libuv/include/tree.h:647-666 | the node with the least key that is not below the given one |
| `RbTree.RBTree.HeightBound` | libuv/include/tree.h:60-61 | no path is longer than twice the logarithm of the number of nodes plus one |
| `RbTree.Run` | libuv/include/tree.h:407-626 | any sequence of insertions and removals leaves a valid, shallow tree with exactly the nodes and keys of a plain map |
| `SplayForest.RotateOk` | libuv/include/tree.h:88-98 | a rotation at the root keeps the order of the keys and the nodes under the root |
| `SplayForest.LinkOk` | libuv/include/tree.h:100-110 | a link moves the root to the piece on the other side, in order |
| `SplayForest.MergeOk` | libuv/include/tree.h:112-117 | one half of the assembly joins a piece to the root, in order |
| `Splay.SplayTree.Splay` | libuv/include/tree.h:209-241 | ends, with the same nodes in the same order, and the key at the root if it is there, otherwise a neighbour of it |
| `Splay.SplayTree.MinMax` | libuv/include/tree.h:247-278 | the same, with the least or greatest node at the root |
| `Splay.SplayTree.Insert` | libuv/include/tree.h:164-186 | the node that has the key, or exactly the new node enters |
| `Splay.SplayTree.Remove` | libuv/include/tree.h:188-207 | exactly the node with the key leaves, if there is one |
| `Splay.SplayTree.Find` | libuv/include/tree.h:128-137 | the node with the key, now at the root, or none |
| `Splay.SplayTree.Next` | libuv/include/tree.h:139-151 | the node with the least greater key, or none |
| `Splay.SplayTree.MinMaxOf` | libuv/include/tree.h:153-158 | the least or the greatest node, none of an empty tree |
| `Splay.Run` | libuv/include/tree.h:163-278 | any sequence of operations leaves exactly the nodes of a plain map |
| `Queues.Memory.InsertTail` | libuv/src/queue.h:76-83 | the node is last, the links of all other queues stay |
| `Queues.Memory.Remove` | libuv/src/queue.h:85-90 | the node is out, and its own links stay as they were |
| `Queues.Memory.Split` | libuv/src/queue.h:56-65 | the nodes from one on form a queue of their own |
| `Queues.Memory.Add` | libuv/src/queue.h:47-54 | the nodes of one queue follow those of the other |
| `Queues.NotSelf` | libuv/src/threadpool.c:193-194 | a node in a queue is not linked to itself, which the test of a cancellation relies on |
| `PoolState.OneQueue` | libuv/src/threadpool.c:63-238 | no item is in two queues |
| `PoolState.DoneOnce` | libuv/src/threadpool.c:213-238 | for each item the function runs at most once and done is called at most once; its status is UV_ECANCELED exactly if the function did not run, and exactly if a cancellation returned 0 |
| `PoolState.NeverAborts` | libuv/src/threadpool.c:55-57 | no worker ever calls the function that marks a cancelled item |
| `PoolState.OrderlyExit` | libuv/src/threadpool.c:63-100 | when a worker has left, every item still in the queue was posted after the exit message |
| `PoolState.AllDone` | libuv/src/threadpool.c:63-238 | when nothing can happen any more done has been called for every item, except those posted after an exit message |
| `PoolSteps.CancelTest` | libuv/src/threadpool.c:187-201 | the test of uv__work_cancel succeeds exactly for items that no worker has taken, those cancelled before included |
| `Pool.ThreadPool.Submit` | libuv/src/threadpool.c:175-184 | the item enters at the end of the queue, a waiting worker is woken if there is one |
| `Pool.ThreadPool.Look` | libuv/src/threadpool.c:66-86 | a worker waits exactly when the queue is empty, leaves at an exit message which it keeps posted, or takes the head |
| `Pool.ThreadPool.Finish` | libuv/src/threadpool.c:90-99 | the item goes from its worker to the queue of its loop |
| `Pool.ThreadPool.Cancel` | libuv/src/threadpool.c:187-201 | an item is taken out of its queue exactly if no worker has taken it, otherwise nothing changes |
| `Pool.ThreadPool.Drain` | libuv/src/threadpool.c:213-224 | the whole queue of the loop moves to the local one |
| `Pool.ThreadPool.CallDone` | libuv/src/threadpool.c:226-237 | done is called for the first item, with the status that tells whether it was cancelled |
| `Pool.ThreadPool.Perform` | libuv/src/threadpool.c:63-238 | a step happens exactly if it can, and then changes items, queues, workers and loops as its operation says, and nothing else |
| `Pool.SubmissionsAre` | libuv/src/threadpool.c:175-184 | the items of a run are exactly those with a submission to one of the loops |
| `Pool.Progress` | libuv/src/threadpool.c:63-238 | in every state some step of a worker or loop can happen, unless all is at rest: no wake-up is lost |
| `Pool.Settle` | libuv/src/threadpool.c:63-238 | whatever the order, no more steps can happen without new calls than a measure of the state allows |
| `Pool.Run` | libuv/src/threadpool.c:63-238 | every interleaving of submissions, workers, cancellations and loops: each step does what its operation says, the items are exactly those submitted, each with its loop, all of the above holds at every moment, and done was called exactly once for each item submitted once all is at rest without an exit message |
| `HeapLinks.SwapLinked` | libuv/src/heap-inl.h:72-104 | after the pointer swap of a parent and its child every link of the tree is that of the array of nodes with the two exchanged |
| `Heap.MinHeap.Swap` | libuv/src/heap-inl.h:72-104 | the nodes at two places, parent and child, are exchanged and every link fits |
| `Heap.MinHeap.Walk` | libuv/src/heap-inl.h:119-135 | the bits of the number of a node lead to its place and its parent |
| `Heap.MinHeap.Insert` | libuv/src/heap-inl.h:106-148 | a valid heap with exactly the new node in addition |
| `Heap.MinHeap.SiftDown` | libuv/src/heap-inl.h:216-229 | after the loop only an upward repair can be left to do |
| `Heap.MinHeap.Remove` | libuv/src/heap-inl.h:150-237 | a valid heap without exactly the given node, wherever it was |
| `Heap.MinHeap.Min` | libuv/src/heap-inl.h:67-69 | no node goes before the result |
| `Heap.MinHeap.Dequeue` | libuv/src/heap-inl.h:239-241 | a node that none goes before leaves |
| `Heap.Drain` | libuv/src/heap-inl.h:239-241 | taking out all nodes gives each of them once, in order |
| `Pattern.MatchState.Classend` | lua/src/lstrlib.c:242-263 | the end of the class, or an error for a malformed one |
| `PatternSpec.LetterCodes` | lua/src/lstrlib.c:266-284 | the classes %a, %l, %u, %x by character codes |
| `PatternSpec.WordCodes` | lua/src/lstrlib.c:266-284 | the classes %d, %w, %p, %g by character codes |
| `PatternSpec.BlankCodes` | lua/src/lstrlib.c:266-284 | the classes %s, %c, %z by character codes |
| `PatternSpec.ClassComplement` | lua/src/lstrlib.c:266-284 | a capital letter stands for the complement of its class, any other character for itself |
| `Pattern.MatchState.MatchBracketClass` | lua/src/lstrlib.c:286-306 | whether a character is in a bracket class, with ranges, escapes and complement |
| `Pattern.MatchState.MatchBalance` | lua/src/lstrlib.c:325-343 | the end of the balanced string |
| `PatternSpec.BalancedExact` | lua/src/lstrlib.c:325-343 | the balanced string ends at the first place where there are as many closings as openings |
| `Pattern.MatchState.MaxExpand` | lua/src/lstrlib.c:346-358 | the first outcome with as many repetitions as possible, then fewer |
| `Pattern.MatchState.MinExpand` | lua/src/lstrlib.c:361-371 | the first outcome with as few repetitions as possible, then more |
| `Pattern.MatchState.EndCapture` | lua/src/lstrlib.c:388-396 | the last open capture is closed; if the rest fails the captures are as before |
| `Pattern.MatchState.DoMatch` | lua/src/lstrlib.c:410-510 | the first outcome in the order of preference, which is the preferred match; nothing is found only if nothing is admitted; on failure the captures and the depth are as on entry |
| `PatternMeaning.Meaning` | lua/src/lstrlib.c:410-510 | the outcomes are exactly the matches that the declarative meaning of the pattern admits, unless an error takes their place, whatever the limit on nesting |
| `PatternOrder.FirstPreferred` | lua/src/lstrlib.c:346-371 | whatever the limit on nesting, a match that comes first is the preferred one: of the places where the rest of the pattern admits something - takes the first, * and + the last, and ? takes the character if the rest then admits something |
| `PatternOrder.PreferredAdmits` | lua/src/lstrlib.c:346-371 | the preferred match is admitted |
| `PatternOrder.OnePreferred` | lua/src/lstrlib.c:346-371 | there is one preferred match at most |
| `PatternMeaning.NoError` | lua/src/lstrlib.c:410-510 | a well-formed pattern raises no error if the limit exceeds its nesting |
| `PatternMeaning.NestingReached` | lua/src/lstrlib.c:411-413 | the bound is the best possible: n optional characters that are all there raise the error exactly if the limit is at most n |
| `Pattern.StrFind` | lua/src/lstrlib.c:599-622 | the first place with an outcome, and the best outcome there, or the error that comes first |
| `Pattern.StrFindExact` | lua/src/lstrlib.c:599-622 | what is found is the preferred match at the first place where the pattern admits any; nothing found means nothing admitted anywhere; no failure for well-formed patterns below the limit |
| `Pattern.Nospecials` | lua/src/lstrlib.c:566-574 | whether the pattern has a special character, zeros in it included |
| `Pattern.PlainMeaning` | lua/src/lstrlib.c:586 | a pattern without special characters, and without a closing parenthesis, admits exactly its own text, with the captures as they were |
| `Pattern.PlainFails` | lua/src/lstrlib.c:586 | a closing parenthesis has no special character and occurs in itself, but is an error as a pattern |
| `Pattern.StrFindAux` | lua/src/lstrlib.c:577-626 | both searches: the first occurrence where a plain search is asked for or no special character is in the pattern, otherwise the preferred match at the first place where the pattern admits any; the shortcut finds the same unless the pattern has a closing parenthesis |
| `Pattern.Lmemfind` | lua/src/lstrlib.c:514-533 | the first occurrence, or none |
| `ParseExpr.LexState.SimpleExp` | lua/src/lparser.c:877-896 | atoms and parentheses, as the grammar says |
| `ParseExpr.LexState.Subexpr` | lua/src/lparser.c:1037-1064 | what is read, and what is left, is that of the parsing function with priorities, which by the next row is the grammar; the operator returned is the one that follows |
| `ParseGrammar.GrammarExact` | lua/src/lparser.c:1014-1069 | a text is read as an expression exactly if the grammar with one level for each precedence makes it one, with that tree (section 3.4.8 of the Lua 5.2 Reference Manual) |
| `ParseGrammar.Unambiguous` | lua/src/lparser.c:1014-1069 | the grammar makes a text an expression in one way at most |
| `ParseGrammar.TwoOperators` | lua/src/lparser.c:1019-1028 | a p b q c is (a p b) q c if p is of a higher level than q, or of the same and not right-associative, and otherwise a p (b q c) |
| `ParseGrammar.PrefixOperator` | lua/src/lparser.c:1030 | a prefix operator binds less than ^ and more than all other operators |
| `ParseExpr.ReadBack` | lua/src/lparser.c:1019-1064 | an expression printed with parentheses only where priorities need them is read back, at any limit and before any rest |
| `ParseExpr.ReadAgain` | lua/src/lparser.c:1019-1064 | whatever was read, printing it and reading it again gives the same |
| `ParseExpr.PrintInjective` | lua/src/lparser.c:1019-1064 | different expressions never print alike |
| `ParseExpr.ParenthesesNeeded` | lua/src/lparser.c:1019-1064 | where the printer puts parentheses, leaving them out never gives the same expression and rest |
| `ParseExpr.RoundTrip` | lua/src/lparser.c:1037-1069 | the parser reads the printed text back, to its end |
| `ZioStream.Zio.Getc` | lua/src/lzio.h:20 | the next byte, or the end mark exactly at the end |
| `ZioStream.Zio.Read` | lua/src/lzio.c:46-65 | the bytes asked for, as far as the stream goes, in whatever pieces it comes |
| `ZioStream.PiecesJoin` | lua/src/lzio.c:21-65 | however a stream is cut into pieces it is the same stream |
| `DumpBytes.IntBack` | lua/src/lundump.c:57-63 | an int read from the bytes it was written as is the same |
| `DumpBytes.LittleDigit` | lua/src/lundump.c:57-63 | byte i of a number written is its digit i to the base 256, the least first |
| `DumpBytes.HeaderParts` | lua/src/lundump.c:236-255 | the header is the signature, version 5.2, the official format, the byte order of the int 1, the sizes of what is written for ints, lengths, instructions and numbers, and the tail |
| `DumpBytes.Layout` | lua/src/ldump.c:139-150 | the lines, parameters and stack size come first in a prototype, at these places, and constants begin with the numbers of their types |
| `Dump.DumpState.DumpFunction` | lua/src/ldump.c:139-150 | unless the writer failed the bytes of the prototype, nested ones included, are written; after a failure nothing more is |
| `Dump.Save` | lua/src/ldump.c:162-173 | a writer that never fails gets the header and the prototype |
| `Undump.LoadState.LoadInt` | lua/src/lundump.c:57-63 | the int, a truncation, or an error for a negative one |
| `Undump.LoadState.LoadString` | lua/src/lundump.c:72-84 | the string or its absence, as written |
| `Undump.LoadState.LoadConstants` | lua/src/lundump.c:96-133 | the constants and nested prototypes, as written |
| `Undump.LoadState.LoadNames` | lua/src/lundump.c:167-168 | the names of the upvalues, as written; an error for a store behind the last upvalue exactly if one name more than there are upvalues is in the stream |
| `Undump.LoadState.LoadDebug` | lua/src/lundump.c:149-169 | the debug information, as written, or that error, or a truncation |
| `Undump.LoadState.LoadFunction` | lua/src/lundump.c:171-182 | from the bytes of a prototype and any rest: the prototype, less what was stripped, and exactly the rest is left; from any shorter stream a truncation |
| `Undump.LoadState.LoadHeader` | lua/src/lundump.c:190-201 | any 18 bytes other than the header give the error that names their first fault, fewer give a truncation |
| `Undump.Load` | lua/src/ldo.c:640-659 | a whole chunk over any pieces: the prototype, or the error that the bytes call for |
| `Undump.RoundTrip` | lua/src/ldump.c:162-173 | dump, any cut into pieces, load: the same prototype, or the same without debug information if it was stripped |
| `Strings.StringTable.RehashBucket` | lua/src/lstring.c:74-85 | one bucket is emptied and each of its strings goes to its new bucket once, also when that bucket is still to come |
| `Strings.StringTable.Resize` | lua/src/lstring.c:64-92 | a sweep under way is finished; then every string is in the bucket of its hash among the new number of buckets, none lost and none twice |
| `Strings.StringTable.Intern` | lua/src/lstring.c:133-150 | a known text gives its one object, alive from then on; an unknown one exactly one new object |
| `Strings.StringTable.NewShort` | lua/src/lstring.c:116-127 | the new string is in its bucket and counted; a crowded table is doubled first |
| `Strings.StringTable.SweepBucket` | lua/src/lgc.c:719-752 | exactly the dead strings of the bucket disappear |
| `Strings.StringTable.SweepStrings` | lua/src/lgc.c:1068-1076 | the next buckets are swept, and only there strings disappear; the sweep ends with the last bucket |
| `Strings.StringTable.CheckSizes` | lua/src/lgc.c:778-786 | a table that is less than half full is halved, with the same strings |
| `Strings.StringTable.PointerEquality` | lua/src/lstring.c:45-48 | two strings of the table are the same object exactly if they have the same text |
| `Strings.Run` | lua/src/lstring.c:64-150 | over any run, at every moment the table is made of the strings that are held and of dead ones; held strings are equal exactly if their texts are; no string is both handed out again and swept; without a sweep under way nothing else is left |
| `Quicksort.MedianOfThree` | lua/src/ltablib.c:187-208 | the three elements are in order, the median in the middle |
| `Quicksort.Partition` | lua/src/ltablib.c:209-235 | any order function leaves a permutation; a valid one splits the range at the pivot and never raises the error |
| `Quicksort.AuxSort` | lua/src/ltablib.c:184-245 | any order function leaves a permutation of the range; a valid one sorts it, with calls nested no deeper than the logarithm of its size |
| `Quicksort.Sort` | lua/src/ltablib.c:247-255 | the elements 1 to n are a permutation of what they were, and sorted if the order is valid |
| `Inet.Ntop4` | libuv/src/inet.c:53-69 | the dotted text if the buffer has room for it and its end mark, otherwise no space |
| `Inet.FindRun` | libuv/src/inet.c:93-116 | the first of the longest runs of at least two zero words (RFC 5952, sections 4.2.2 and 4.2.3), or none |
| `Inet.BestUnique` | libuv/src/inet.c:91-116 | there is only one such run, so the text of an address is determined |
| `Inet.Ntop6` | libuv/src/inet.c:72-158 | the text with that run left out, hexadecimal or with a dotted end, if the buffer has room |
| `Inet.SevenZeros` | libuv/src/inet.c:133-136 | an address whose first seven words are zero is printed in hexadecimal, never with a dotted end |
| `Inet.Pton4` | libuv/src/inet.c:190-226 | an address or invalid, as the reading function says |
| `InetText.Parse4Exact` | libuv/src/inet.c:190-226 | a text is accepted as an address exactly if it is what is printed for it |
| `Inet.Spread` | libuv/src/inet.c:293-308 | the bytes after the double colon move to the end in place, zeros take their place |
| `Inet.Pton6` | libuv/src/inet.c:229-313 | the bytes that the reading function gives, for any text: those of the grammar by `InetGrammar.Parse6Exact` |
| `InetText.Text6Length` | libuv/src/inet.c:80 | no text is longer than 39 characters, so the buffer never overflows |
| `InetText.Text6Shape` | libuv/src/inet.c:118-152 | the words in hexadecimal with two colons for the run that is left out, and a dotted end after six zero words or five and ffff |
| `InetText.TextLower` | libuv/src/inet.c:143 | no text has a capital letter (RFC 5952, section 4.3) |
| `InetText.NumberLower` | libuv/src/inet.c:143 | and no number has a zero in front (RFC 5952, section 4.1) |
| `InetGrammar.Parse6Exact` | libuv/src/inet.c:229-313 | a text is accepted as an address exactly if the grammar of RFC 4291, section 2.2, makes it a text of that address |
| `InetGrammar.RoundTrip` | libuv/src/inet.c:229-313 | reading the text of an address gives the address back, whichever run of zeros is left out |
| `Inet.UvNtop` | libuv/src/inet.c:40-50 | a text that fits and reads back, no space, or an unknown family |
| `Inet.UvPton` | libuv/src/inet.c:161-187 | the address in the text, a zone after a percent sign ignored |
| `Inet.RoundTrip` | libuv/src/inet.c:72-313 | printing an address of 128 bits into a buffer of 46 and reading it gives it back |

## Findings

| claim | where | outcome |
|---|---|---|
| a black object never points to a white one while marking, so nothing reachable is freed (lua/src/lgc.h:14-25) | `lua_setmetatable` on a table of the allweak list (lua/src/lapi.c:822-827) | False. `retraversegrays` does not visit the allweak list again (lua/src/lgc.c:582-591), and the back barrier does nothing for a gray table. `GcMetatable.DanglingMetatable` is a run from the initial state that ends with a dead metatable on a table in a register. It happens if and only if the table is on that list during marking and the metatable is white: `GcMetatable.SetThenAtomic` for the state after the atomic step, `GcProgram.SetMetaExact` for the invariant. All other operations keep it: `GcRuns.Run`. |
| the array part is the largest n with at least half of 1, ..., n in use (lua/src/ltable.c:13) | `computesizes` (lua/src/ltable.c:206) | False. The code asks for more than half, and looks at powers of two only; the model follows it (`TableSizes.ComputeSizes`). The keys 1, 2, 3 get 4 slots although half of 6 are in use, and the key 2 gets none although half of 2 are (`TableSizes.LargestFails`). The comment holds if and only if no n above 0 has half of 1, ..., n in use, so for no array part that is not empty (`TableSizes.LargestExact`). If the comment is read for powers of two only, it holds if and only if the greatest one with at least half in use, if there is one, has more than half in use (`TableSizes.HalfExact`). |
| a run of seven zero words may end in dotted form (libuv/src/inet.c:135) | `inet_ntop6` | That part of the test never decides: word 6 lies inside such a run, so the text is hexadecimal (`Inet.SevenZeros`). The round trip is not affected (`InetGrammar.RoundTrip`). |
| a pattern without special characters may be searched for as plain text (lua/src/lstrlib.c:565, 585-586) | `str_find_aux` | False for a pattern with a closing parenthesis, which is not in the list of special characters: the plain search finds it, the matcher raises an error (`Pattern.PlainFails`). For all others both searches agree: a pattern without special characters admits its own text, and only that, if and only if it has no closing parenthesis (`Pattern.PlainMeaning`, `Pattern.StrFindAux`). |
| loading stores the names of upvalues in their descriptions (lua/src/lundump.c:167-168) | `LoadDebug` | The number of names is not compared with the number of upvalues, so a stream that no dump produces can make the loop store behind the last description. It does if and only if the stream holds one name more than there are upvalues; the model returns an error at that point (`Undump.LoadState.LoadNames`, `Undump.LoadState.LoadDebug`). |

## Left out

- Garbage collector: generational mode, emergency collections and pacing; finalizers enter as the objects that the atomic step moves to the list of objects being finalized, which are roots from then on. Lists of open upvalues are sets, buckets of the string table are one list here (they are modelled in `strings.dfy`), and each barrier takes place right before its store.
- GcCollector.Collector.Start: what f_luaopen builds (registry, globals, fixed strings) is left out; it is made by operations of the program, which `GcRuns.Run` covers.
- GcCollector.Collector.FullCycle: keys of empty entries do not count as references, and open upvalues are expected below the top of their stacks. With objects newly separated for finalization it gives an upper and a lower bound of what is left, which meet when there are none.
- GcFull.FullGc: the same holds; the calls of finalizers before and after the collection are operations of the program and are left out here.
- GcRuns.Run: the ephemeron rule is claimed for the atomic step only if no program step came between marking and it; otherwise tables on the allweak list when the atomic step starts count for their metatables only. Its lua_setmetatable is guarded by the exact condition of `GcProgram.SetMetaExact`; without the guard it is `GcMetatable.SetMetatable`.
- GcMetatable.SetThenAtomic: is about a metatable that nothing but the stack slot holds, which is where the condition decides; a metatable that something else keeps alive gets marked anyway.
- Code generator: constants, locals, comparisons, not, and, or; no arithmetic, calls, upvalues or table accesses. Limits on registers, constants and jump offsets are lifted, except the one on constant operands (MAXINDEXRK). The meaning of comparisons is a parameter, constants are found by search, and jumps to the end of the code count as falling through.
- Tables: numbers that are no integers, booleans, strings and objects are one kind of key with any main position function; weak modes and metatables belong to the collector. Memory errors and the table overflow error are lifted.
- Tables.LTable.Resize: a smaller array part is asked for only with a hash part that has room for the keys that leave it, as by rehash; the source counts on that too, as a rehash in the middle of re-insertion would find the table half resized. Tables.LTable.ResizeArray has the same condition.
- TableChain.LiveHolder: a key is an identity with one main position; that the address of a dead string is used again by a string with another hash, which is looked for in another chain, is left out.
- Tables.Traverse: assignments to fields that do not exist are left out, as the manual leaves what follows undefined.
- Trees: keys are integers; the mirror images in the source share one text with a side as a parameter; links of nodes that have left a tree are not modelled. SPLAY_REMOVE returns whether the node was found.
- Thread pool: critical sections are atomic steps and each submission has an identity of its own. Thread creation, UV_THREADPOOL_SIZE, the dispatch in uv_cancel and the delivery of async wake-ups are not part of this model.
- Binary heap: heap_insert and heap_remove share one method for the walk up.
- Pattern matching: character classes of the C locale; gsub, gmatch and the values of captures are left out. PatternMeaning.NoError is about patterns without back references, whose errors depend on the subject.
- ParseExpr.LexState.SimpleExp: suffixes, constructors and functions are left out; atoms stand for all simple expressions. The nesting limit of enterlevel is lifted.
- Binary chunks: 32-bit little-endian ints, 64-bit sizes and 8-byte number images that are opaque. Unknown constant tags give nil. Memory errors are left out.
- String table: the hash function is any function, an interning is given the address that the allocator would return, and counts are unbounded. Marking and the rest of the collector are in `gc_*.dfy`.
- Sorting: elements are integers, the order is any relation; errors and side effects of the order function are left out.
- Internet addresses: the output of printf for unsigned numbers is taken as their digits.
- Not modelled at all: the rest of the parser and the virtual machine loop, coroutines, hooks, the standard libraries apart from the parts above, sockets, handles and platform code, luaO_int2fb, and lua_Number arithmetic.
