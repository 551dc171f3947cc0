# Verification of the Lama virtual machine: collector, verifier, interpreter

This project models two parts of the virtual machine that share one stack, and proves them against
references that do not mention how they work.

**The collector and its heap** (`src/runtime/gc.c`, the object functions of `src/runtime/runtime.c`,
`src/runtime-decl.h`). The heap is an array of 32-bit words tiled by objects, with a base address; a
`Shape` is the ghost record of the tiling. Marking walks the object graph breadth first with a queue
that lives in the forward-address words of the heap itself; compaction computes new places, moves the
heap with mremap, rewrites fields and roots, and slides objects down in one buffer, the last word of a
string byte by byte. What a heap *means* is a store of objects whose identities (allocation numbers)
never change. The main results: marking marks exactly what the roots reach; a collection leaves the
store, the identities and the values of all roots unchanged, keeps exactly the reachable objects in
address order, and fails only when mremap does; a second collection moves nothing; and every program
of stack and heap operations, with collections at any allocation, computes what it computes on an
abstract machine with unbounded memory, unless its operands do not fit or the system has refused a heap
of twice what the abstract stack reached at some step and what was then asked for; where there is room
neither happens.

**The verifier and the interpreter it guards** (`src/main.cpp`, `src/visitor.h`,
`src/diagnostic-visitor.h`, `src/executing-visitor.h`). Two decoders over the same bytes, the two
worklist passes, the patch of BEGIN, and the interpreter with its checks removed. The main results:
`gather_incoming_cf` returns exactly the jump and call targets of reachable code; `check_depth`, whenever
it ends, accepts exactly the programs all of whose paths are balanced, and on a balanced program it ends
if and only if no reachable address comes back to itself by falling through alone (a closure with a
negative count makes decoding step back); the maxima it records are peaks of paths, and no path without
jumps has a higher one; the two passes together give one depth to each target; and in
every run of a verified program with direct calls only, the operands above the locals of the current
function are as many as the verifier has computed, no pop meets an empty stack, and from a CALL to the
matching END, at any nesting depth, the caller's stack loses the arguments, gains the result and keeps the
rest. A run is a sequence of moments (registers and operand array); what each opcode does to them, byte by
byte, and when a run stops is said in numbers in `Opcodes` and `OpcodeSteps`. Runs stop, as BadStore, exactly
before a store through a reference to a word that is neither
in the heap nor the current function's own: the verifier does not rule such stores out, and a run from the
start of an accepted program to one that hits a return address is shown. A program without STI and STA has
none. One program is verified, patched and run to its end.

**The tag hash** (`LtagHash`, `de_hash`): the round trip, exactly which tags are refused, and which
s-expressions a TAG test takes for one another.

| files | content |
|---|---|
| `Words`, `Layout`, `Process` | words and headers; the tiled heap and the object graph; the state of the collector and its accessors |
| `MarkQueue`, `MarkPhase` | the queue in the heap, as facts about forward-address words and then as methods |
| `Compaction`, `CompactPhase`, `Collector` | new places; the three passes over the heap; mremap and the whole phase |
| `Abstraction`, `Relocation`, `Settled`, `Idempotence` | what a heap means; sliding keeps it; the invariant between collections and the collection theorem; a second collection |
| `Liveness`, `Allocation`, `Mutation`, `Semantics`, `Laws`, `Runtime`, `Builders`, `Execution` | what a store reaches, against what marking keeps; `alloc`; stores; the abstract machine and what short programs do on it; the operations and their refinement; whole runs |
| `Bytecode`, `Opcodes`, `ControlFlow` | the decoders; what the verifier makes of each byte; the first pass |
| `DepthTable`, `DepthPaths`, `FallChains`, `DepthCheck`, `CycleExample`, `BeginPatch`, `Verification`, `StraightLine`, `StopExample` | the depth table; abstract paths; where falling through leads; the second pass; where it does not end; the patch; both passes; code without jumps; why STOP is excluded |
| `Frames`, `OneStack`, `DirectCalls` | frames on the operand stack; what a collection does to them; what a verified program may do |
| `Effects`, `Runs`, `OpcodeSteps`, `Interpreter`, `VerifiedRun`, `Rooms` | what instructions do to the array; runs as moments, calls and returns; each opcode; the interpreter; verify and run; what the maxima are good for |
| `CallExample`, `CallRun`, `StoreExample` | a program that meets the conditions, and its run; a store that hits a return address |
| `TagHash` | the tag hash |

Conventions. Offsets count words (heap, stack) or bytes (code). One array, `ram`, is the memory of the
C stack: the operand stack is the part strictly between `top` and `bottom`, extra roots are slots
elsewhere. What mremap answers, what the data operations of the interpreter compute and when
collections happen there are parameters, and so is whether one of them ends the program for what it finds in
the heap or in a string (`Effects.Choice`); OneStack shows that a collection does to the operand array what
the interpreter model allows. A program may hold even words that are not heap pointers
(code addresses, static data): these are the words of `outside`, and the system never maps the heap over
one of them. In the interpreter model the heap is a set of words (`Place.heap`) that holds neither the array
nor the fields of the visitor beside it nor code; OneStack ties it to the heap of the collector. A
method's `ghost` parameters and results carry the abstract state of the proof only.

What is asked of programs. For the heap results: words a program holds are boxed integers, content
addresses of objects, or words of `outside`; extra roots are distinct and not at `top` or `bottom`; element
accesses are inside their objects (`Semantics.Stuck` is the outcome otherwise). For the
first pass: nothing. For the second: any bytes and any list of public symbols for what it answers; that
no reachable address comes back to itself by falling through alone (`FallChains.NoFallCycle`) for the loop
that ends, which holds if no reachable closure has a count of captured variables below -1. For the interpreter
(`DirectCalls.DirectProgram`, `VerifiedRun.NoOverlap`): public symbols are BEGINs, calls go to public symbols
with as many arguments as the BEGIN takes, BEGIN is entered by calls only, no CALLC and no STOP, counts are
between 0 and 127 because the depth table narrows them to 8 bits, END is reached with at least one operand
because the table asks for none (src/diagnostic-visitor.h:60), local, argument and global indices are in
range (the check of the source admits two globals more than there are, src/executing-visitor.h:77), and no
instruction shares bytes with the argument count of another function. CallExample meets all of these.

## Model

| member | source | states |
|---|---|---|
| Words.HeaderBits | src/runtime/runtime_common.h:16-17 | tag and length, remainder and quotient in the model, are the masked words of the source |
| Words.FlagBits | src/runtime/gc.h:26-28 | the tests for mark and enqueued bit are the masks of the source |
| Words.ForwardBits | src/runtime/gc.h:35-37 | the model's forward address and its update are the mask `~3` and the bitwise or of the two low bits with the new address |
| Words.MarkBits | src/runtime/gc.h:26-31 | marking and unmarking are the bitwise or with 1 and the mask `~1`; unmarking keeps the enqueued bit and the address |
| Words.EnqueuedBits | src/runtime/gc.h:29 | making an object enqueued is the bitwise or with 2 |
| Words.DequeuedBits | src/runtime/gc.h:30 | making it dequeued is the mask `~2` |
| Words.UnboxBox | src/runtime/runtime_common.h:31-33 | boxing loses nothing for integers of 31 bits |
| Words.SpliceBytes | src/runtime/gc.c:467-470 | a copy of k bytes into a word leaves the low k bytes equal to the source |
| Words.WithByteBytes | src/runtime/runtime.c:943-966 | a byte store changes exactly that byte of its word |
| Layout.Shape.Ordered | src/runtime/gc.c:716-729 | objects found by the heap iterator lie in order without overlap, each at least header and forward word long |
| Layout.PtrUnique | src/runtime/gc.c:479-481 | a content address names one object and passes the range test, whose upper bound is inclusive |
| Layout.WriteBits | src/runtime/gc.c:675-714 | writing one forward-address word changes the mark, bit and address of that object only, and nothing else in memory |
| Layout.ClosedUnderPath | src/runtime/gc.c:502-532 | a set of objects closed under edges and holding the start of a path holds its end |
| Layout.SameGraph | src/runtime/gc.c:675-714 | the object graph does not depend on forward-address words |
| MarkQueue.Pigeonhole | src/runtime/gc.c:485-491 | a queue of distinct objects is no longer than the number of objects |
| MarkQueue.RoomInQueue | src/runtime/gc.c:485-491 | whenever an unmarked, unenqueued object is met the tail slot lies below `heap.current` |
| MarkQueue.EnqueueKeeps | src/runtime/gc.c:485-491 | enqueueing keeps the queue: each object at most once, no waiting entry overwritten, FIFO order of the waiting slots |
| MarkQueue.DequeueKeeps | src/runtime/gc.c:493-500 | the head slot holds the oldest waiting object; taking and marking it keeps the queue |
| MarkQueue.WithForwardKeepsBits | src/runtime/gc.h:37 | SET_FORWARD_ADDRESS keeps mark and enqueued bits, so queue links and bits share the word safely |
| MarkQueue.QueueDone | src/runtime/gc.c:502-532 | when the queue has run empty exactly the objects reachable from the argument have gained a mark |
| MarkQueue.ReachedAreMarked | src/runtime/gc.c:502-532 | a marked set closed under edges holds everything reachable, so returning early on a marked object loses nothing |
| MarkPhase.Enqueue | src/runtime/gc.c:485-491 | `queue_enqueue` writes the link and sets the enqueued bit; headers, fields and other bits stay |
| MarkPhase.DequeueAndMark | src/runtime/gc.c:493-500 | `queue_dequeue` returns the object at the head, clears its bit, advances the head; then it is marked |
| MarkPhase.Meet | src/runtime/gc.c:522-529 | a field target is enqueued unless it is marked or waiting, and is met afterwards in any case |
| MarkPhase.ScanFields | src/runtime/gc.c:519-530 | after the field loop every field target of the object has been met |
| MarkPhase.DrainQueue | src/runtime/gc.c:514-531 | the queue loop ends (by objects not yet marked) with an empty queue and marks closed under edges |
| MarkPhase.Mark | src/runtime/gc.c:502-532 | `mark` marks exactly the objects reachable from its argument in addition to those marked before; closure under edges is kept between calls |
| MarkPhase.ScanStack | src/runtime/gc.c:225-229 | after the stack scan exactly the objects reachable from the words strictly between top and bottom are marked |
| MarkPhase.ScanExtraRoots | src/runtime/gc.c:534-539 | and after the extra roots those reachable from them too |
| MarkPhase.MarkAll | src/runtime/gc.c:231-256 | `mark_phase`: an object is marked if and only if it is reachable from the stack or an extra root; data unchanged, queue empty |
| ProcessState.NextObject | src/runtime/gc.c:721-727 | the heap iterator steps from each object to the next |
| ProcessState.SkipUnboxed | src/runtime/gc.c:823-842 | the pointer-field iterator stops at the first even word or past the object |
| Compaction.MovesDown | src/runtime/gc.c:283-306 | a new place is never above the old one |
| Compaction.PlacesDisjoint | src/runtime/gc.c:283-306 | new places of live objects are disjoint and in address order |
| Compaction.Compacted | src/runtime/gc.c:283-306 | the new places tile the heap without gaps up to the live size |
| Compaction.MovedPtr | src/runtime/gc.c:401-453 | a pointer to an object becomes the content address of its new place relative to the new base |
| Compaction.CopiedKeeps | src/runtime/gc.c:455-477 | a finished copy survives writes elsewhere and the clearing of its mark |
| CompactPhase.ComputeLocations | src/runtime/gc.c:283-306 | every live object gets base plus the sizes of live objects before it; the result is the total live size; marks and data stay |
| CompactPhase.RedirectField | src/runtime/gc.c:412-436 | one pointer field of a live object is replaced once by the image of its target, also for a moved base |
| CompactPhase.RedirectFields | src/runtime/gc.c:401-453 | after the pass over the heap exactly the fields of live objects have been redirected |
| CompactPhase.FixRegion | src/runtime/gc.c:308-328 | each word of the stack region is redirected exactly once |
| CompactPhase.FixExtraRoots | src/runtime/gc.c:330-399 | each extra root is redirected exactly once, those inside the stack region not a second time |
| CompactPhase.UpdateReferences | src/runtime/gc.c:401-453 | `update_references`: live fields and all root slots hold images, everything else, forward words included, is unchanged |
| CompactPhase.MemMove | src/runtime/gc.c:467-470 | memmove to a lower address, byte exact: whole words and the low bytes of the last; padding above them and all other memory kept |
| CompactPhase.SlideObject | src/runtime/gc.c:463-471 | the move of a live object leaves its copy at the new place and damages no word below that or from its old end on |
| CompactPhase.SlideNext | src/runtime/gc.c:460-475 | one step of the slide, for a live or a dead object: all objects so far are at their new places, and the rest of the heap, with the headers still to be read, is as it was |
| CompactPhase.PhysicallyRelocate | src/runtime/gc.c:455-477 | `physically_relocate`: every live object is at its new place with its contents and a cleared mark |
| Relocation.Cycle.NewTiling | src/runtime/gc.c:455-477 | the new heap is tiled exactly by the live objects in their old order |
| Relocation.Cycle.NewBits | src/runtime/gc.c:455-477 | no mark or enqueued bit is left set |
| Relocation.Cycle.CarriedVal | src/runtime/gc.c:308-328 | redirection keeps what a word denotes: the same object, or the same non-heap word |
| Relocation.Cycle.NewFields | src/runtime/gc.c:401-477 | the fields of an object denote after sliding what they denoted before |
| Relocation.Cycle.NewStringBytes | src/runtime/gc.c:455-477 | strings keep their bytes, the final 0 included, although their last word is copied in part |
| Relocation.Cycle.NewRepresents | src/runtime/gc.c:258-281 | the compacted heap represents the same store under the same identities |
| Collector.Remap | src/runtime/gc.c:258-281 | mremap keeps the contents and may change the base; its failure ends the program |
| Collector.ClosedTargets | src/runtime/gc.c:401-453 | fields of live objects lead to live objects, so redirection never meets a dead target |
| Collector.CompactHeap | src/runtime/gc.c:258-281 | `compact_phase`: plan, enlarge, redirect, slide; it fails exactly when mremap does not grant the size asked for, and `current` is the live size |
| Settled.GoodCarried | src/runtime/gc.c:479-481 | a word that the collector takes for a pointer is one, before and after; other words keep their value |
| Settled.Collect | src/runtime/gc.c:185-223 | mark and compact on any heap that satisfies the invariant: invariant again, same store and identities, same values of all roots, marks exactly the reachable objects, new size known; fails exactly when mremap refuses |
| Idempotence.EdgeCarried | src/runtime/gc.c:401-477 | an edge between live objects is an edge between their images |
| Idempotence.OnlyReachableLeft | src/runtime/gc.c:231-281 | after a collection every object in the heap is reachable from the roots |
| Idempotence.NothingMoves | src/runtime/gc.c:283-306 | when all objects are live each keeps its place and its identity |
| Idempotence.CollectTwice | src/runtime/gc.c:185-223 | of two collections with the same roots the second moves nothing relative to the base |
| Liveness.ReachAlive | src/runtime/gc.c:502-532 | what the roots reach through the words of the heap, their values reach in the abstract store |
| Liveness.LiveKept | src/runtime/gc.c:283-306 | the objects that marking keeps take no more words than those that the roots reach in the abstract store |
| Allocation.GrownHeap | src/runtime/gc.c:870-922 | a zeroed block with a header becomes one more object; the others are as they were |
| Allocation.AllocOnExistingHeap | src/runtime/gc.c:175-183 | bump allocation succeeds exactly when the request fits, and the block is zeroed and above all objects |
| Allocation.MakeRoom | src/runtime/gc.c:185-223 | a collection as the program sees it: nothing has happened; twice the live size and the request fit, capacity never shrinks, and is at most twice what the roots reach in the abstract store, and the request; the same bounds what the system has refused |
| Allocation.Alloc | src/runtime/gc.c:51-66 | `alloc` yields a zeroed block disjoint from every object, with at most one mremap call; without a block, the request did not fit and the system has refused a heap of at most twice what the operand stack and the extra roots reach, and the request |
| Allocation.AllocObject | src/runtime/gc.c:870-922 | the common part of the four allocators: an object with zero contents under the next identity, all roots unchanged in value |
| Mutation.WriteField | src/runtime/runtime.c:943-966 | storing a field changes that field of that object in the store and nothing else |
| Mutation.WriteByte | src/runtime/runtime.c:943-966 | storing a byte changes that byte of that string and nothing else |
| Mutation.StoreUpdated | src/runtime/runtime.c:943-966 | a write inside one object leaves every other object and every header alone |
| Runtime.Push | src/runtime-decl.h:60-68 | push with its overflow check adds the value of the word to the abstract stack |
| Runtime.Pop | src/runtime-decl.h:70-77 | pop with its underflow check takes it off |
| Runtime.Llength | src/runtime/runtime.c:211-214 | `Llength` pushes the boxed length, and stops on an integer |
| Runtime.TestObject | src/runtime/runtime.c:874-897 | `Btag` and `Barray_patt` test tag and length, and the tag hash of an s-expression |
| Runtime.Belem | src/runtime/runtime.c:677-691 | `Belem` gives the signed byte of a string, the field of an array or s-expression (one word further on) |
| Runtime.VisitElem | src/executing-visitor.h:207-214 | ELEM takes index and object in this order and refines the abstract step |
| Runtime.Bsta | src/runtime/runtime.c:943-966 | `Bsta` stores into string, array or s-expression and returns the stored value |
| Runtime.VisitSta | src/executing-visitor.h:147-154 | STA takes value, index and object in this order and refines the abstract step |
| Runtime.VisitLength | src/executing-visitor.h:400-406 | CALL Llength refines the abstract step |
| Runtime.VisitTest | src/executing-visitor.h:359-365 | ARRAY, and TAG once its hash is known, refine the abstract test |
| Runtime.VisitTag | src/executing-visitor.h:351-358 | TAG with the name of a tag refines the abstract test; a tag that `LtagHash` refuses ends the program |
| Runtime.VisitDrop | src/executing-visitor.h:188-192 | DROP refines the abstract step |
| Runtime.VisitDup | src/executing-visitor.h:193-198 | DUP refines the abstract step |
| Runtime.VisitSwap | src/executing-visitor.h:199-206 | SWAP exchanges the two newest operands |
| Runtime.VisitLd | src/executing-visitor.h:215-221 | LD of a global pushes its value |
| Runtime.VisitSt | src/executing-visitor.h:230-236 | ST to a global stores the newest operand, which stays |
| Builders.FillFields | src/runtime-decl.h:97-100 | the fill loop puts the n newest operands into the fields in push order, last field first |
| Builders.MyArray | src/runtime-decl.h:93-101 | `myBarray`: fields are the n newest operands in push order, exactly those are dropped, also when the allocation moves the heap |
| Builders.MySexp | src/runtime-decl.h:106-124 | `myBsexp`: the same for an s-expression, whose tag word is the unboxed hash of its name; it fails for names that `LtagHash` refuses |
| Builders.MyClosure | src/runtime-decl.h:128-141 | `myBclosure`: the same for a closure, whose first word is the code offset |
| Builders.PushExtraRoot | src/runtime/gc.c:600-608 | `push_extra_root` registers a slot unless 32 are registered, and keeps the heap invariant |
| Builders.PopExtraRoot | src/runtime/gc.c:610-620 | `pop_extra_root` accepts only the slot registered last |
| Builders.LiteralKept | src/runtime/runtime.c:727-741 | a registered slot that holds no heap pointer still holds the same word after a collection |
| Builders.BString | src/runtime/runtime.c:727-741 | `Bstring` makes a string object with the bytes of the literal and its final 0, read through the registered slot |
| Builders.VisitArray | src/executing-visitor.h:412-416 | CALL Barray refines the abstract step |
| Builders.VisitSexp | src/executing-visitor.h:131-137 | SEXP refines the abstract step |
| Builders.VisitClosure | src/executing-visitor.h:277-329 | CLOSURE, from captured values on the stack, refines the abstract step |
| Builders.VisitStr | src/executing-visitor.h:123-129 | STRING refines the abstract step |
| Laws.SwapLaw | src/executing-visitor.h:199-206 | SWAP leaves the older of two operands on top |
| Laws.GlobalLaw | src/executing-visitor.h:215-236 | a stored global is loaded again, others stay, and the value stays on the stack |
| Laws.UnderflowLaw | src/runtime-decl.h:70-77 | with no operands, and globals only, the pops fail |
| Laws.ArrayLaw | src/executing-visitor.h:207-214 | after v0 to v(n-1) have been pushed, Array(n), Const(k), Elem leave v(k) on what was below |
| Laws.SexpLaw | src/executing-visitor.h:207-214 | the same for an s-expression |
| Laws.ClosureLaw | src/executing-visitor.h:207-214 | the same for a closure, behind its code address |
| Laws.StringLaw | src/runtime/runtime.c:677-691 | the characters of a new string are loaded as signed bytes, and a 0 behind them |
| Laws.ElemFails | src/runtime/runtime.c:680-681 | ELEM on an integer, or with an index that is none, ends the program |
| Laws.StoreLaw | src/runtime/runtime.c:943-966 | what STA has stored with an index into an object is what ELEM loads from there, in a string the low byte; other objects stay |
| Laws.LengthLaw | src/runtime/runtime.c:211-214 | lengths of a new array and a new string, and failure on an integer |
| Laws.ArrayTestLaw | src/runtime/runtime.c:890-897 | ARRAY tells arrays by their length |
| Laws.IntegerTestLaw | src/runtime/runtime.c:874-897 | TAG and ARRAY are negative on integers |
| Semantics.StoredIsLoaded | src/runtime/runtime.c:943-966 | on the abstract machine a stored element is loaded again, from a string as a signed byte, and STA leaves the value on the stack |
| Semantics.OthersUnchanged | src/runtime/runtime.c:943-966 | a store changes no other element of any object |
| Semantics.GatheredElements | src/runtime-decl.h:93-101 | element k of a new array is the k-th operand in push order |
| Semantics.TagMatches | src/runtime/runtime.c:874-883 | TAG s on an s-expression built with tag t gives 1 if and only if the lengths and the first five characters of the tags agree |
| Execution.RunSplit | src/main.cpp:574-587 | a run of the abstract machine splits after any number of operations |
| Execution.Execute | src/main.cpp:574-587 | every instruction of the list refines its abstract step; overflow is reported only when the operands of the next abstract state do not fit, lack of memory only when the request did not fit and the system has refused a heap of at most twice what is live, and the request |
| Execution.HeapBounded | src/runtime/gc.c:51-66 | the heap in use is never larger than all objects of the abstract store together |
| Execution.NeedBounded | src/runtime/gc.c:258-281 | what a program needs, twice what its stack reaches at some step and what that step asks for, is at most twice all that it allocates |
| Execution.NoLimitMet | src/runtime/gc.c:258-281 | a program whose operands always fit, and to which the system grants heaps of what it needs, meets no limit, however much garbage it makes |
| Execution.RunAll | src/main.cpp:574-587 | whole programs: the real machine, collections included, ends in a state that represents the final state of the abstract machine, stops with an error where it does, or has met a limit: operands that do not fit at a step of the abstract run, or a refused heap no larger than the first one or twice what the abstract stack reached up to that step and what was asked for; with room for both it ends or stops with an error |
| Execution.Boot | src/runtime-decl.h:50-58 | the initial state satisfies the invariant, with one global less than N_GLOBAL usable |
| Bytecode.RunInstruction | src/main.cpp:75-431 | whatever `run_instruction` accepts, `visit_instruction` decodes, with the jump target, the end of a path and the fall-through that it reports; its next address lies further on and in the code |
| Opcodes.LittleEndian | src/visitor.h:87-93 | integers are four bytes, the least significant first, signed |
| Opcodes.OneBytePoint | src/lama-enums.h:7-83 | what the verifier demands of, and where it goes on after, each opcode of one byte, in numbers: accepted exactly with the operands required, followed by the next byte at the changed depth |
| Opcodes.FiveBytePoint | src/lama-enums.h:36-83 | the same for opcodes with one integer, the 8-bit narrowing of counts included |
| Opcodes.NineBytePoint | src/lama-enums.h:63-76 | the same for opcodes with two integers; CALL is accepted exactly with a BEGIN at its target, FAIL leads nowhere |
| Opcodes.JumpPoint | src/lama-enums.h:48-76 | END and RET lead nowhere; JMP goes to its target, the conditional jumps to target and next instruction, with one operand less |
| Opcodes.ClosurePoint | src/visitor.h:235-242 | CLOSURE is accepted exactly with a BEGIN at its address and captured variables of known kinds inside the code |
| Opcodes.CapturesExactly | src/main.cpp:299-325 | captured variables are accepted exactly if all of them are in the code, with kinds from 0 to 3 |
| Opcodes.NineByteCut | src/main.cpp:75-431 | instructions that do not fit into the code are refused |
| Opcodes.NoOpcode | src/lama-enums.h:7-83 | every other byte is refused |
| StraightLine.LineBalanced | src/main.cpp:495-568 | a straight line of instructions is accepted exactly if each of them finds its operands |
| StraightLine.DuplicateAccepted | src/main.cpp:495-568 | BEGIN, CONST, DUP, SWAP, DROP, END by their bytes is accepted |
| StraightLine.SwapRefused | src/main.cpp:504-506 | SWAP on one operand is refused |
| Bytecode.DecodersAgree | src/visitor.h:84-325 | whatever `run_instruction` accepts `visit_instruction` decodes, with the same jump target and kind; next addresses agree exactly when the count of captured variables is not negative |
| Bytecode.BackwardExample | src/visitor.h:235-242 | with a negative count `visit_instruction` goes backwards |
| ControlFlow.PushIfNotVisited | src/main.cpp:436-443 | an address goes on the worklist once; outside the code there is no mark for it |
| ControlFlow.GatherIncomingCf | src/main.cpp:433-464 | `gather_incoming_cf` succeeds exactly when all reachable code decodes, and returns exactly the jump and call targets of reachable instructions |
| DepthTable.TableRight | src/diagnostic-visitor.h:29-175 | depth change and required depth suffice for what the interpreter takes and leaves exactly when the count survives 8-bit arithmetic and the instruction is neither CALLC nor END |
| DepthTable.CountTooLarge | src/diagnostic-visitor.h:169-171 | a count of 128 makes the required depth -128 |
| DepthPaths.NoUnderflow | src/main.cpp:504-511 | on every path of a balanced program each instruction has its required depth and leaves a non-negative one |
| DepthCheck.RegisterDepth | src/main.cpp:482-492 | `register_depth` fails exactly on a second, different depth |
| DepthCheck.FollowJump | src/main.cpp:527-547 | a jump target is pushed the first time only and registered every time; a mismatch is a real one |
| DepthCheck.FallKeeps | src/main.cpp:558-563 | the next instruction is pushed without a visited test, wherever it lies, and the invariant of the loop stays |
| DepthCheck.TurnShrinks | src/main.cpp:497-567 | without a fall cycle every turn visits a new jump target or makes the worklist smaller by the lengths of the falls still to come |
| FallChains.Nearer | src/main.cpp:558-563 | without a fall cycle every fall brings a path nearer to where falling ends |
| FallChains.ForwardNoCycle | src/visitor.h:235-242 | there is no fall cycle if no reachable closure has a count below -1 |
| DepthCheck.RecordKeeps | src/main.cpp:553-557 | each maximum recorded is the peak of some path from the function to one of its ENDs |
| DepthCheck.AllDone | src/main.cpp:495-568 | an empty worklist means that all abstract paths have been accounted for |
| DepthPaths.NextForward | src/visitor.h:235-242 | decoding steps forwards, and stays in the code, unless a closure has a count below -1 |
| DepthCheck.VerdictRight | src/main.cpp:495-568 | for every program: whenever the loop is over, it has accepted if and only if all paths are admissible and depths agree at every joint point, and its maxima are peaks of paths |
| DepthCheck.EndsExactly | src/main.cpp:495-568 | without a fall cycle the loop ends for every program; on a balanced program it ends if and only if there is none |
| DepthCheck.CycleNeverEnds | src/main.cpp:495-568 | on a balanced program with a fall cycle there is something left to do after any number of turns |
| DepthCheck.MaximaRight | src/main.cpp:553-563 | whenever the loop has ended, every public function with a path to END that never jumps has a maximum, no less than the peak of each such path |
| DepthCheck.CheckPaths | src/main.cpp:474-568 | `check_depth` up to the patch: without a fall cycle its loop ends and accepts if and only if all paths are admissible and depths agree at every joint point; the maxima returned are those with which the loop has ended, each the peak of a path to an END, and no path to END that never jumps has a higher one |
| CycleExample.GoesRoundForEver | src/main.cpp:495-568 | such a program, with depths of 0 and 1 only: after any number of turns nothing is rejected and the worklist is not empty |
| BeginPatch.ArgsKept | src/main.cpp:569-571 | adding the shifted maximum keeps the low 16 bits, with 32-bit wrap-around |
| BeginPatch.PatchBegins | src/main.cpp:569-571 | the final loop raises exactly the argument counts of the functions with a maximum |
| BeginPatch.FetchBegin | src/executing-visitor.h:258-259 | a patched BEGIN decodes to the same number of arguments and locals and the same next address |
| Verification.Verify | src/main.cpp:611-613 | both passes and the patch, without a fall cycle: accepted exactly when reachable code decodes, all paths are balanced and the maxima fit; the counts of BEGIN are raised by maxima as in CheckPaths |
| Verification.ExploredByBoth | src/main.cpp:433-568 | outside STOP and negative counts the second pass explores only what the first has explored |
| Verification.OneDepth | src/main.cpp:512-514 | all paths into a jump or call target, by jump or fall-through, arrive with one depth |
| StopExample.StopHidesMismatch | src/main.cpp:121-124 | with STOP this fails: an accepted program whose jump target is reached with two depths |
| Frames.Lower | src/executing-visitor.h:256-276 | frames of later calls lie strictly below those of earlier ones |
| Frames.OwnWrite | src/executing-visitor.h:83-90 | a write to operands, locals or arguments of the current function or to a global harms no frame |
| Frames.CollectedChain | src/runtime/gc.c:401-453 | neither does a collection: saved base pointers, counts and return addresses are not heap pointers |
| OneStack.ArrayCollected | src/runtime/gc.c:308-399 | what a collection does to the operand array, by the theorem about the collector, is what CollectedChain reckons with |
| OneStack.HeapFound | src/runtime/gc.c:258-281 | wherever the system puts the heap of the collector, its words are heap words of the interpreter model |
| OneStack.CollectArray | src/runtime/gc.c:185-223 | a collection of the process that the interpreter runs in |
| Frames.CallAdds | src/executing-visitor.h:256-276 | CALL and BEGIN add a frame whose control words lead back to the caller |
| Frames.ReturnRemoves | src/executing-visitor.h:165-187 | END finds the caller's base pointer, argument count and return address, and leaves the result where the arguments were |
| Frames.OwnFrame | src/executing-visitor.h:83-90 | ARG i is the i-th argument the caller pushed and LOCAL i lies between base pointer and operands, both in the own frame |
| DirectCalls.PointKnown | src/diagnostic-visitor.h:29-175 | at every point of a verified direct-call program the operands an instruction takes are there, and the table gives its true effect |
| Interpreter.SlotsOfFrame | src/executing-visitor.h:75-90 | the addresses that `create_reference` computes are the argument and local slots of the frame on top, and the global area |
| Interpreter.VisitBegin | src/executing-visitor.h:256-276 | BEGIN refuses exactly when the room it computes is not there; else a frame is open, its operand count is 0, and array and registers are exactly those that its stores leave |
| Interpreter.VisitCall | src/executing-visitor.h:340-350 | CALL leaves the arguments and the return address for the BEGIN it goes to |
| Interpreter.VisitEnd | src/executing-visitor.h:165-187 | END restores the caller, whose operand stack has lost the arguments and gained the result, and which is otherwise as it was |
| Interpreter.VisitLda | src/executing-visitor.h:222-229 | LDA pushes the address of the variable twice |
| Interpreter.VisitSti | src/executing-visitor.h:139-146 | STI stores through a reference into the own frame, a global or the heap; BadStore exactly for any other word, those of the visitor's fields beside the array among them |
| Interpreter.VisitSta | src/executing-visitor.h:147-154 | STA stores where `Bsta` does (src/runtime/runtime.c:943-966), by the header in front of its target or through the reference itself, into the own frame, a global or the heap; BadStore exactly for any other word, and an error exactly for an element of an integer |
| Effects.HeapApart | src/runtime/runtime.c:943-966 | a store into the heap touches neither the operand array nor the visitor's fields in front of it and behind it nor code |
| Interpreter.StepBody | src/main.cpp:574-587 | one step inside a function keeps operand count and verified depth equal; how it ends and what it does to array and registers is what BodyStatus and BodyStep say |
| Interpreter.Interpret | src/main.cpp:574-587 | any number of steps, whatever is computed and collected: every moment follows from the one before by the instruction there; the run makes all its steps or stops at the first moment at which StatusAt says so, with that status; the invariant holds, so every pop of the unchecked interpreter finds an operand of the current function; no push leaves the array if each function has room for its operands |
| Interpreter.PushOperand | src/runtime-decl.h:60-68 | an unchecked push fails only when the array is full, and then there are more operands than the check in BEGIN has made room for |
| Interpreter.RoomHere | src/executing-visitor.h:256-276 | where the point reached is within the recorded room, so is the real operand stack |
| Interpreter.BoundedIsRoomy | src/executing-visitor.h:258-263 | the room that BEGIN checks is enough everywhere if the recorded maxima bound all peaks and closures capture at most three values more than their function has arguments |
| Runs.FramesBalanced | src/executing-visitor.h:165-187 | in every run the frame an END removes is the one the matching BEGIN added, at any nesting depth, and the frames of the callers are as they were |
| Runs.CallAndReturn | src/executing-visitor.h:165-187 | from a CALL to the matching END, whatever is called in between: control is behind the CALL, the operands of the caller are what they were without the arguments and with the result, and every word above is unchanged but for what collections move |
| OpcodeSteps.StepArithmetic | src/executing-visitor.h:38-59 | 0x01 to 0x0D except 0x04 and 0x05: the two newest integers are replaced by their sum, difference, product, comparison, conjunction or disjunction, the older one on the left |
| OpcodeSteps.StepDivision | src/executing-visitor.h:38-59 | 0x04 and 0x05: quotient and remainder rounded towards zero |
| OpcodeSteps.StepConst | src/executing-visitor.h:118-122 | 0x10 pushes its integer, boxed |
| OpcodeSteps.StepStr | src/executing-visitor.h:123-130 | 0x11 pushes one word, after a collection or none |
| OpcodeSteps.StepSexp | src/executing-visitor.h:131-138 | 0x12 with n operands: one word takes their place, after a collection or none |
| OpcodeSteps.StepSti | src/executing-visitor.h:139-146 | 0x13 stores the newest word where the reference below it points, in the array or the heap, and leaves the word in the place of the reference |
| OpcodeSteps.StepSta | src/executing-visitor.h:147-154 | 0x14 without an index does the same with the reference one further down |
| OpcodeSteps.StepStaElement | src/executing-visitor.h:147-154 | 0x14 with index j stores element j of what is in the array, one further on behind the header of an s-expression |
| OpcodeSteps.StepStaChar | src/executing-visitor.h:147-154 | 0x14 on a string changes byte j to the low byte of the value |
| OpcodeSteps.StepJmp | src/executing-visitor.h:155-164 | 0x15 goes to its target and changes nothing |
| OpcodeSteps.StepEnd | src/executing-visitor.h:165-187 | 0x16 and 0x17 in a called function: registers from the three words at the base pointer, the result in the place of the first argument |
| OpcodeSteps.StepDrop | src/executing-visitor.h:188-192 | 0x18 takes the newest word off |
| OpcodeSteps.StepDup | src/executing-visitor.h:193-198 | 0x19 leaves the newest word twice |
| OpcodeSteps.StepSwap | src/executing-visitor.h:199-206 | 0x1A exchanges the two newest words |
| OpcodeSteps.StepElem | src/executing-visitor.h:207-214 | 0x1B leaves one word in the place of two, of which the older is no integer and the newer is one |
| OpcodeSteps.StepLd | src/executing-visitor.h:215-221 | 0x20 to 0x22 push the word of global, local variable or argument k: at `stack_begin` + 1 + k, base pointer - 1 - k, base pointer + 2 + `n_args` - k |
| OpcodeSteps.StepLda | src/executing-visitor.h:222-229 | 0x30 to 0x32 push the address of that word twice |
| OpcodeSteps.StepSt | src/executing-visitor.h:230-236 | 0x40 to 0x42 store the newest word there, which stays |
| OpcodeSteps.StepCjmp | src/executing-visitor.h:237-255 | 0x50 jumps on a boxed 0, 0x51 on anything else; the operand goes |
| OpcodeSteps.StepBegin | src/executing-visitor.h:256-276 | 0x52 and 0x53: exactly what is saved, set and zeroed, and that local variable 0 is not |
| OpcodeSteps.StepClosure | src/executing-visitor.h:277-329 | 0x54 pushes one word and goes on behind the captured variables |
| OpcodeSteps.StepCall | src/executing-visitor.h:340-350 | 0x56 pushes the address behind it and goes to its target |
| OpcodeSteps.StepTag | src/executing-visitor.h:351-358 | 0x57 leaves 0 for an integer |
| OpcodeSteps.StepArray | src/executing-visitor.h:359-365 | 0x58 leaves 0 for an integer |
| OpcodeSteps.StepLine | src/executing-visitor.h:370-373 | 0x5A changes nothing |
| OpcodeSteps.StepStringEqual | src/executing-visitor.h:374-379 | 0x60 leaves 0 if the newer operand is an integer |
| OpcodeSteps.StepPatt | src/executing-visitor.h:374-387 | 0x61 to 0x66: 0x64 and 0x65 tell references from integers, the others leave 0 for an integer |
| OpcodeSteps.StepLread | src/executing-visitor.h:388-392 | 0x70 pushes a word |
| OpcodeSteps.StepLwrite | src/executing-visitor.h:393-399 | 0x71 leaves 0 |
| OpcodeSteps.StepLlength | src/executing-visitor.h:400-406 | 0x72 takes no integer |
| OpcodeSteps.StepLstring | src/executing-visitor.h:407-411 | 0x73 leaves one word for one, after a collection or none |
| OpcodeSteps.StepBarray | src/executing-visitor.h:412-417 | 0x74 with n operands: one word takes their place, after a collection or none |
| OpcodeSteps.ArgumentLoaded | src/executing-visitor.h:75-90 | in every run, from a CALL over BEGIN to LD A(i): what is pushed is the operand that the caller had pushed as its i-th argument |
| OpcodeSteps.HaltsExactly | src/main.cpp:574-587 | a run halts exactly at FAIL, at the END of main, and at an operation that fails, such as STA with an index on an integer or ELEM on one |
| OpcodeSteps.OverrunsExactly | src/runtime-decl.h:60-68 | it leaves the array exactly at an instruction that pushes more words than there is room for |
| OpcodeSteps.BadStoreExactly | src/executing-visitor.h:139-154 | it comes to a foreign store exactly at STI and STA, when the word is neither the function's own nor in the heap |
| OpcodeSteps.OverflowsExactly | src/executing-visitor.h:256-264 | BEGIN refuses exactly with fewer words left than arguments, local variables, the recorded maximum and 4 |
| OpcodeSteps.OwnSlots | src/executing-visitor.h:75-90 | of the array, the words below the base pointer, the arguments of a called function and the globals are its own |
| VerifiedRun.PatchHarmless | src/main.cpp:569-571 | the patched code decodes as the verified code at every point reached |
| VerifiedRun.RunWithVerifierChecks | src/main.cpp:611-615 | verification, patch and unchecked run together: accepted exactly if reachable code decodes and all paths are balanced, and then run as in Interpreter.Interpret on the patched code |
| Rooms.NeverOverruns | src/executing-visitor.h:258-263 | the maxima are good for something: a verified program without jumps, all of whose functions return, has room for all operands, so that no push leaves the array |
| StoreExample.Accepted | src/main.cpp:611-615 | the verifier accepts a program that stores an element through the reference of a local variable |
| StoreExample.ReturnAddressHit | src/runtime/runtime.c:943-966 | and that store goes to the word that holds the return address, whatever else is in memory |
| StoreExample.RunToSta | src/main.cpp:574-587 | from the start the program comes to that store |
| StoreExample.RunToStore | src/main.cpp:574-587 | and stops there as BadStore |
| CallExample.CanRun | src/main.cpp:611-615 | a concrete program with a call meets all conditions |
| CallExample.TargetsAre | src/main.cpp:433-464 | for it the first pass finds exactly the function that is called |
| CallExample.MaximaAre | src/main.cpp:553-556 | and the second records exactly a maximum of 1 for both functions |
| CallRun.Traced | src/main.cpp:574-587 | the moments of its run, one by one |
| CallRun.RunToEnd | src/main.cpp:611-615 | it is accepted, patched, and run to the END of main, with the result of the function on top of the stack |
| TagHash.TextOfHash | src/runtime/runtime.c:220-257 | `de_hash` of the hash is the string without leading underscores |
| TagHash.HashOfText | src/runtime/runtime.c:244-257 | the hash of a decoded tag is the number it came from |
| TagHash.DeHash | src/runtime/runtime.c:244-257 | `de_hash` stays inside its six-byte buffer for numbers below 2^30 |
| TagHash.LtagHash | src/runtime/runtime.c:220-242 | a tag is refused exactly for a foreign character among its first five or a leading underscore; otherwise the hash is below 2^30, survives boxing and decodes to the first five characters |
| TagHash.SameHash | src/runtime/runtime.c:216-257 | two accepted tags hash equal exactly when their first five characters agree |
| TagHash.SameCode | src/runtime/runtime.c:216-257 | which tags have a code, and that two have the same code exactly when their first five characters agree |
| TagHash.UnderscoreLost | src/runtime/runtime.c:232-239 | without the check `_a` and `a` would hash equal |

## Left out

- Extra roots at the slots `top` and `bottom`: the word at `top` is never scanned, and the word at `bottom` (the first field of the interpreter's struct after the array) is rewritten with the stack but not marked (src/runtime/gc.c:226, 441); the model requires that no extra root is there and that the word at `bottom` is no heap pointer.
- References into objects: LDA of a captured variable pushes an address inside a closure (src/executing-visitor.h:91-95), which the collector takes for a pointer; local variable 0 is not zeroed by BEGIN (src/executing-visitor.h:272-274) and may hold a stale word. Words that programs hold are required to be boxed, content addresses of objects, or outside the heap.
- Runtime.Belem: element 0 of a closure, its code offset, has no value on the abstract machine (Stuck), because that word may look like a heap pointer to the collector.
- Runtime.VisitElem: likewise.
- Runtime.Bsta: neither element 0 of a closure nor a store through a reference, when the index is not an integer, is among the heap operations (Stuck); Interpreter.VisitSta has the latter.
- Runtime.VisitSta: likewise.
- Strings built by `Lstring`, comparison, printing, arithmetic: not operations of the heap model; in the interpreter model their results are arbitrary words.
- Builders.VisitClosure: the values captured by CLOSURE are operands that separate loads have pushed; in the interpreter model they are arbitrary words.
- `alloc` of more memory than fits in 32 bits: sizes are unbounded in the model and such a request is refused by mremap.
- Several mappings, munmap, signals, heap dumps, the debug and test entry points, the assembly-language environment.
- Closure calls (CALLC) in the interpreter: `in_closure` is one flag for all frames (src/executing-visitor.h:71), so returns are not balanced with them.
- Functions that are not public symbols: the depth table gives CALL the kind OTHER (src/diagnostic-visitor.h:137), so the second pass does not follow calls (src/main.cpp:516 is never taken); the first pass does.
- STOP, where `run_instruction` ends a path and the depth table goes on; StopExample shows what happens there.
- Interpreter.Interpret: claims that operands stay inside the array only for programs that are `Roomy`, which BoundedIsRoomy derives from a bound on all peaks. The verifier does not establish that bound: the recorded maximum is the peak of one path, since a jump to a visited target drops its tracker (src/main.cpp:527-536), and the values that LDA and CLOSURE push for a while are not in the depth table. A push below the array is reported as Overrun. A store through a reference to a foreign word is reported as BadStore, and nothing is said about what the source does after it.
- Interpreter.VisitSti: where the source stores into a word that is neither in the heap nor the current function's own, for instance into a variable of a caller, the model run ends in BadStore; what the run theorems promise ends there too, since such a store may hit saved base pointers and return addresses.
- Interpreter.VisitSta: likewise.
- Interpreter.StepBody: likewise, it goes on only after stores that are harmless.
- Runs.CallAndReturn: speaks of runs of the model, which such a store ends, and leaves open which of the words that are heap pointers collections have moved; OneStack says what a collection does to them.
- VerifiedRun.RunWithVerifierChecks: likewise.
- Effects.Harmless: the heap of the interpreter model is a set of words without contents; whether a store into the heap stays inside its object is not asked.
- DepthCheck.CheckPaths: asks for programs without a fall cycle. On a balanced program with one the source does not end (EndsExactly, CycleExample); on one that is not balanced it rejects if it ends (VerdictRight), and nothing is said about whether it does. Depths are unbounded, where the source has 32 bits: on a fall cycle that gains depth its sum overflows. An error message and undefined behaviour are not told apart; a read outside the code counts as not accepted.
- Verification.Verify: likewise.
- BeginPatch.PatchBegins: refuses a maximum recorded for a function that begins in the last four bytes of the code (`BeginPatch.Fits`); the source writes past `code_end` into the rest of its buffer there, and accepts.
- Interpreter.VisitOther: the values that CLOSURE reads for its captured variables are arbitrary, the reads themselves are left out. What ELEM, TAG, ARRAY, PATT, LENGTH and the allocating operations find in the heap is arbitrary too, and so is whether SEXP, TAG and =str fail for it; a division by zero and a product of more than 32 bits have an arbitrary result.
- OpcodeSteps.StepElem: what an element is is said for the heap operations (Laws.ArrayLaw, Runtime.Belem).
- The string table and `get_string`: strings are their offsets.
- The order of `unordered_map` in the loop that patches BEGIN: the model uses the order of the public symbols; the result does not depend on it when the patched words do not overlap.
- Execution.Execute: fifteen operations; arithmetic, local and captured variables, jumps and calls are not among them.
- Execution.RunAll: runs are lists of these operations without jumps.
- Runtime.VisitLd: globals only; the other kinds of variables are in the interpreter model, where the heap has no contents.
- Runtime.VisitSt: likewise.
- Interpreter.VisitLda: no captured variables, whose reference points into a closure.
- OneStack.CollectArray: asks that every word of the array be boxed, a content address or outside the heap, local variable 0 of each frame included, which BEGIN leaves as it was.
- Arguments of main: they are addressed in the global area, above main's frame; Frames.OwnFrame covers called functions.
