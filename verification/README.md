# A verified model of the Lua runtime and the network stack

This project models the two layers of the repository whose correctness rests on global
invariants, and proves those invariants and what they are for.

**The Lua 5.1 runtime** under `FTCommon/External/lua`:

* `Opcodes`, `CodeGen*`, `FuncState`: the one-pass code generator for short-circuit logic. A
  functional specification of the generator is proved to preserve the meaning of every
  expression; the class `FuncState`, which like the source keeps its jump lists threaded through
  the jump offsets of the instructions themselves, is proved to represent that specification.
* `Gc*`: the incremental tri-colour mark-and-sweep collector with its write barriers, as a state
  machine whose steps interleave freely with those of the program, and as a class that updates
  marks and lists in place. `GcMemory` compares it with a memory that is never collected.
* `TableSizes`, `TableHash`, `LuaTable`: tables with an array part and a hash part with Brent's
  variation, as a class that refines a finite map.
* `Pattern`, `PatternBest`, `MatchState`: the backtracking pattern matcher against a declarative
  meaning of patterns, and `PatternManual`: what the reference manual says of them, as lists of
  pieces and sets of characters.
* `Chunk`, `ChunkIO`: dumping and loading precompiled chunks through a writer that may fail and
  a reader that splits the bytes; `ChunkLoaded`, `ChunkImages`: which bytes are loaded, and as
  what.
* `Precedence`: the operator-precedence parser against its table and against the manual.
* `TableSort`, `Upvalues`, `Strings` (with `Lists`): the in-place quicksort, the open-upvalue
  list and ring, the table of interned strings.

**The network stack**:

* `StarNet`, `StarNetPools`, `StarNetClosing`: connections with their count of I/O in flight and
  their pools of I/O contexts, as a state machine over the steps of any number of worker threads;
  where contexts end up; and which connections can still be closed.
* `Reassembly`: framing, reassembly of packets in a fixed buffer, and the serializing streams.
* `CommandQueue`: the list and semaphore between the I/O threads and the logic thread.

`Common` holds what several modules share. `dafny verify dfyconfig.toml` checks everything.

## Where a promise of the source does not hold

* Reassembly: the branch of `OnData` for a chunk that does not fit copies the excess instead of
  the free space, so packets are limited to about half of what the buffer suggests.
  `Reassembly.FitsExactly` gives the exact bound, 513 bytes with the default sizes, and
  `Reassembly.Overrun` the input for which the code fails beyond it.
* Contexts that get lost: a peer stream accepts up to 65536 bytes, an output buffer holds 65500. A
  packet in between is not sent and its context is given back to nobody. `StarNetPools.LostIff`
  says exactly when, `LostExample` shows a run, `LostForever` that the pool can then never be
  destroyed.
* Contexts that go astray: a stream takes its buffer from the pool of `PeerServerSet`, but a send
  gives it back to the pool of the connection, which for a peer client is that of
  `PeerClientSet`. One such send and neither pool can ever be destroyed, although nothing is
  outstanding (`StarNetPools.StrayExample`, `StrayForever`). `RunExactIff` says exactly when the
  counters tell the truth, `GuardedHomeward` and `UnguardedStrays` what a caller has to check.
* Opening a connection: nothing is counted as in flight between `OnConnection` and the first
  receive. If the connection goes down in between, by a disconnect of the program or by a send
  that fails or finds too much in flight, a worker may close it before that receive is posted.
  `StarNet.StepInv` and `StarNet.RunInvIff` say exactly when the counts then break;
  `StarNet.PatientTimely` that they never do if the program waits for the first receive,
  `StarNet.ImpatientBreaks` that otherwise they can, and `StarNet.EarlySend` shows a run.
* Connections that are never closed: a failed accept, a connect whose socket option cannot be set,
  and a `DisconnectEx` that fails after `connected_` was cleared leave a connection that nobody
  closes. `StarNetClosing.StrandedIff` gives the exact steps, `ClosableIff` that every other
  connection can still be closed, `FailedDisconnect` and `FailedOpening` show runs.
* Dump and load: a nested function without a source gets its parent's.
  `Chunk.UndumpExact` says exactly when a function comes back unchanged.
* The comment above `ltable.c` speaks of at least half the slots in use; the code asks for more
  than half, and `TableSizes.ComputeSizes` follows the code.

## Model

| member | source | states |
|---|---|---|
| `CodeGenRuns.RunPatchList` | FTCommon/External/lua/lcode.c:151-160 | running code whose list of open jumps was patched is running the unpatched code and, where it left through a jump of the list, going on at the value target or at the default target, with the tested value stored in the target register exactly for jumps that produce a value |
| `CodeGenRuns.PatchDestination` | FTCommon/External/lua/lcode.c:80-91 | every jump handed to patchlistaux ends with the destination that was asked for: the value target if a TESTSET controls it, else the default target |
| `CodeGenRuns.PatchOthers` | FTCommon/External/lua/lcode.c:151-160 | patching a list changes no jump outside it |
| `CodeGenRuns.PatchOpen` | FTCommon/External/lua/lcode.c:163-182 | patching one list leaves every disjoint list open, with the same value jumps: several lists can share one instruction vector |
| `CodeGenRuns.PatchListConcat` | FTCommon/External/lua/lcode.c:185-196 | patching the concatenation of two lists is patching one after the other |
| `CodeGenRuns.RunRemoveValues` | FTCommon/External/lua/lcode.c:144-148 | removevalues changes nothing about where code goes; it only stops the jumps of the list from producing values |
| `CodeGenCorrect.Exp2RegOk` | FTCommon/External/lua/lcode.c:390-411 | if code for an expression yields a value, through whatever mix of register, relocatable instruction and true/false jump lists, then after exp2reg every path through the code ends with that value in the register and no other register below the free ones changed |
| `CodeGenCorrect.GoIfOk` | FTCommon/External/lua/lcode.c:539-591 | luaK_goiftrue and luaK_goiffalse turn code that yields a value into code that falls through exactly when the value has the wanted truth and leaves through the other list, carrying the value, when it has not |
| `CodeGenCorrect.CodeNotOk` | FTCommon/External/lua/lcode.c:594-626 | codenot turns code that yields a value into code that yields its negation, with the two jump lists exchanged and stripped of their values |
| `CodeGenCorrect.JoinOk` | FTCommon/External/lua/lcode.c:745-760 | the and/or case of luaK_posfix: code of the first operand that skips the second when the result is known, followed by the code of the second, yields the short-circuit result |
| `CodeGenCorrect.CompareOk` | FTCommon/External/lua/lcode.c:681-694 | codecomp on two operands in registers yields the truth of the comparison, after one comparison of the two values in evaluation order |
| `CodeGenCorrect.CompileOk` | FTCommon/External/lua/lcode.c:697-788 | for every expression built from locals, globals, not, and, or and the six comparisons, in every machine state, the code emitted so far yields Lua's value of the expression with Lua's trace of reads and comparisons |
| `CodeGenCorrect.LandedCorrect` | FTCommon/External/lua/lcode.c:390-433 | the same when the expression is finished into any register, with the code before it untouched |
| `CodeGenCorrect.AssignmentCorrect` | FTCommon/External/lua/lcode.c:472-500 | main theorem: running the code of `local := expression` under the documented opcode semantics leaves Lua's value of the expression in the local, evaluates operands in short-circuit order with the same trace, and changes no other live register; it does so in a frame of exactly the registers that the code reserved in maxstacksize, and in any larger one |
| `CodeGenCorrect.DeclarationCorrect` | FTCommon/External/lua/lcode.c:414-419 | the same for an expression landed in the next free register, in a frame of the registers reserved |
| `CodeGenShape.CompileShape` | FTCommon/External/lua/lcode.c:718-788 | structural invariant of every code-generator run: the lists of an expression are open, disjoint from each other and from the pending jumps, and lie in the code of that expression |
| `LuaFuncState.FuncState.FixJump` | FTCommon/External/lua/lcode.c:80-91 | stores the offset, and fails exactly when it does not fit the sBx field |
| `LuaFuncState.FuncState.GetLabel` | FTCommon/External/lua/lcode.c:94-97 | the end of the code is returned and recorded as the last place where jumps land |
| `LuaFuncState.FuncState.Concat` | FTCommon/External/lua/lcode.c:185-196 | luaK_concat on lists threaded through the sBx fields is exactly list append; no other instruction changes; an error means the result is longer than the sBx field reaches |
| `LuaFuncState.FuncState.PatchListAux` | FTCommon/External/lua/lcode.c:151-160 | the loop along a threaded list computes PatchList on the code it represents and keeps all other links; an error means the result is longer than the sBx field reaches |
| `LuaFuncState.FuncState.NeedValue` | FTCommon/External/lua/lcode.c:122-128 | the loop answers whether some jump of the threaded list does not produce a value |
| `LuaFuncState.FuncState.RemoveValues` | FTCommon/External/lua/lcode.c:144-148 | the loop computes RemoveValues on the code it represents |
| `LuaFuncState.FuncState.Code` | FTCommon/External/lua/lcode.c:797-809 | luaK_code: pending jumps land on the new instruction; an error means the result is longer than the sBx field reaches |
| `LuaFuncState.FuncState.Jump` | FTCommon/External/lua/lcode.c:59-66 | luaK_jump: the new jump and the pending ones form one threaded list; an error means the result is longer than the sBx field reaches |
| `LuaFuncState.FuncState.PatchToHere` | FTCommon/External/lua/lcode.c:179-182 | the list joins the pending jumps; an error means the result is longer than the sBx field reaches |
| `LuaFuncState.FuncState.Exp2Reg` | FTCommon/External/lua/lcode.c:390-411 | the in-place form computes the specification's exp2reg on the represented state; an error means the result is longer than the sBx field reaches |
| `LuaFuncState.FuncState.GoIfTrue` | FTCommon/External/lua/lcode.c:539-564 | the in-place form computes the specification's branch; an error means the specification's result is over the limit that the message names |
| `LuaFuncState.FuncState.GoIfFalse` | FTCommon/External/lua/lcode.c:567-591 | the in-place form computes the specification's branch; an error means the specification's result is over the limit that the message names |
| `LuaFuncState.FuncState.CodeNot` | FTCommon/External/lua/lcode.c:594-626 | the in-place form computes the specification's negation; an error means the specification's result is over the limit that the message names |
| `LuaFuncState.FuncState.CodeComp` | FTCommon/External/lua/lcode.c:681-694 | the in-place form computes the specification's comparison, operands exchanged for > and >=; an error means the specification's result is over the limit that the message names |
| `LuaFuncState.FuncState.Expression` | FTCommon/External/lua/lcode.c:697-788 | the whole in-place generator, driven as the parser drives it, represents Compile; an error means the specification's result is over the limit that the message names |
| `CodeGenLimits.CompileGrows` | FTCommon/External/lua/lcode.c:697-788 | code and registers only grow while an expression is compiled, by at most 14 instructions for each node and to at most depth registers above the free one |
| `CodeGenLimits.StoreGrows` | FTCommon/External/lua/lcode.c:472-500 | the same for a whole assignment to a local |
| `LuaFuncState.RunRep` | FTCommon/External/lua/lopcodes.h:96-101 | a run that meets no open jump cannot see the links kept in the open jumps |
| `LuaFuncState.FuncState.AssignLocal` | FTCommon/External/lua/lcode.c:472-500 | main theorem on the in-place form: unless a limit is exceeded, the instructions really in the vector compute the expression into the local in every world and from every machine state; an error means that the whole assignment needs 250 registers or more, or more code than jumps can span, and expressions whose depth and size fit always succeed; the frame needs no more registers than the field maxstacksize says |
| `GcMark.MarkColours` | FTCommon/External/lua/lgc.c:69-112 | marking an object colours whites only; whatever it colours is well coloured (black with nothing white below, or gray and waiting), and the gray list stays free of repetition |
| `GcState.PropagateOk` | FTCommon/External/lua/lgc.c:277-320 | propagatemark keeps the tri-colour invariant, for threads, which stay gray, and for all other objects |
| `GcState.PropagateCounts` | FTCommon/External/lua/lgc.c:277-327 | each propagation step lowers the pair (white objects, length of the gray list) |
| `GcState.AtomicMarks` | FTCommon/External/lua/lgc.c:515-553 | after atomic every coloured object has only coloured objects below it, whatever the program did to stacks, open upvalues and barriered tables before |
| `GcRuns.SingleStepInv` | FTCommon/External/lua/lgc.c:556-607 | every step of the collector, in every phase, keeps lists, colours and safety |
| `GcMutator.StoreInv` | FTCommon/External/lua/lgc.h:86-97 | a store followed by its barrier keeps the invariant, forward for most objects and backward for tables, while marking and while sweeping |
| `GcMutator.LinkInv` | FTCommon/External/lua/lgc.c:686-692 | a new object linked in front of rootgc, in any phase and at any position of the sweep, keeps the invariant |
| `GcMutator.LinkUserdataInv` | FTCommon/External/lua/lstring.c:96-110 | so does userdata linked after the main thread |
| `GcMutator.ResurrectInv` | FTCommon/External/lua/lstring.c:82-91 | a dead string that is found again becomes alive without breaking the invariant |
| `GcMutator.ClosePropagateInv` | FTCommon/External/lua/lgc.c:695-710 | closing a gray upvalue while marking blackens it and marks its value |
| `GcMutator.CloseSweepInv` | FTCommon/External/lua/lgc.c:695-710 | closing an upvalue during a sweep leaves it white, although it moves in front of the sweep |
| `GcMutator.CloseDeadInv` | FTCommon/External/lua/lfunc.c:96-112 | a dead open upvalue may be freed |
| `GcMutator.ResizeInv` | FTCommon/External/lua/lstring.c:22-47 | moving strings between buckets is harmless outside the string sweep |
| `GcMutator.FixInv` | FTCommon/External/lua/lstring.h:24 | luaS_fix on a live string keeps the invariant |
| `GcSafety.ApplyInv` | FTCommon/External/lua/lgc.c:556-710 | every action of collector or program keeps the invariant |
| `GcSafety.RunsAreSafe` | FTCommon/External/lua/lgc.c:525-607 | main theorem: in every state of every run, under every interleaving of collector steps, allocations, barriered writes and stack writes, a reachable object exists and is not dead |
| `GcSafety.NoBlackToWhite` | FTCommon/External/lua/lgc.c:277-327 | while propagating no black object refers to a white one, in any run |
| `GcSafety.OnlyGarbageFreed` | FTCommon/External/lua/lgc.c:407-428 | whatever a step of a run frees was unreachable before it |
| `GcSafety.BarrierAsserts` | FTCommon/External/lua/lgc.c:662-683 | the assertions at the head of luaC_barrierf, luaC_barrierback and luaF_close hold in every run |
| `GcSafety.StepWorks` | FTCommon/External/lua/lgc.c:556-607 | collector steps alone: every step outside the pause reaches a later phase or leaves less to do, which is why luaC_fullgc ends |
| `GcProgress.PotentialLowers` | FTCommon/External/lua/lgc.c:556-710 | within a phase a collector step uses up one unit of potential (white and gray objects while marking, what is left to visit while sweeping), an allocation adds at most one, and barriers, closing of upvalues and all other program steps add none |
| `GcProgress.PhaseEnds` | FTCommon/External/lua/lgc.c:556-607 | in every run, under every interleaving, the collector takes in one phase at most as many steps as it had potential at the start, plus the objects allocated meanwhile, plus one: every mark phase and every sweep ends |
| `GcProgress.ProgramKeepsPhase` | FTCommon/External/lua/lgc.c:662-710 | only the collector moves to another phase |
| `GcSafety.CycleComplete` | FTCommon/External/lua/lgc.c:500-607 | what survives a whole cycle is fixed or reachable |
| `GcSafety.FullCollectExact` | FTCommon/External/lua/lgc.c:636-659 | main theorem: a full collection, started in any state of the collector, keeps exactly the reachable and the fixed objects |
| `GcMemory.StoreSeen` | FTCommon/External/lua/lapi.c:677-678 | after a store the object refers to exactly what was stored and no other object changed its references, whichever barrier ran |
| `GcMemory.CloseSeen` | FTCommon/External/lua/lfunc.c:96-112 | closing frees a dead upvalue and keeps the value of any other |
| `GcMemory.ApplySeen` | FTCommon/External/lua/lgc.c:556-710 | each action of the program does to objects, references and roots exactly what it would do without a collector; only collector steps and the closing of dead upvalues remove objects, and they change no other |
| `GcMemory.ApplyHomes` | FTCommon/External/lua/lgc.c:686-710 | new objects are linked where their kind calls for, a closed upvalue goes to rootgc, and nothing else moves but strings in a resize |
| `GcMemory.ReachableSeen` | FTCommon/External/lua/lgc.c:277-327 | what can be reached does not depend on what has been freed |
| `GcMemory.Transparent` | FTCommon/External/lua/lgc.c:525-607 | main theorem: in every state of every run the program reaches the same objects, with the same references, as after the same actions in a memory in which nothing is ever collected |
| `GcCollector.Collector.MarkObject` | FTCommon/External/lua/lgc.c:55-112 | the in-place, recursive form computes Mark |
| `GcCollector.Collector.PropagateMark` | FTCommon/External/lua/lgc.c:277-320 | the in-place form, with a loop over the references, computes the specification's step |
| `GcCollector.Collector.PropagateAll` | FTCommon/External/lua/lgc.c:323-327 | the loop ends and computes the specification's function |
| `GcCollector.Collector.RemarkUpvals` | FTCommon/External/lua/lgc.c:515-522 | the loop over the ring of open upvalues computes the specification's function |
| `GcCollector.Collector.Atomic` | FTCommon/External/lua/lgc.c:525-553 | the in-place form computes the specification's atomic step |
| `GcCollector.Collector.SweepWholeList` | FTCommon/External/lua/lgc.c:404-428 | the loop frees exactly the dead of a list and whitens the others |
| `GcCollector.Collector.SweepList` | FTCommon/External/lua/lgc.c:407-428 | the loop over rootgc with a budget computes the specification's function |
| `GcCollector.Collector.SingleStep` | FTCommon/External/lua/lgc.c:556-607 | the in-place form computes SingleStep and keeps the invariant |
| `GcCollector.Collector.FullGc` | FTCommon/External/lua/lgc.c:636-659 | the in-place form leaves exactly the reachable and the fixed objects |
| `GcCollector.Collector.Store` | FTCommon/External/lua/lgc.h:86-97 | the in-place store with its barrier keeps the invariant whenever the program may perform it, gives the object exactly the references asked for, and changes those of no other object |
| `GcCollector.Collector.CloseUpval` | FTCommon/External/lua/lfunc.c:96-112 | the in-place form computes the specification's function and keeps the invariant; a dead upvalue is freed, any other keeps its value and leaves its thread |
| `TableSizes.Log2` | FTCommon/External/lua/lobject.c:54-69 | 2^l <= x < 2^(l+1), and -1 for 0 |
| `TableSizes.CeilLog2` | FTCommon/External/lua/lobject.h:367 | the least l with x <= 2^l |
| `TableSizes.ComputeSizes` | FTCommon/External/lua/ltable.c:189-208 | the result is the largest power of two n with more than n/2 of the slots 1..n in use, or 0; the number returned is how many keys go there, which also proves the assertion in the code; the counting array is never read out of bounds |
| `TableHash.PutMainInv` | FTCommon/External/lua/ltable.c:399-429 | a key put into its main position, free or held by a key without value, keeps chains, Brent's invariant and uniqueness |
| `TableHash.PutAfterInv` | FTCommon/External/lua/ltable.c:418-423 | so does a key chained after the rightful holder |
| `TableHash.PutMovingInv` | FTCommon/External/lua/ltable.c:409-417 | so does moving a colliding node to a free position and relinking its chain |
| `TableHash.PutMovingValues` | FTCommon/External/lua/ltable.c:409-417 | no other key changes its value when a node moves |
| `TableHash.OnePrevious` | FTCommon/External/lua/ltable.c:411-413 | a node has one predecessor, so the search for it finds the right one |
| `LuaTable.Table.New` | FTCommon/External/lua/ltable.c:358-371 | a new table is empty with the sizes asked for; table overflow exactly above 2^26 nodes, the hash part being the least power of two that is large enough |
| `LuaTable.Table.Search` | FTCommon/External/lua/ltable.c:469-491 | the walk along the chain of the main position finds the key if any node holds it, and ends |
| `LuaTable.Table.Get` | FTCommon/External/lua/ltable.c:435-491 | returns what the finite map that the two parts represent holds |
| `LuaTable.Table.GetFreePos` | FTCommon/External/lua/ltable.c:382-388 | returns a free node if there is one |
| `LuaTable.Table.FindPrevious` | FTCommon/External/lua/ltable.c:411-413 | the loop ends at the predecessor |
| `LuaTable.Table.Place` | FTCommon/External/lua/ltable.c:399-429 | a new key gets a node without a value and no entry changes; it finds none exactly if its main position is taken and no node is free |
| `LuaTable.Table.NewKey` | FTCommon/External/lua/ltable.c:399-429 | the key gets a place; with room there is no rehash, and the termination proof shows that the insertion after a rehash never needs another one; overflow exactly if there is no place and, with the best array part, the rest needs more than 2^26 nodes |
| `LuaTable.Table.SetSlot` | FTCommon/External/lua/ltable.c:494-505 | luaH_set returns the place of the key without changing any entry; nil is refused; the same exact condition for overflow |
| `LuaTable.Table.Put` | FTCommon/External/lua/ltable.c:494-529 | storing makes the key read back that value and changes no other key, across collisions, moved nodes and resizing; it fails exactly for nil and on overflow, after which the hash part is as it was, the array part is filled up with nil to the best size, and the map is the old one without the integer keys in that added range; the sizes of both parts change exactly if no place was left, and then to the best ones |
| `LuaTable.Table.SetNodeVector` | FTCommon/External/lua/ltable.c:272-294 | fails exactly when more than 2^26 nodes would be needed, and else makes the least power of two that is large enough |
| `LuaTable.Table.Resize` | FTCommon/External/lua/ltable.c:297-324 | every entry survives any resize that has room for it, and the hash part holds only entries that have no place in the array part; the hash part gets the least size that is large enough |
| `LuaTable.Table.NumUseArray` | FTCommon/External/lua/ltable.c:222-244 | counts the array part slice by slice |
| `LuaTable.Table.NumUseHash` | FTCommon/External/lua/ltable.c:247-260 | adds the hash part |
| `LuaTable.Table.Rehash` | FTCommon/External/lua/ltable.c:333-349 | all entries survive and the pending key has room afterwards; fails exactly if the best array part leaves more than 2^26 keys for the hash part; afterwards the array part has the best size for all keys and the hash part the least size for the rest |
| `LuaTable.SizesFit` | FTCommon/External/lua/ltable.c:333-349 | the computed hash size suffices, with one place to spare if the pending key is not going to the array part |
| `LuaTable.HashNeeds` | FTCommon/External/lua/ltable.c:333-349 | the best array size is unique, so the number of keys beyond it decides on overflow |
| `LuaTable.FewFit` | FTCommon/External/lua/ltable.c:272-283 | up to 2^26 entries never overflow |
| `LuaTable.Table.ResizeArray` | FTCommon/External/lua/ltable.c:327-330 | keeps every entry if those that leave the array part have room in the hash part |
| `LuaTable.Table.GrowingFits` | FTCommon/External/lua/ltable.c:327-330 | which is so whenever the array part grows |
| `LuaTable.Table.Next` | FTCommon/External/lua/ltable.c:137-179 | the first entry after the given key, in the order of the parts; an unknown key is refused exactly |
| `LuaTable.Table.Traverse` | FTCommon/External/lua/ltable.c:137-179 | a traversal from nil meets every entry exactly once and stops |
| `LuaTable.Table.UnboundSearch` | FTCommon/External/lua/ltable.c:532-553 | ends at a boundary, also through the linear search after an overflow |
| `LuaTable.Table.GetN` | FTCommon/External/lua/ltable.c:560-576 | n = 0 or t[n] is not nil, and t[n+1] is nil |
| `PatternBest.FirstBest` | FTCommon/External/lua/lstrlib.c:365-440 | main theorem: for every well-formed pattern and subject the backtracking search ends without error, and returns the match whose repetition counts come first in priority order, or NULL if no counts lead to a match |
| `PatternBest.BetterOneWay` | FTCommon/External/lua/lstrlib.c:301-326 | the priority order is strict, so the best match is unique |
| `PatternBest.RunIff` | FTCommon/External/lua/lstrlib.c:301-306 | n characters match the class exactly if n is at most the maximal run |
| `PatternBest.DownwardBest` | FTCommon/External/lua/lstrlib.c:301-313 | max_expand: of all counts it returns the best, longest first |
| `PatternBest.UpwardBest` | FTCommon/External/lua/lstrlib.c:316-326 | min_expand: of all counts it returns the best, shortest first |
| `LuaMatch.MatchState.EndOfClass` | FTCommon/External/lua/lstrlib.c:202-223 | the loop finds the end of a class as the grammar of sets says, or reports a malformed pattern |
| `LuaMatch.MatchState.MatchBracketClass` | FTCommon/External/lua/lstrlib.c:245-265 | the loop decides membership in a set: some element holds the character, or none if negated |
| `LuaMatch.MatchState.MatchSingle` | FTCommon/External/lua/lstrlib.c:268-275 | decides whether a character matches a single-character class |
| `LuaMatch.MatchState.MatchBalance` | FTCommon/External/lua/lstrlib.c:281-298 | returns the first place where the nesting is closed, or NULL if there is none; raises exactly for a truncated %b |
| `LuaMatch.MatchState.MaxExpand` | FTCommon/External/lua/lstrlib.c:301-313 | agrees with the search from the maximal count down; on NULL level and captures are as at entry |
| `LuaMatch.MatchState.MinExpand` | FTCommon/External/lua/lstrlib.c:316-326 | agrees with the search from no repetition up; on NULL level and captures are as at entry |
| `LuaMatch.MatchState.StartCapture` | FTCommon/External/lua/lstrlib.c:329-340 | opens a capture and undoes it on NULL |
| `LuaMatch.MatchState.EndCapture` | FTCommon/External/lua/lstrlib.c:343-351 | closes the last open capture and reopens it on NULL |
| `LuaMatch.MatchState.CaptureToClose` | FTCommon/External/lua/lstrlib.c:194-199 | finds the last open capture |
| `LuaMatch.MatchState.MatchCapture` | FTCommon/External/lua/lstrlib.c:354-362 | compares with the text of a closed capture; a position capture never matches |
| `LuaMatch.MatchState.Match` | FTCommon/External/lua/lstrlib.c:365-440 | the in-place matcher agrees with the search on every pattern, errors included; on NULL level and all captures below it are as at entry |
| `LuaMatch.MatchState.FindFrom` | FTCommon/External/lua/lstrlib.c:512-532 | returns the leftmost start with a match; every earlier start gives NULL |
| `PatternManual.ClassIs` | FTCommon/External/lua/lstrlib.c:226-242 | %a to %z and their complements are the character sets of section 5.4.1 of the manual, written out as lists |
| `PatternManual.SetIs` | FTCommon/External/lua/lstrlib.c:202-275 | the text of a set is read to its end and matches exactly the characters that its elements cover, or with ^ exactly the others |
| `PatternManual.BalancedIs` | FTCommon/External/lua/lstrlib.c:281-298 | %bxy ends at the first place where as many x as y have been met |
| `PatternManual.PlayReference` | FTCommon/External/lua/lstrlib.c:354-362 | in any pattern, an item %n takes a match from s to t exactly if capture n is closed, has a text, and the same characters stand between s and t |
| `PatternManual.TakeIs` | FTCommon/External/lua/lstrlib.c:365-440 | one item of the matcher does what the manual says of the piece of pattern whose text it was read from: sets with their suffixes, captures, %b, %f, %n and $ |
| `PatternManual.PlayIs` | FTCommon/External/lua/lstrlib.c:365-440 | the text of a list of pieces is read as these pieces, and a match of the text is a match of the pieces |
| `PatternManual.BetterIs` | FTCommon/External/lua/lstrlib.c:301-326 | the order of preference is the manual's: of two matches the one that takes more at the first piece where they differ, after a - the one that takes less |
| `PatternManual.ManualBest` | FTCommon/External/lua/lstrlib.c:365-440 | main theorem: on the text of every pattern that the manual allows the search ends without error and finds the match that the manual describes, or NULL exactly if there is none |
| `PatternManual.SetEndExact` | FTCommon/External/lua/lstrlib.c:212-220 | in every pattern a set ends at its first ] that no % takes away |
| `PatternManual.MalformedIff` | FTCommon/External/lua/lstrlib.c:202-223 | the exact malformed items: a % at the end, a set that is not closed, a %b without two characters, a %f without a set |
| `Chunk.UndumpDump` | FTCommon/External/lua/ldump.c:129-164 | loading a dump gives back the function with sources inherited, or stripped of its debug information, and leaves what follows unread |
| `Chunk.UndumpExact` | FTCommon/External/lua/lundump.c:161-209 | without stripping the function itself comes back exactly if no function in the tree lacks a source |
| `Chunk.FunctionRoundTrip` | FTCommon/External/lua/lundump.c:161-181 | the same for one function in any context |
| `Chunk.ReloadedIs` | FTCommon/External/lua/lundump.c:167 | a function without a source gets that of its parent |
| `ChunkLoaded.Loaded` | FTCommon/External/lua/lundump.c:160-194 | for all bytes: what is loaded begins with the header, every function in it passed the check, no nesting is too deep, and what is left is the unread end |
| `ChunkLoaded.LoadedAgain` | FTCommon/External/lua/lundump.c:200-213 | whatever was loaded, from whatever bytes, is loaded again unchanged from its own dump |
| `ChunkLoaded.SampleBytes` | FTCommon/External/lua/ldump.c:45-163 | the chunk of a function with a different value in every field, written out to the last byte |
| `ChunkImages.UndumpIff` | FTCommon/External/lua/lundump.c:60-213 | main theorem, for all bytes: a function is loaded exactly if the bytes are the header, an image of it in the format, and the rest, every function of it passes the check and no nesting is too deep; every other input is an error |
| `ChunkIO.Zio.Read` | FTCommon/External/lua/lzio.c:58-71 | delivers the next n bytes of the whole input however it is cut into blocks, or the exact number of missing bytes |
| `ChunkIO.Zio.Lookahead` | FTCommon/External/lua/lzio.c:35-45 | does not consume anything and tells whether there is more |
| `ChunkIO.LoadState.Function` | FTCommon/External/lua/lundump.c:161-181 | the in-place, recursive loader computes LoadFunction on the bytes, errors and depth limit included |
| `ChunkIO.LoadState.Constants` | FTCommon/External/lua/lundump.c:100-129 | the loop computes the list of constants |
| `ChunkIO.LoadState.DebugInfo` | FTCommon/External/lua/lundump.c:137-159 | the loops compute the debug information |
| `ChunkIO.LoadState.Chunk` | FTCommon/External/lua/lundump.c:195-209 | luaU_undump computes Undump |
| `ChunkIO.DumpState.Function` | FTCommon/External/lua/ldump.c:129-141 | writes DumpFunction; after a failing writer nothing more is written; a writer with enough room does not fail |
| `ChunkIO.DumpState.Constants` | FTCommon/External/lua/ldump.c:80-109 | the loops write the constants; a writer with enough room does not fail |
| `ChunkIO.DumpState.DebugInfo` | FTCommon/External/lua/ldump.c:111-127 | the loops write the debug information, or three zeros when stripping; a writer with enough room does not fail |
| `ChunkIO.DumpState.Chunk` | FTCommon/External/lua/ldump.c:153-164 | writes Dump, or a prefix of it if the writer fails; a writer with enough room does not fail |
| `ChunkIO.SaveAndLoad` | FTCommon/External/lua/lundump.c:195-209 | end to end, for every function, stripped or not: if the writer took everything, loading through any reader that splits the bytes into non-empty blocks gives the reloaded function, which is the function itself if no source is missing; every writer with room for the chunk takes everything |
| `Precedence.ParseGood` | FTCommon/External/lua/lparser.c:828-853 | what subexpr returns yields the consumed tokens, respects both priority tables, and stops before an operator that is not above the limit |
| `Precedence.Consumes` | FTCommon/External/lua/lparser.c:828-853 | conversely every tree that respects the priorities is rebuilt from its tokens |
| `Precedence.ParseIff` | FTCommon/External/lua/lparser.c:828-853 | main theorem: subexpr returns a tree exactly if it is a reading of the tokens under the limit and nested no deeper than allowed |
| `Precedence.ParseDepth` | FTCommon/External/lua/lparser.c:828-853 | what is parsed is nested no deeper than the calls that are left |
| `Precedence.UniqueTree` | FTCommon/External/lua/lparser.c:810-821 | no two trees that respect the priorities have the same tokens |
| `Precedence.TableIsManual` | FTCommon/External/lua/lparser.c:810-821 | respecting the priority table is grouping by the levels of section 2.5.6 of the manual: or, and, comparisons, .., additive, multiplicative, unary, ^; left to right but for .. and ^ |
| `Precedence.ManualParse` | FTCommon/External/lua/lparser.c:828-853 | main theorem: an expression is read exactly as the manual groups it |
| `Precedence.YieldSpells` | FTCommon/External/lua/lparser.c:778-806 | the tokens of a tree spell its operators |
| `Precedence.EdgeHolds` | FTCommon/External/lua/lparser.c:810-821 | because left and right priorities differ by at most one, an operator that stops at a limit cannot reach into what was read under it |
| `Precedence.LexState.Operand` | FTCommon/External/lua/lparser.c:832-838 | the operand part of subexpr, as the specification says |
| `Precedence.LexState.SubExpr` | FTCommon/External/lua/lparser.c:828-853 | the in-place form computes Parse; the operator it returns is the next one and not above the limit, or none |
| `StarNet.StepInv` | FTClient/Src/StarNet/worker.cpp:83-192 | every step of workers and program, over any number of pools, with receives taken by one thread while others act and the completion of an accept or connect cut in two at OnConnection, keeps the counts, the flag and the whereabouts of contexts, exactly unless it posts the first receive, successfully, on a connection that is not up any more |
| `StarNet.SendOk` | FTClient/Src/StarNet/connection.cpp:69-102 | AsyncSend counts the send or pushes the context to the pool of the connection, on every path |
| `StarNet.SendPosted` | FTClient/Src/StarNet/connection.cpp:69-102 | a send is in flight afterwards exactly if no more than iorefmax_ were and the socket does not refuse; otherwise the connection goes down and the context is in a pool |
| `StarNet.RecvOk` | FTClient/Src/StarNet/connection.cpp:104-128 | AsyncRecv counts the receive or pushes the context to the pool of the connection, from which it came |
| `StarNet.Reposted` | FTClient/Src/StarNet/worker.cpp:167-185 | a receive that is posted again is counted before the old one is counted off, so the count does not touch zero in between |
| `StarNet.DisconnectOk` | FTClient/Src/StarNet/connection.cpp:41-67 | AsyncDisconnect posts at most one request per episode |
| `StarNet.RunConnections` | FTClient/Src/StarNet/connection.cpp:41-128 | in every state of every run whose first receives are timely, iorefs_ is the number of operations in flight, connected_ plus queued disconnects is at most 1, OnDisconnect ran at most once and no Close was refused |
| `StarNet.RunDisconnect` | FTClient/Src/StarNet/worker.cpp:153-165 | in such a run OnDisconnect runs exactly when the count is zero, with the connection down and nothing in flight, and the Close that follows succeeds |
| `StarNet.RunInvIff` | FTClient/Src/StarNet/worker.cpp:83-192 | the invariant holds in all states of a run exactly if every first receive in it is timely |
| `StarNet.PatientTimely` | FTClient/Src/StarNet/worker.cpp:96-142 | if the program neither sends nor disconnects between OnConnection and the first receive, every run is timely, whatever sockets and workers do |
| `StarNet.ImpatientBreaks` | FTClient/Src/StarNet/worker.cpp:96-142 | conversely, from every state in which a program sends (a packet that fits) or disconnects earlier, sockets and workers can go on so that a receive is in flight on a connection that was closed |
| `StarNet.EarlySend` | FTClient/Src/StarNet/worker.cpp:117-142 | such a run without any disconnect by the program: a send from OnConnection that fails |
| `StarNetPools.RunContexts` | FTClient/Src/StarNet/context_pool.cpp:18-97 | in every state of every timely run, for each pool: the counter, plus contexts of other pools that are here, minus its own that are elsewhere, is what is free, held, lost and in flight; the condition Destroy waits for means that as many are outstanding as came from elsewhere without going; input contexts never change pools, so for them it means that none is outstanding |
| `StarNetPools.StrayIff` | FTClient/Src/StarNet/worker.cpp:187-192 | while all contexts are where they belong, a step leads one astray exactly if a send gives it back (on completion, refusal or failure) on a connection of another pool than the one that allocated it |
| `StarNetPools.RunExactIff` | FTClient/Src/StarNet/context_pool.cpp:30-33 | the counters are exact in all states of a run exactly if every context that a send gave back went to the pool that had allocated it |
| `StarNetPools.HomewardWait` | FTClient/Src/StarNet/context_pool.cpp:30-33 | in such a run the condition Destroy waits for means exactly that none is outstanding |
| `StarNetPools.GuardedHomeward` | FTClient/Src/StarNet/peer_server.cpp:212-225 | a program that sends only on connections of the pool that allocated the buffer keeps all counters exact, whatever sockets and workers do |
| `StarNetPools.UnguardedStrays` | FTClient/Src/StarNet/connection.cpp:69-102 | a send without that check leads its context astray, at once or when it completes |
| `StarNetPools.StrayForever` | FTClient/Src/StarNet/peer_client.cpp:76-82 | with streams as the peer protocol makes them, after one send to a peer client was given back neither the pool of PeerServerSet nor that of the connection ever meets the condition of Destroy again |
| `StarNetPools.StrayExample` | FTClient/Src/StarNet/peer_client.cpp:76-82 | such a run: one small packet, completed, nothing outstanding, one pool with a context too few and one with a context too many |
| `StarNetPools.LostIff` | FTClient/Src/StarNet/connection.cpp:130-148 | a send leaves its context without an owner exactly if head and data exceed the output buffer |
| `StarNetPools.LostForever` | FTClient/Src/StarNet/context_pool.cpp:30-33 | after that the pool of PeerServerSet never meets the condition of Destroy |
| `StarNetPools.LostExample` | FTClient/Src/StarNet/connection.cpp:130-148 | a run in which a packet that the peer stream accepts loses its context |
| `StarNetPools.ContextPool.PopContext` | FTClient/Src/StarNet/context_pool.cpp:43-87 | hands out a context nobody else has, new or recycled, or none if memory is short |
| `StarNetPools.ContextPool.PushContext` | FTClient/Src/StarNet/context_pool.cpp:89-97 | takes a context of this pool or of another one |
| `StarNetPools.ContextPool.Destroy` | FTClient/Src/StarNet/context_pool.cpp:18-41 | goes ahead exactly if as many contexts are out as came from elsewhere without going, which without strays means none, and frees what is in the list once each |
| `StarNetClosing.StrandedIff` | FTClient/Src/StarNet/connection.cpp:41-67 | a stranded connection stays so, and a step strands another one exactly if it is a failed accept, a connect whose socket option cannot be set, or any call of AsyncDisconnect that takes the flag down and whose request then fails |
| `StarNetClosing.ClosableIff` | FTClient/Src/StarNet/worker.cpp:153-165 | from every reachable state a connection can still be closed exactly if it is not stranded |
| `StarNetClosing.CanClose` | FTClient/Src/StarNet/worker.cpp:153-165 | the steps that do so: the disconnect is posted again while everything in flight completes, then OnDisconnect runs and Close succeeds |
| `StarNetClosing.FailedDisconnect` | FTClient/Src/StarNet/connection.cpp:45-57 | a run without a failed accept that strands a connection: DisconnectEx fails after the flag was cleared |
| `StarNetClosing.FailedOpening` | FTClient/Src/StarNet/worker.cpp:83-151 | the runs for a failed accept and for a failed socket option |
| `Reassembly.FitsExactly` | EasyNet/EasyMidware/easy_basesession.cpp:48-65 | the arithmetic: the copy of OnData stays within the buffer for every leftover and chunk exactly if 2(P-1)+C <= 2S |
| `Reassembly.Overrun` | EasyNet/EasyMidware/easy_basesession.cpp:58-65 | the bound is needed: whenever it does not hold, packets within the limit and chunks within the limit bring a session, by calls of OnData that are all in bounds, into a state in which the next chunk is copied beyond the buffer |
| `Reassembly.DefaultBound` | EasyNet/EasyMidware/easy_basesession.cpp:51-65 | with the default sizes that is packets of at most 513 bytes |
| `Reassembly.Session.TakePackets` | EasyNet/EasyMidware/easy_basesession.cpp:67-89 | takes exactly the complete packets, in order, and leaves less than one |
| `Reassembly.Session.OnData` | EasyNet/EasyMidware/easy_basesession.cpp:43-91 | in bounds, ends, loses no byte; exactly the complete packets of the concatenated stream have been dispatched however it was split |
| `Reassembly.OutputStream.Serialize` | EasyNet/EasyMidware/easy_stream.h:120-147 | appends a value if it fits, else changes nothing |
| `Reassembly.InputStream.Serialize` | EasyNet/EasyMidware/easy_stream.h:172-199 | reads the next value if there is one |
| `Reassembly.SendData` | EasyNet/EasyMidware/easy_basesession.cpp:105-116 | the frame of the serialized values |
| `Reassembly.FrameSample` | EasyNet/EasyMidware/easy_packet.h:10-17 | the bytes of one packet on the wire |
| `Reassembly.Transmit` | EasyNet/EasyMidware/easy_basesession.cpp:43-116 | end to end, for all sizes that fit: messages serialized and sent by SendData are read back by the receiver, in order, however the bytes are cut; sending fails exactly for a message larger than the stream |
| `Reassembly.Receive` | EasyNet/EasyMidware/easy_basesession.cpp:43-91 | a session that is given the bytes in any cut dispatches exactly the packets sent |
| `CommandQueue.RunSafe` | EasyNet/EasyMidware/easy_baseloop.cpp:88-157 | in every run list length = semaphore + pushes not yet released + a woken consumer, the problem branch is not reached, and handled commands are a prefix of the pushes |
| `CommandQueue.PushedIs` | EasyNet/EasyMidware/easy_baseloop.cpp:88-100 | the history that handled commands are compared with is the commands of the pushes of the run, in order |
| `CommandQueue.RunProgress` | EasyNet/EasyMidware/easy_baseloop.cpp:122-157 | when no push is under way the semaphore is zero exactly if everything has been handled |
| `TableSort.ScanUp` | FTCommon/External/lua/ltablib.c:225-229 | stops at the pivot at the latest; the error is not raised |
| `TableSort.ScanDown` | FTCommon/External/lua/ltablib.c:230-234 | stops at the lower end at the latest; the error is not raised |
| `TableSort.Partition` | FTCommon/External/lua/ltablib.c:218-243 | nothing left of the returned place is above the pivot, nothing right of it below |
| `TableSort.AuxSort` | FTCommon/External/lua/ltablib.c:193-254 | for every strict weak order: a sorted permutation in place, neither error raised, recursion depth d with 2^d at most the number of elements |
| `TableSort.Sort` | FTCommon/External/lua/ltablib.c:256-264 | the whole table |
| `Upvalues.RingInsert` | FTCommon/External/lua/lfunc.c:73-77 | linking behind the head keeps the ring consistent in both directions |
| `Upvalues.RingRemove` | FTCommon/External/lua/lfunc.c:82-86 | unlinking keeps it consistent, and the assertion before it holds |
| `Upvalues.OnePerSlot` | FTCommon/External/lua/lfunc.c:58-66 | one open upvalue per slot |
| `Upvalues.Thread.FindUpval` | FTCommon/External/lua/lfunc.c:53-79 | returns the upvalue of the slot if there is one, else a new one at its sorted place; either is not dead afterwards; all others stay |
| `Upvalues.Thread.Close` | FTCommon/External/lua/lfunc.c:96-112 | closes exactly the upvalues at or above the level, in the same objects and with the same values, frees the dead ones, and leaves the rest alone |
| `Upvalues.Thread.ReallocStack` | FTCommon/External/lua/ldo.c:126-149 | after the stack moved every open upvalue refers to the same slot with the same value |
| `Strings.StringTable.Find` | FTCommon/External/lua/lstring.c:82-91 | finds a string with these characters exactly if there is one anywhere |
| `Strings.StringTable.Resize` | FTCommon/External/lua/lstring.c:22-47 | outside a sweep every string is in the bucket of the new size; none is lost or doubled |
| `Strings.StringTable.Add` | FTCommon/External/lua/lstring.c:50-72 | a new string joins its bucket, the count follows, and the table grows when crowded: it is doubled exactly if it holds more strings than buckets, is not too large and is not being swept |
| `Strings.StringTable.NewString` | FTCommon/External/lua/lstring.c:75-93 | equal characters give the same object, which is not dead afterwards, also during a string sweep; no other string changes its colour |
| `Strings.StringTable.StartSweep` | FTCommon/External/lua/lgc.c:547-552 | after the white is flipped exactly the strings that were not marked and are not fixed are doomed |
| `Strings.StringTable.SweepString` | FTCommon/External/lua/lgc.c:572-580 | one bucket: exactly its doomed strings are unlinked and freed, nuse follows, the others become white, and the table stays interned and complete |
| `Strings.StringTable.SweepBucket` | FTCommon/External/lua/lgc.c:407-428 | the loop along the chain that does so in place |
| `Strings.StringTable.CheckSizes` | FTCommon/External/lua/lgc.c:431-436 | the table is halved exactly if it is sparse and large |

## Left out

- Constant operands (nil, booleans, numbers, strings) in the code generator: for them
  `luaK_goiftrue` and `luaK_goiffalse` emit a bare jump that also collects pending value jumps,
  and the claim about values does not carry over. Arithmetic, calls, tables, upvalues and the
  rest of `lcode.c` are not modelled either.
- `lvm.c` is not part of this model; the opcodes mean what the comments in `lopcodes.h` say.
- Weak tables, finalizers, GC tag methods, dead keys in tables, and the pacing of `luaC_step`.
- In the collector buckets of the string table are sets, not chains (the chains are in
  `Strings`), and memory is unlimited.
- LuaTable.Table.New: array parts beyond 2^26 slots are excluded; the source would count them
  wrongly in a rehash.
- LuaTable.Table.ResizeArray: shrinking the array part below what the hash part can take is
  excluded; no caller shrinks it.
- Upvalues.Thread.ReallocStack: a smaller size must still hold every slot with an open upvalue,
  which the callers in `ldo.c` and `lgc.c` see to.
- StarNet.StepInv: the program uses a connection only between OnConnection and OnDisconnect, and
  each call of AsyncSend, AsyncRecv and AsyncDisconnect is one step.
- LuaTable.Table.Put: the table that "table overflow" leaves behind may hold integer keys in the
  hash part that its array part now covers; what further calls do with it is not modelled.
- GcCollector.Collector.SingleStep: the resizing of the string table at the end of a sweep is a
  step of its own (`GcMutator.ResizeInv`, `Strings.StringTable.CheckSizes`).
- NaN as a key, and the hash functions themselves: any function of key and size is allowed.
- Chunk.UndumpDump: sizes of ints and pointers are fixed to those of a 32-bit little-endian
  build, numbers are their eight bytes, and `luaG_checkcode` is an arbitrary test.
- PatternManual.ManualBest: within brackets the characters `]`, `^`, `-` and `%` stand for
  themselves only after a `%`, other special characters likewise outside; an anchor is the
  argument of `LuaMatch.MatchState.FindFrom`; characters are classified as in the C locale.
- Precedence.ParseIff: an operand is one token or a parenthesized expression; suffixes, calls and
  constructors are not modelled.
- The time limit of waits, the end of threads, and shutting down while commands are queued.
- Acceptor accounting, sessions, login, encryption, configuration, user interface and logging.
- Reassembly.Session.OnData: streams with packets above the bound, and headers no sender writes,
  are not covered; neither is the 16-bit wrap of element counts in the streams.
- TableSort.AuxSort: order functions that are not strict weak orders, for which the source may
  raise an error.
- `luaK_nil`, `luaO_int2fb` and the field macros of `lopcodes.h` would only add easy members.
