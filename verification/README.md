# A model of the Modus web machine, with proofs

This project models `web/mvm.js`, the abstract machine that runs Modus bytecode
in a browser, and two writers of binary formats beside it, and proves what they
are relied on for. `dafny verify dfyconfig.toml` checks everything.

## What is modelled

**The heap and its collector** (`Words`, `Heap`, `PlanFacts`, `Tiling`,
`HeapRuns`, `Collector`, `Observe`). Memory is an array of 64-bit words, each a
pair of 32-bit halves, with a start bitmap and a cons bitmap. `Collector.Machine`
has the source's fields and works in place: the scan of the roots, `copy`, the flip of
the semispaces, the allocators, and the GC checks. `Heap.Collected` says what one
collection does: one injective forwarding map, defined exactly on the reachable
objects, renames every word the scan's own pointer test accepts, and every other
word is bit-identical. The heap invariant `HeapInv` (objects tile the used part
of the active space by their header-derived sizes; start and cons bits are
exactly theirs; the idle space has none) holds over every run of checked
allocations, stores and collections, step by step what `HeapRuns.Next` says, up
to an instruction that `HeapRuns.Stuck` says cannot keep it. `Observe` says what
the program sees of a collection: the same graph, exactly when no word in it
spells a new address.

**The two execution tiers** (`Isa`, `Interp`, `Laws`, `Translate`, `Ways`, `Tiers`,
`Discipline`, `Control`, `Pairing`, `Simulation`, `Agreement`, `Astray`, `Renaming`). A reduced
instruction set keeps what makes the tiers hard: registers in frames and in locals, flags,
slots, branches, direct and indirect calls, tail calls, returns, GC checks,
setjmp, longjmp and handler pops. `Laws` says what each instruction does in terms
of the words it is about. `Translate.CompileFn` is the translator
(exploration, block labels, chunks, emission); its output is a target program of
cases, gotos, chunk transfers, spills and reloads. `Ways` says that it explores
exactly where the interpreter's steps can go. `Tiers` runs translated and
interpreted activations together, in any mixture, with the pending work of nested
`drive()` and `run()` calls as an explicit stack. `Simulation.StepSimulates` and
`Agreement.TiersAgree` say that the mixture does what the interpreter does. Each
machine collects when its own checks do and moves what its own roots reach, so
the two agree up to a correspondence of words, and word for word where they
collect alike (`Agreement.TiersEqual`); `Renaming.CollectorsAgree` builds the
correspondence from the two machines' own real collections. The calling convention the translator assumes is a checkable
certificate (`Discipline`): flags are dead at block starts and behind calls, V0-V3 and V5-V8
are dead behind a call and where a longjmp resumes, a function is entered at its
least pc with V0-V4.

**The driver** (`Driver`, `Nesting`), **the handler stack** (`HandlerStack`), **frames on the
flat stack** (`Frames`), **relocation** (`Relocate`, `PlainCode`), **pair arithmetic
and checked arithmetic** (`Arith`, `Checked`), **core files and snapshots** (`Cores`,
`JsonText`, `Snapshot`), **PE sections** (`Uki`, Microsoft PE Format) and **cpio archives**
(`Cpio`, cpio(5)) are sub-machines of their own, each imperative where the source
is, against an abstract specification.

## Where the code is not what it seems

Each of these is a theorem with the exact condition.

- A longjmp out of an *interpreted* callee never returns to a *translated*
  activation: `drive()` calls `run()` outside its `try` (`web/mvm.js:1386`).
  `Simulation.ThrowCaught` gives the condition under which a longjmp lands where
  the interpreter goes on, in both directions; `Astray.LongjmpLost` is a five
  instruction program that returns T when interpreted and is lost when its
  outer function is translated and its inner one is not.
- `compileFn` starts a function at label 0, which is its least pc; it is the
  entry only when no branch goes below the entry (`Translate.CompileFn`,
  `Translate.EntryNotFirst`).
- Exploration goes on behind a longjmp, as behind any trap, where control never
  comes (`Ways.SuccsExact`), and takes branches one at a time, so it may reach
  what no run does (`Ways.NotEveryWayTogether`).
- The two tiers do not collect alike. A call from translated code stores V0-V4
  only (`web/mvm.js:1612-1622`), so the homes of V5-V8 hold leftovers where the
  interpreter's hold the registers (`Renaming.CallLeaves`), and both are roots
  (627). An object only one of them refers to is moved in one machine and not in
  the other (`Renaming.RootsDecide`), so addresses, and the checks that collect,
  differ from there on: VR is the same up to renaming, not bit for bit.
- A word that is no reference but spells, with its tag, the address an object is
  moved to becomes a reference behind the flip (`Observe.Mistaken`); a stale slot
  of a frame can be one, since entering a function clears none. The graph a
  root reaches is the same exactly when no word in it is one
  (`Observe.GraphSame`).
- Float boxes take 48 bytes behind a check that tests none: there is room exactly
  when VA is not 16 or 32 below VL (`HeapRuns.FloatRoom`).
- `li-const` reads the page's constant vector from `JIT_PHYS` on and the module's
  table below it (993-1003), so relocation keeps what it does exactly when it
  stays on its side (`Relocate.ConstantInStep`).
- The collector zeroes word 0 of the BSS whenever VR has a pointer tag, live or
  not (`Heap.Collected`, `web/mvm.js:629-630`).
- Byte vectors and strings carry the cons tag in their header's low nibble. With
  0x13C004 elements or more the header reads as a heap address, and if a cons is
  there the collector rewrites the header (`Tiling.HeaderMistaken`).
- The size a count-carrying GC check tests bounds what is allocated exactly when
  the count is at least -(2^28 + 3) (words) or below 2^30 (bytes); from 2^31 - 31
  bytes on the size itself wraps and the check holds again, for a vector that is
  too short. The program does not check again after collecting (`Tiling.WordCheckCovers`,
  `Tiling.ByteCheckCovers`, `HeapRuns.StuckForRoom`).
- `shr64` by exactly 32 leaves an unsigned low half when the high half was
  negative (`Arith.Alu.Shr64`).
- Frame slots 129 to 133 of an enlarged frame are the homes of V3 and V5-V8
  (`Frames.LayoutMeets`).
- An archive with a file or directory called `TRAILER!!!` reads back cut off
  there (`Cpio.NewcReads`).

Where the comment above `compileFn` (registers stay in memory, calls are JS
calls, a translated function catches its own longjmps) and the code disagree, the
model follows the code.

## Model

| member | source | states |
|---|---|---|
| Collector.Machine.Gc | web/mvm.js:583-642 | a collection keeps the heap invariant, renames reachable references by one injective map and nothing else (`Collected`), never grows the heap, and counts itself |
| Collector.Machine.Copy | web/mvm.js:595-615 | one `copy`: the new reference is the renamed one; memory, bitmaps and plan change by at most that one object, which is moved only if it has not moved before and its size is sane |
| Collector.Machine.ScanWord | web/mvm.js:616-626 | scanning a word replaces it by its renaming exactly when the scan's pointer test accepts it |
| Collector.Machine.ScanAll | web/mvm.js:627-631 | after the whole scan no root and no copied object holds a reference that is not resolved; the to-space scan ends because the objects not yet moved, then the words not yet scanned, run out |
| Collector.Machine.constructor | web/mvm.js:378-398 | the initial memory satisfies the heap invariant |
| Collector.Machine.NowIs | web/mvm.js:542-545 | what the collector sees of the machine: its memory, VR, the stack from esp, the two spaces its BSS words name, and one bit for every 16 bytes of them |
| Heap.Addresses | web/mvm.js:20-38 | the byte addresses of the BSS, the stack, argv, the heap and the collector's registers |
| PlanFacts.RoomForOne | web/mvm.js:608-609 | there is always room in to-space for one more object that has not moved, because distinct objects occupy distinct from-space words |
| PlanFacts.CollectedHeapOk | web/mvm.js:595-638 | the new space is tiled by the copied objects, its bits are theirs, the old space's are clear, and no more words are in use than before |
| PlanFacts.ScannedClosed | web/mvm.js:616-631 | the objects moved are closed under what the roots and the moved objects refer to |
| PlanFacts.HeapCollectable | web/mvm.js:595-607 | a tiled heap meets everything the collector assumes: apart, no forwarding nibble in a first word, sane sizes |
| Observe.MovesIs | web/mvm.js:595-626 | the collector moves what a word refers to exactly when it has a pointer tag, an object starts there, it is a cons just if the tag says so, and it ends in its space |
| Observe.SpelledIsRef | web/mvm.js:616-638 | a word is a reference after a collection exactly when it has the right tag and the address of the image of a moved object |
| Observe.WordSurvives | web/mvm.js:583-642 | a live word is afterwards a reference, to the image of its object, exactly when it was one or spells one |
| Observe.FieldSurvives | web/mvm.js:583-642 | reading a field of a renamed word gives the renamed field, and nothing where nothing could be read, unless the word spelled a reference |
| Observe.PathSurvives | web/mvm.js:583-642 | what every path of field reads from a root comes to afterwards, in both directions: the renamed word it came to before, or nothing, spelled references followed to the objects whose new addresses they spell |
| Observe.GraphSame | web/mvm.js:583-642 | the same paths can be followed from a live word as before, no more and no fewer, exactly when none of the words on them spells a new address |
| Observe.Mistaken | web/mvm.js:616-626 | for every moved object there is a word from which nothing could be read before and its field 0 can be read after |
| Observe.SharingSurvives | web/mvm.js:595-615 | two live references are the same after a collection exactly when they were before: sharing and cycles are kept, and nothing is merged |
| Observe.EqualitySurvives | web/mvm.js:595-631 | of any two live words: they are equal afterwards exactly when they were before, or one is a reference and the other spells its new address |
| Observe.RootsResolved | web/mvm.js:627-630 | every word of the stack from esp to argv, every BSS word and VR is resolved; afterwards they hold the renamed words, but for the collector's registers and word 0, which is zero whenever VR had a pointer tag |
| Collector.Machine.AllocCons | web/mvm.js:560-566 | a cons is written at VA with both its bits and tag 1, nothing else changes, and the heap invariant holds unless VA passed VL |
| Collector.Machine.AllocObj | web/mvm.js:546-559 | for every count: an object is written at VA with its header, start bit and cleared fields, it faults exactly when the rounded size, wrapped or not, does not fit, and nothing else changes; the invariant holds for the subtags and counts the collector can handle |
| Collector.Machine.AllocU8 | web/mvm.js:1303-1308 | the same for byte vectors, whose size is derived differently |
| Collector.Machine.AllocFloat | web/mvm.js:567-575 | a float box: header with count 4, padding and four tagged quarters in 48 bytes, which is what the collector reads from the header |
| Collector.Machine.Check | web/mvm.js:1170-1184 | a check collects exactly when the bytes it tests do not fit below VL, and changes nothing otherwise |
| Collector.Machine.Make | web/mvm.js:1169-1183 | each allocating instruction adds the one object it stands for, its operands read where they are now, behind the check |
| Collector.Machine.Perform | web/mvm.js:1169-1183 | an instruction with its check either leaves the heap as it should and in order, or could not have |
| Collector.Machine.Store | web/mvm.js:1071-1077 | storing a word anywhere but into a header or the collector's registers keeps the heap invariant, but for a forwarding nibble in a car |
| Collector.Machine.Run | web/mvm.js:1169-1183 | every run of checked allocations of every kind and of stores keeps the heap invariant, each instruction doing to the heap what it should and a collection of it exactly where its check fails; the run stops short only at an instruction that cannot keep the invariant |
| HeapRuns.CheckSuffices | web/mvm.js:1169-1183 | behind a check that passes, every object but a float box ends at or below VL |
| HeapRuns.FloatRoom | web/mvm.js:567-575 | a float box does exactly when VA is not 16 or 32 below VL |
| HeapRuns.StuckForRoom | web/mvm.js:1169-1183 | so only a float box, or an instruction whose check has just collected, finds too little room |
| HeapRuns.OperandRenamed | web/mvm.js:1170-1184 | a register read behind a collecting check holds the renamed word |
| HeapRuns.ConsRenamed | web/mvm.js:560-566 | so the words of a cons made behind it are the renamed operands |
| HeapRuns.MadeIs | web/mvm.js:546-575 | what is new behind an allocation, word for word: its header, its fields or operands, zeros where it clears, its bits; and everything else is as it was |
| HeapRuns.SaneIs | web/mvm.js:1169-1183 | which allocations and stores keep the invariant, among them every cons whose car does not end in 15, every string and byte vector below 0x13C004 elements, every array below 2^28 - 4 |
| HeapRuns.CollectsWhen | web/mvm.js:1170-1183 | the exact VA from which each allocation's check collects |
| HeapRuns.OperandIs | web/mvm.js:1170-1184 | operands are the words of the stack from esp to argv, and VR |
| Tiling.HeaderSize | web/mvm.js:556 | `copy` derives from a header the size its allocator reserved |
| Tiling.HeaderIs | web/mvm.js:556 | a header is 256 times the count plus the subtag, in two halves |
| Tiling.SmallHeaderSafe | web/mvm.js:616-626 | below 0x13C004 elements no header passes the pointer test |
| Tiling.HeaderMistaken | web/mvm.js:616-626 | a byte vector's or string's header passes the pointer test exactly when a cons starts at the address it spells, which takes 0x13C004 elements |
| Tiling.StoreKeeps | web/mvm.js:1071-1077 | storing any word into a field keeps the heap invariant, but for a forwarding nibble in a car |
| Tiling.CheckExact | web/mvm.js:1174-1183 | what a passing check guarantees: room for what it tests, rounded up past it to a whole granule, and no more |
| Tiling.ConstCheckCovers | mvm/compiler.lisp:2227-2231 | the bytes the compiler puts into opcode 0x8C are those the object takes, for every count |
| Tiling.WordCheckCovers | web/mvm.js:1181-1183 | the bytes opcode 0x8D kind 0 tests cover the array exactly when the count is at least -(2^28 + 3) |
| Tiling.ByteCheckCovers | web/mvm.js:1181-1183 | for every count: the bytes of kind 1 cover what is bumped exactly unless the low 32 bits of the count are from 2^30 to 2^31 - 32, and what is bumped holds the byte vector exactly for counts up to that |
| Translate.Explore | web/mvm.js:1435-1460 | exploration decodes exactly what control can come to from the entry (`Ways.ReachedExact`), each instruction once, starts a block wherever a branch, a call or a setjmp needs one, and gives up exactly when control can come to something it cannot decode |
| Translate.Number | web/mvm.js:1461-1474 | labels number the block starts in pc order from 0; a chunk is closed at the first block start that comes `limit` instructions or more behind its first, and nowhere else |
| Translate.Emit | web/mvm.js:1475-1662 | in every chunk the switch finds, for each of its labels, the code of that block |
| Translate.CompileFn | web/mvm.js:1432-1680 | there is a result unless control can come to something untranslatable, and it is a translation: of exactly the reachable instructions, each label leads to its pc's code, labels are distinct, RES is recorded exactly when there is a setjmp, and label 0 is the entry exactly when the entry is the least pc |
| Translate.EntryNotFirst | web/mvm.js:1461-1463 | a function that branches below its entry is translated, and its entry's label is not 0 |
| Ways.SuccsExact | web/mvm.js:1435-1460 | the successors the translator takes are exactly where some step of the interpreter takes the activation, its calls returning, and the pc behind a longjmp |
| Ways.LeavesFor | web/mvm.js:974-1319 | instruction by instruction: to the target of a branch, to what is behind a conditional one or any other, and nowhere behind a tail call, a return or a longjmp |
| Ways.ReachedExact | web/mvm.js:1435-1460 | what is explored is exactly what such ways lead to, one after another, from the entry |
| Ways.RunStays | web/mvm.js:1435-1460 | no run of the activation, from whatever state, leaves what was explored |
| Ways.TailStops | web/mvm.js:1454 | a function that ends in a tail call is translated whatever is behind it |
| Ways.NotEveryWayTogether | web/mvm.js:1435-1460 | a function whose runs all avoid an instruction that is explored: ways are taken one at a time |
| Ways.LabelsExact | web/mvm.js:1442-1460 | blocks start at the entry, at the targets of branches and behind conditional branches, calls and setjmps, and nowhere else |
| Laws.Compares | web/mvm.js:1047-1060 | a comparison and a branch on it go to the target exactly when the two 64-bit numbers are so ordered, for each of the six conditions |
| Laws.TestsNil | web/mvm.js:1061-1062 | a branch on NIL, or on anything else, by what is in the register |
| Laws.Branches | web/mvm.js:982-1054 | a branch and a nop change nothing but the pc |
| Laws.Computes | web/mvm.js:989-1046 | mov, li and arithmetic put one word into one register, operands in order, and change no other |
| Laws.LastInFirstOut | web/mvm.js:991-992 | two pushes and two pops: the last pushed is popped first, and the operands are as they were |
| Laws.SlotsHold | web/mvm.js:1084-1097 | a slot holds what was put into it, the others what they held |
| Laws.CallsPass | web/mvm.js:648-667 | a call, direct or through a function value: V0-V4 in order, no operands, the pc behind it to return to, everything else as it was |
| Laws.CallsFault | web/mvm.js:1152-1160 | calling what is no function value is a longjmp |
| Laws.TailsPass | web/mvm.js:668-686 | a tail call takes the place of its caller and returns where that would have |
| Laws.Returns | web/mvm.js:687-691 | a return drops the activation and goes to its return pc |
| Laws.JumpsBack | web/mvm.js:734-755 | a longjmp from anywhere below a setjmp comes back behind it with T in VR, V4 and the operands that were there, and the handlers from before |
| Laws.JumpsNowhere | web/mvm.js:744-755 | without a handler, or with one whose activation is gone, it is a fault |
| Laws.PopsHandler | web/mvm.js:722-733 | a pop takes a push that was only counted, or else the innermost handler |
| Laws.Checks | web/mvm.js:1170-1184 | a GC check counts itself, and if it collects every register, slot, operand and saved V4 is renamed where it is |
| Laws.FunctionValues | web/mvm.js:692-695 | 16t + 3 names t, and nothing with another nibble names anything |
| Laws.Constants | web/mvm.js:16-17 | the words of NIL and T |
| Laws.Operands | web/mvm.js:974-1319 | registers are V0-V15 and VR, slots are 128 |
| Laws.ComparesMixed | web/mvm.js:1047-1060 | comparisons in interpreted code of the mixed machine |
| Laws.ComparesTranslated | web/mvm.js:1539-1559 | and in translated code, on its locals |
| Laws.TestsNilTranslated | web/mvm.js:1560-1561 | and its branches on NIL |
| Discipline.Asks | web/mvm.js:1493-1494 | where everything is live, the convention asks only for dead flags at block starts, and for V4, V9-V15 and slots alone behind calls and setjmps |
| Discipline.LocalSame | web/mvm.js:974-1319 | from states that correspond on what is live, a local instruction that does not tell corresponding words apart leads to states that correspond on what is then live, in both tiers or in neither; a copied word is live exactly if its source is |
| Discipline.OpenIsLocal | web/mvm.js:1526-1662 | open-coded instructions do to the locals what the interpreter does to the frame |
| Discipline.LabelsUnflagged | web/mvm.js:1442-1460 | the flag variable is dead wherever a block starts |
| Control.ReturnMatches | web/mvm.js:1371-1390 | through any nesting of `drive()` and `run()`, a return leads to the caller the interpreter returns to, at its return pc or its label |
| Control.MatchCallTrans | web/mvm.js:1152-1159 | a call between or inside tiers leaves pending work that matches the deeper stack |
| Control.MatchTail | web/mvm.js:1161-1168 | so does a tail call that changes tier |
| Control.InterpCaught | web/mvm.js:945-954 | a longjmp to an activation the interpreter can resume is caught by the `run()` that runs it |
| Control.SegmentCaught | web/mvm.js:1357-1369 | a longjmp raised by translated code finds its target among the continuations of its own driver, at the label recorded for its ip |
| Control.InterpOnly | web/mvm.js:945-954 | conversely, a `run()` catches a longjmp at the right place only if the interpreter can resume the target |
| Simulation.ThrowCaught | web/mvm.js:1357-1370 | a longjmp is caught where the interpreter goes on exactly when its target is reachable: interpretable, or in the raising driver's own segment |
| Simulation.CoreLocal | web/mvm.js:974-1319 | every local instruction keeps the relation between the tiers; a GC check, in which each machine collects or not and renames by itself, takes it to the correspondence behind it |
| Simulation.CallRel | web/mvm.js:1612-1622 | a call from either tier into either tier: the caller is suspended alike, the callee starts with V0-V4, whatever else its frame holds |
| Simulation.TailRel | web/mvm.js:1624 | a tail call from either tier into either tier |
| Simulation.CoreRet | web/mvm.js:1623 | a return from either tier lands in the related caller |
| Simulation.BeginRel | web/mvm.js:1495 | entering or re-entering a function at a label loads locals that hold what is live there |
| Simulation.PassChunk | web/mvm.js:1498 | the transfer to the block of another chunk keeps the relation, V0-V8 through their spill and reload |
| Simulation.StepSimulates | web/mvm.js:1432-1680 | each interpreted instruction that does not tell corresponding words apart is some steps of the mixed machine, to a related state or to a fault in both, exactly when a longjmp, if it is one, can reach its target |
| Agreement.Follows | web/mvm.js:1349-1392 | whatever the interpreter's run comes to, the mixed machine comes to, with corresponding VR and handlers and the same counts, whenever each of them collects |
| Agreement.Reflects | web/mvm.js:1349-1392 | whatever the mixed machine's run comes to, the interpreter comes to |
| Agreement.PlainBenign | web/mvm.js:1386 | every longjmp reaches its target when no function with a setjmp is translated |
| Agreement.PureBenign | web/mvm.js:1357-1369 | and when every function is |
| Agreement.TiersAgree | web/mvm.js:1396-1407 | in both those cases, from any call, and for every correspondence of words that no instruction of the run sees through, the two machines return together in corresponding states and fault together, whichever calls use translations, whenever each collects and wherever it moves things |
| Agreement.TiersEqual | web/mvm.js:1396-1407 | where every check does the same in both, they return with the same VR, handlers and counts |
| Agreement.TiersEqualUncollected | web/mvm.js:1396-1407 | above all where neither ever collects, whatever a collection would have done |
| Agreement.ReachesAll | web/mvm.js:1493-1494 | every indirect call of every run finds its arguments where each call has those of all functions live |
| Renaming.ProperBlind | web/mvm.js:974-1319 | comparisons, NIL tests and indirect calls do not tell words apart whose correspondence keeps equality, NIL and function values |
| Renaming.KindSurvives | web/mvm.js:595-626 | a collection makes NIL and function values of nothing else, and of them nothing else |
| Renaming.ProperCarried | web/mvm.js:583-642 | the checks of two machines, each collecting for itself or not, take such a correspondence of live words that no collection mistakes to such a correspondence |
| Renaming.BuiltProper | web/mvm.js:583-642 | and so for any number of checks, new words joining in between |
| Renaming.CollectorsAgree | web/mvm.js:1396-1407 | two machines with real heaps, each collecting when its own checks do: if no collection mistakes a live word and the program only compares references, the tiers return together and fault together, in states that correspond as their collections have moved things, equal to equal, different to different, NIL to NIL |
| Renaming.SoundUncollected | web/mvm.js:1396-1407 | machines that never collect meet its conditions, every word corresponding to itself |
| Renaming.RootsDecide | web/mvm.js:616-631 | an object that a root of one machine refers to and the other does not need is moved in the one and not in the other |
| Renaming.CallLeaves | web/mvm.js:1612-1622 | behind a call the interpreter's caller has its V5-V8 in its frame, and the translated one what the frame held before |
| Astray.LongjmpLost | web/mvm.js:1384-1389 | a program, well-behaved by the certificate, that returns T when interpreted and is lost when only its outer function is translated |
| Driver.Machine.Drive | web/mvm.js:1349-1392 | for every program, start and fuel, the loop computes what recursive calling computes, nested activations in the middle of a function included, with as many continuations as pending callers; contDepth is back at its base on every exit and nothing below it has changed |
| Driver.Machine.CallFn | web/mvm.js:1336-1342 | a function called to completion from inside another one, driven or interpreted, computes what the recursive call does and leaves the live continuations alone |
| Driver.Machine.Invoke | web/mvm.js:1358-1360 | one call of a translated function, through any nested calls it makes and goes on after, replies what recursive calling has it reply; a longjmp out of a nested one is its own |
| Driver.Machine.Request | web/mvm.js:1376-1390 | a call keeps one continuation, a tail call none, and an interpreted callee runs above the live ones |
| Driver.Machine.Rethrow | web/mvm.js:1358-1370 | the continuation a longjmp resumes, or the whole segment dropped |
| Driver.Machine.RunNested | web/mvm.js:945-954 | a nested `run()`, with the drivers it starts, computes what the recursive one does and leaves the live continuations alone |
| Driver.UnwindFinds | web/mvm.js:1363-1368 | a longjmp resumes the innermost pending caller whose frame it restored, at the label for its ip, and drops those above it |
| Driver.UnwindRethrows | web/mvm.js:1369 | with no such caller it leaves with the whole segment dropped |
| Driver.TailsKeepNothing | web/mvm.js:1377-1380 | a chain of tail calls, however long, adds no continuation |
| Nesting.InsideIsCall | web/mvm.js:1643-1647 | running a translated function in the middle of another one and going on at a label comes to what a call comes to that resumes there, longjmps included, for whole programs out of whose interpreted callees no longjmp goes |
| Nesting.TranslatedStays | web/mvm.js:1376-1384 | which is so where everything is translated |
| Nesting.JumplessStays | web/mvm.js:1376-1390 | and where nothing throws |
| Nesting.CallGoesOn | web/mvm.js:1371-1390 | behind a call, translated or interpreted, its caller goes on at its label with what the callee left |
| Nesting.TailEnds | web/mvm.js:1377-1380 | what a tail call comes to is what its caller comes to |
| Nesting.InsideGoesOn | web/mvm.js:1643-1647 | behind a nested activation, translated, interpreted or a plain `run()`, the rest of the function runs |
| Nesting.InsideReturns | web/mvm.js:1336-1342 | without a rest, the function comes to what the nested activation comes to |
| Nesting.InsideThrows | web/mvm.js:696-712 | a longjmp out of a nested activation is for the function around it if it restores its frame and there is a label for it, and for its callers otherwise |
| Nesting.CallThrows | web/mvm.js:1358-1370 | the same for one out of a translated callee |
| Nesting.TailThrows | web/mvm.js:1358-1370 | a function that has made a tail call catches nothing any more |
| Nesting.ThrowsItself | web/mvm.js:1361-1368 | one out of the function itself |
| Nesting.CallLoses | web/mvm.js:1384-1389 | one out of an interpreted callee is for no function of its driver |
| Nesting.DriverLeft | web/mvm.js:945-954 | but for what the driver was started from: a function with a nested activation, or a `run()` whose base it does not pass |
| Nesting.RunGoesOn | web/mvm.js:945-954 | a `run()` goes on behind a longjmp that does not pass its base, and behind the functions it drives |
| HandlerStack.Machine.HandlerPush | web/mvm.js:714-721 | a full stack only counts the push, modulo 2^32, otherwise the jump buffer is saved on top |
| HandlerStack.Machine.HandlerPop | web/mvm.js:722-733 | a pop undoes the last push: the count, or the buffer, or the last armed handler |
| HandlerStack.Machine.Setjmp | web/mvm.js:734-743 | setjmp arms the current frame's handler and leaves NIL in VR |
| HandlerStack.Machine.Longjmp | web/mvm.js:744-755 | longjmp restores esp, ebp, pc and V4 of the kept handler and T in VR; without a handler it only clears the count |
| HandlerStack.HomeIs | web/mvm.js:740 | the V4 that is saved is the first word below ebp |
| HandlerStack.Addresses | web/mvm.js:65-68 | the byte addresses of the jump buffer, the depth, the saved buffers and the overflow count |
| HandlerStack.CappedPush | web/mvm.js:714-721 | pushing on the bounded stack is pushing on the unbounded one |
| HandlerStack.CappedDrop | web/mvm.js:722-733 | and popping is popping |
| HandlerStack.CappedJump | web/mvm.js:744-750 | a longjmp takes the min(n, 64)-th handler and leaves those below it |
| HandlerStack.CappedExact | web/mvm.js:65-68 | the bounded stack holds the number of handlers and the first 64 of them, and nothing else |
| HandlerStack.WrapExact | web/mvm.js:714-721 | the 32-bit count loses track exactly at the push onto 64 + 2^32 - 1 handlers |
| HandlerStack.NestRestores | web/mvm.js:714-733 | well-nested setjmp and pop sequences of any depth leave the handlers as they were |
| HandlerStack.JumpRestores | web/mvm.js:744-750 | a longjmp from under any handlers set since restores the state from before its setjmp |
| Frames.LayoutApart | web/mvm.js:87-91 | the 16 register homes and the 128 slots of a standard frame are distinct words of it |
| Frames.LayoutMeets | web/mvm.js:76-91 | a slot is a register home exactly for slots 129 to 133 |
| Frames.Homes | web/mvm.js:87-91 | the 16 homes as byte offsets below ebp |
| Frames.FrameHolds | web/mvm.js:76-86 | a frame holds every slot its frame-enter names, the 128 standard ones and all homes, and is no larger than that takes |
| Frames.Addresses | web/mvm.js:71-93 | where the stack begins and ends, and where calls fail |
| Frames.Machine.DoCall | web/mvm.js:648-667 | the callee's frame holds the return pc, the caller's ebp and V0-V4, below everything the caller has on the stack; it fails exactly when the frame would pass the floor, and then leaves everything as it was |
| Frames.Machine.DoTailcall | web/mvm.js:668-686 | the callee takes over the frame with its return pc, saved ebp and V0-V4, and no word of memory changes |
| Frames.Machine.DoRet | web/mvm.js:687-691 | esp, ebp and pc as they were before the call |
| Frames.Machine.Perform | web/mvm.js:645-691 | for any nesting of calls, operands pushed and popped between them, and any chain of tail calls, an activation returns to its return pc with its caller's ebp and esp, the stack above its frame untouched; it fails exactly when some call has no room |
| Frames.Machine.PerformSteps | web/mvm.js:432-433 | operands stay on the stack in the order they were pushed, whatever is called in between |
| Frames.InsideAlways | web/mvm.js:645-691 | activations that move no operands stay inside the stack by themselves |
| Frames.OperandInside | web/mvm.js:432-433 | and so do those that pop what they have pushed |
| Frames.Machine.Invoke | web/mvm.js:667-691 | a call, from the push of its return pc to its return, leaves the caller at that pc with its frame, its esp and everything on its stack |
| Frames.TailsHaveRoom | web/mvm.js:668-686 | a chain of tail calls, however long, always has room: it uses one frame |
| Arith.Alu.Add64 | web/mvm.js:107-111 | addition modulo 2^64 |
| Arith.Alu.Sub64 | web/mvm.js:112-115 | subtraction modulo 2^64 |
| Arith.Alu.Mul64 | web/mvm.js:116-129 | multiplication modulo 2^64 on 16-bit digits |
| Arith.Alu.Accumulate | web/mvm.js:120-126 | no partial sum reaches 2^32 before its carry is taken |
| Arith.Alu.Shl64 | web/mvm.js:130-135 | left shift modulo 2^64 |
| Arith.Alu.Shr64 | web/mvm.js:136-141 | the unsigned quotient; both halves are signed again exactly unless the shift is by 32 and the high half negative |
| Arith.Alu.Sar64 | web/mvm.js:142-147 | the floor of the signed quotient |
| Arith.Alu.FromBig | web/mvm.js:161-165 | the low 64 bits |
| Words.WrapIs | web/mvm.js:107-165 | reduction modulo 2^64 fits 64 bits and differs by a multiple of 2^64 |
| Words.Cmp64 | web/mvm.js:148-152 | the order of the signed 64-bit integers, and 0 only for equal words |
| Checked.AddOverflow | web/mvm.js:1226 | the sign-bit test is true exactly when the sum leaves 64 bits |
| Checked.SubOverflow | web/mvm.js:1227 | the same for differences |
| Checked.ShortProduct | web/mvm.js:1231-1232 | the fast multiply is exact in double precision and fits |
| Checked.ShortIs | web/mvm.js:1231-1232 | its operand test is for magnitudes below 2^26, and exact |
| Checked.IdealIs | web/mvm.js:1222-1242 | on tagged integers the ideal results are the tagged sum, difference and product |
| Checked.Integers | web/mvm.js:1222-1242 | what adding, subtracting and multiplying tagged integers comes to: twice the exact number if that is a 64-bit number, else the generic function with the operands in order, or its low 64 bits |
| Checked.Interpret | web/mvm.js:1222-1242 | the exact tagged result when it fits, the generic function when it does not |
| Checked.Translated | web/mvm.js:1640-1649 | the translated form, fast path and slow path, is correct in the same sense |
| Checked.TiersAgree | web/mvm.js:1640-1649 | two correct outcomes are the same word or the same generic call |
| Relocate.Memory.Relocate | web/mvm.js:353-377 | the loop rewrites exactly what the one-pass specification rewrites, and fails when it does |
| Relocate.WalkRewrites | web/mvm.js:353-377 | every instruction boundary is kept, and only the operands of call, tailcall and fn-addr change, as they should |
| Relocate.OwnTarget | web/mvm.js:364-372 | a target of the module moves along with it, and an unresolved one stays |
| Relocate.SyntheticTarget | web/mvm.js:366-372 | a synthetic target becomes the address its word in the runtime's table names, and is an error without a table |
| Relocate.LengthsAre | web/mvm.js:41-55 | the instruction lengths, for all 256 opcodes |
| Relocate.FnRoundTrip | web/mvm.js:692-695 | `fnAddrToOffset` undoes the tagging of a function value (t times 16, plus 3) for every address below 2^28 |
| Relocate.InStep | web/mvm.js:353-377 | one instruction of the relocated copy, be it a call, a branch, a setjmp, a longjmp or one that faults, does at base + pc what the original does at pc, function values, return pcs and handlers moved along and every other word as it is, if that one instruction, on the words there are, does not look into a function value |
| Relocate.BranchesGo | web/mvm.js:1054-1062 | branches go from the end of the instruction by their signed operand |
| Relocate.CallsGo | web/mvm.js:1152-1168 | calls, tail calls, returns and fn-addr, by the bytes of the instruction |
| Relocate.TrapsGo | web/mvm.js:713-755 | setjmp, longjmp and handler pops |
| Relocate.ThrowShifted | web/mvm.js:744-755 | a longjmp in the relocated copy resumes at the relocated place |
| Relocate.ConstantInStep | web/mvm.js:993-1003 | `li-const` runs in step, whatever the tables hold, exactly when it is not moved across `JIT_PHYS` |
| Relocate.RunsInStep | web/mvm.js:353-377 | and so for whole runs that stay in the module and of whose words some are known to be function values, whatever the others look like |
| PlainCode.PlainOnward | web/mvm.js:989-1004 | the real mov, li and add do not look into function values, on any words, as long as none is added to |
| PlainCode.SumIs | web/mvm.js:107-111 | its addition is addition modulo 2^64 |
| PlainCode.SampleCopied | web/mvm.js:353-377 | such code has a relocated copy wherever its addresses stay below 2^28 |
| PlainCode.SampleMoved | web/mvm.js:353-377 | code that adds 1 and 2 to 3, which looks like a function value, and calls a function by its value does both wherever it is moved |
| Cores.EncodeCore | web/mvm.js:1718-1735 | the cursor loop writes magic, header length, header and blobs back to back |
| Cores.DecodeCore | web/mvm.js:1736-1747 | the cursor loop cuts the blobs the header measures, short where the file ends |
| Cores.EncodedIs | web/mvm.js:1718-1735 | the file byte range by byte range: MVMC, the length of the header's text lowest byte first, the text, the ranges in order, start bits, cons bits |
| Bytes.LowestFirst | web/mvm.js:1718-1747 | 32-bit fields have their lowest byte first |
| Cores.CoreRoundTrip | web/mvm.js:1718-1747 | decoding an encoded core gives the core, whenever the text of its header reads back and its length fits the length field |
| JsonText.TextReads | web/mvm.js:1720-1726 | the JSON text of a header, written field by field, reads back to the header, for every header |
| JsonText.TextInverse | web/mvm.js:1720-1739 | so it is a text format as the round trips need it |
| JsonText.TextIs | web/mvm.js:1720-1726 | the text of a header with two ranges, spelled out |
| JsonText.NumberIs | web/mvm.js:1720-1726 | its numbers are decimal |
| JsonText.TextShort | web/mvm.js:1729-1732 | with numbers that are exact doubles it has at most 800 characters and 75 for every range |
| Snapshot.Take | web/mvm.js:1683-1703 | a snapshot is taken of the collected machine: registers, five ranges, and the bitmap bytes of the used heap |
| Snapshot.CoreIs | web/mvm.js:1683-1703 | the version, the addresses and lengths of the five ranges, the registers and the first granule, in numbers |
| Snapshot.BitOfByte | web/mvm.js:1695-1702 | the bit of granule 8i + k is bit k of byte i |
| Snapshot.StagedIs | web/mvm.js:311-338 | the words argv and the environment are staged in |
| Snapshot.Restore | web/mvm.js:1704-1717 | restoring succeeds exactly for version 2 and the same semispace; then every word is the last one staged for it, or that of the last range over it, or that of the module's pool or code there, or 0; registers and the saved bits are back and no other bits are set |
| Snapshot.RestoredAt | web/mvm.js:1704-1717 | every saved word outside the restaged ones is back, whatever order the ranges come in |
| Snapshot.BitsBackAt | web/mvm.js:1695-1702 | the bits of both semispaces are back |
| Snapshot.SaveAndResume | web/mvm.js:1683-1747 | collect, encode, decode, restore: registers, bitmaps and the saved words (BSS, pool, stack from esp, used heap, executable pages) as they were, the module's code and the staged words in place, and the heap invariant holds in the new machine; there is an error exactly when the header's text is too long for the length field, and as JSON text of exact doubles it never is |
| Uki.AddSections | scripts/make-uki.py:9-42 | a well-formed image is refused exactly when the new headers have no room or a number leaves its field; otherwise every new header reads back field by field, name, sizes, places, flags, the payload is in the file where it says, then zeros to a whole sector, in memory each section is in the first whole pages behind everything before it; SizeOfImage and the file end with the last, and no other byte of the image changes |
| Uki.EntryReads | scripts/make-uki.py:36-38 | a packed section header reads back field by field |
| Uki.FieldsAt | scripts/make-uki.py:10-26 | where the count, the section table, SizeOfImage and the fields of a section header are |
| Uki.OldSections | scripts/make-uki.py:9-42 | the old sections read back as they were |
| Cpio.RecordReads | test/nitro/mkcpio.py:8-12 | a record reads back, whatever follows it |
| Cpio.RecordIs | test/nitro/mkcpio.py:8-12 | a record part by part: magic, fields, name and zero, padding, data, padding |
| Cpio.FieldsAre | test/nitro/mkcpio.py:8-10 | its thirteen fields in order |
| Cpio.HexIs | test/nitro/mkcpio.py:8-10 | each as its base-16 digits, the highest first, upper-case |
| Cpio.WriteAligned | test/nitro/mkcpio.py:11-12 | every record starts on a 4-byte boundary |
| Cpio.AddParents | test/nitro/mkcpio.py:15-16 | the loop adds exactly the ancestors of a path to a set closed under parents (`Cpio.AncestorsAre`) |
| Cpio.DirnameIs | test/nitro/mkcpio.py:15 | a path's parent is the longest directory it names, or its leading slashes |
| Cpio.AncestorsAre | test/nitro/mkcpio.py:15-16 | its ancestors are exactly what is before a slash that follows something else, and its leading slashes |
| Cpio.SortNames | test/nitro/mkcpio.py:17 | the directories in strictly ascending order, each once |
| Cpio.LowerFirst | test/nitro/mkcpio.py:17 | of two names that differ, the one with the lower byte where they first do comes first |
| Cpio.Newc | test/nitro/mkcpio.py:6-21 | the directories are exactly those some entry is inside of, that is what is before a slash in its name; directories, entries and trailer in order, numbered from 1, then zeros up to whole 512-byte blocks |
| Cpio.ContentsAre | test/nitro/mkcpio.py:16-20 | the records in order: directories with mode 040755 and no data, the entries, TRAILER!!! with nothing, numbered from 1 |
| Cpio.InOrder | test/nitro/mkcpio.py:11-12 | records are written one behind the other |
| Cpio.NewcReads | test/nitro/mkcpio.py:6-21 | the archive reads back to exactly these records if and only if none of the others is called TRAILER!!! |
| Cpio.DirectoriesFirst | test/nitro/mkcpio.py:14-18 | every directory before a slash in some entry's name is written exactly once, before the entry |

## Left out

- Instructions outside the reduced set (car, cdr, object fields, flags of test and overflow, constants, multiple values): each is open-coded or delegated like one that is kept. `test` and overflow branches follow the pattern of `Cmp` and `BranchIf`.
- `Isa.ExecLocal`, `Interp.Step` and `Tiers.MixedStep` work on values: frames are separate sequences of homes, slots and operand words, so aliasing between them (through raw stores or enlarged frames) is not captured; `Frames` shows standard frames keep them apart.
- Agreement.TiersAgree: collections inside the tiers are any renaming of words by each machine, at any checks, and the correspondence is any that suits the run; `Renaming.CollectorsAgree` is the theorem for real collections, whose heaps stay beside the tiers' states.
- The copy of stack-passed arguments by frame-enter, and operand pushes past the end of the stack, are not in the tiers.
- A handler whose frame has been left is an error in the tiers (`Isa.Armed`); the program would go on in a stale frame.
- Shifts of the tiers are those that leave signed halves: `shr64` by 32 of a negative high half differs between a local and a frame, because only the frame truncates it.
- Indirect calls: that the function an indirect call reaches finds its arguments live is a condition on the interpreter's run (`Simulation.Reaches`), which `Agreement.ReachesAll` gives from the program alone.
- Call counts and per-site caches of `compiledFor` (an arbitrary choice for each call here), and the text and evaluation of the generated JavaScript.
- Collector.Machine.constructor: semispaces so large that heap addresses would reach 2^31 (858 MiB and more) are excluded; the machine keeps addresses in signed 32-bit words.
- Collector.Machine.AllocObj: the heap invariant behind it is promised for counts below 2^28 - 4 only; from there on `align16` wraps and the header no longer gives the size, and `Tiling.WordCheckCovers` says what the check before it does there.
- `sap-new`, which reserves 16 bytes under a header for which the collector charges 32, raw stores into headers, and allocations without a check before them.
- Collector.Machine.Run: the stack pointer stays put during a run, registers are read from their homes, and the words stored are any words, so a run does not say which of them are live.
- Driver.Machine.Drive: the three continuation arrays are one sequence of triples; results are compared for every amount of fuel, so a run that does not end is compared by its prefixes.
- Snapshot.Take: ranges are in whole words, so a constant pool whose length is not a multiple of 8 is rounded up; what argv and the environment leave in the restaged words is a parameter.
- Cores.CoreRoundTrip: JSON.stringify and JSON.parse are any pair that is inverse where it is needed; `JsonText` is such a pair, which reads only what it writes. The program would truncate a length of 2^32 or more; the engine's own limit on strings comes first.
- Relocate.RunsInStep: the effect of the other instructions on words is a parameter, asked not to look into function values only where the run is; a call that finds the stack full, a handler whose frame has been left, traps that take raw code addresses, and targets outside the module (the synthetic runtime entries) are not run.
- Frames.Machine.Perform: activations that push past the end of the stack, which nothing checks, or pop what they have not pushed, are excluded.
- Checked arithmetic: the body of the generic functions, and what `callLisp` saves and restores around one (`Driver.Machine.CallFn` is its control).
- Uki.AddSections: images whose PE header overlaps the DOS header, whose optional header is shorter than SizeOfImage's end, or whose section data is outside the file get no promise beyond the error cases.
- Cpio.NewcReads: sizes, modes and record counts below 2^32, which is what the format's fields hold; names are UTF-8 bytes.
- The keyword-interning memo (`web/mvm.js:260-289`) beyond its shape as a stand-in that runs a nested activation; module loading, system calls, sockets, the host layers, tracing and profiling, and the rest of the repository.
