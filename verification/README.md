# Verified models of the hooking, signal and dump code

Dafny models of the parts of the repository whose correctness is hardest to see, with
proofs of what they promise.  `dafny verify dfyconfig.toml` checks everything.

- **Phaser** (`Phaser`, `PhaserEntry`, `PhaserWakeup`, `PhaserProgress`, `PhaserObject`): the two-counter
  epoch scheme behind signal multiplexing, as a step system with one action per atomic
  instruction and 64-bit wrap-around, and as code over the counter array that lets the
  rest of the program run between any two instructions.
- **Sigmux** (`Sigmux`, `SigmuxInvariant`, `SigmuxSteps`, `SigmuxHeld`, `SigmuxOneShot`,
  `SigmuxWalk`, `SigmuxSafety`): lock-free dispatches, registration, unregistration and
  double-buffered sigaction over that phaser.  One invariant is kept by every step, and
  the safety theorems hold of every reachable state and every run.
- **SigSafe**: the fault handler that leaves a dispatch by a jump.
- **x86-64 relocation** (`X86Machine`, `X86Emit`, `X86Relocate`, `X86Run`, `X86Sequences`,
  `X86Meaning`, `X86Simulation`, `X86Theorem`, `X86Decoded`, `X86RipLoad`): the two passes
  that copy a function prologue, and a machine on which the copy simulates the original.
  The emitted code pushes below the stack pointer; the addresses it scribbles on are
  carried along as `dirt`, and the copy is right as long as the prologue reads none of
  them before writing them.  `Hde64` and `Hde64Forms` are the length decoder with its
  table, and `X86Scan` the scan that drives it.
- **Thumb relocation** (`Thumb`, `ThumbIt`, `ThumbLayout`, `ThumbReach`, `ThumbWindow`):
  code that grows from the front of a buffer while literals and stubs grow from its back.
- **PLT hooks** (`Hooks`, `HooksObject`, `Linker`, `LinkerObject`, `Trampoline`): the
  registry with its two indexes, GOT slots written in place, the hook call stack and the
  trampoline allocator.
- **MD5** (`Md5Spec`, `Md5Rounds`, `Md5`, `Md5Object`): the streaming class against
  RFC 1321.
- **Symbol lookup** (`Bits`, `SymbolLookup`): GNU and ELF hash tables.
- **Allocation dumps** (`HeapMessage`, `HeapFormat`, `HeapRoundTrip`, `HeapWriter`,
  `HeapNames`, `HeapSort`, `HandleHeap`): the message parser, its format and a writer.

Code that updates state in place is modelled by classes and loops whose contracts tie
them to specification functions; the theorems are about those functions.  Addresses and
C integers are unbounded numbers with the wrap-around written out.

## Findings

Promises that the code does not keep, each with an input or with the exact condition:

- ThreadHook/src/main/cpp/linker/phaser.c:217: a wake-up can be lost with 2^32 sections in
  flight, as the futex compares the low 32 bits of a 64-bit counter
  (`PhaserWakeup.LostWakeupBound`, `PhaserWakeup.WakeupCanBeLost`).
- ThreadHook/src/main/cpp/linker/sig_safe_write.c:71: sigmux_unregister never returns when
  the fault hit a dispatch that interrupted another dispatch of the same thread
  (`SigSafe.UnregisterAfterFault`, `SigSafe.UnregisterStuck`).
- alloctrack/src/main/cpp/Substrate/SubstrateX86.hpp:190: the relocated load of a 64-bit
  register is wrong for registers whose low bits are 4 or 5 (`X86Run.MoveDecodes`).
- alloctrack/src/main/cpp/Substrate/SubstrateX86.hpp:85: a pushed address in [2^31, 2^32)
  comes out sign-extended (`X86Sequences.RunPush`).
- alloctrack/src/main/cpp/Substrate/SubstrateHook.cpp:842: the test for a load relative to
  rip looks at the opcode and the ModRM byte alone, so loads without REX.W, with a segment
  base or with a 32-bit address become 64-bit loads too (`X86RipLoad.RipLoadExactly`,
  `X86RipLoad.NarrowLoadTaken`).
- alloctrack/src/main/cpp/Substrate/SubstrateHook.cpp:418: a relocated Thumb cbz misses
  its stub when more than 72 halfwords of code and stubs follow from it on
  (`ThumbReach.CompareReaches`, `ThumbWindow.ManyCompares`).
- alloctrack/src/main/cpp/Substrate/SubstrateHook.cpp:385 and
  alloctrack/src/main/cpp/Substrate/SubstrateHook.cpp:462: blx off a word boundary gets a
  misaligned target, and a 32-bit load of the pc jumps into the literal pool
  (`ThumbWindow.Misfits`).
- alloctrack/src/main/cpp/Substrate/SubstrateHook.cpp:503: Thumb instructions that read
  the pc in other ways are copied and find another pc: adr, the 16-bit b, mov from the pc,
  tbb and tbh with every base register, and loads with a label other than ldr
  (`ThumbReach.OtherPc`, `ThumbWindow.ShortReaders`, `ThumbWindow.TableBranches`,
  `ThumbWindow.WideReaders`).
- alloctrack/src/main/cpp/Substrate/SubstrateHook.cpp:250: an IT instruction is copied,
  but covers only the first instructions of the replacements behind it, or the way back
  (`ThumbIt.RunsAsOneExactly`, `ThumbWindow.BehindIt`).
- alloctrack/src/main/cpp/Substrate/SubstrateHook.cpp:533: branches into the overwritten
  Thumb window, and loads of literals in it, are relocated as if it still stood
  (`ThumbWindow.LiteralInTheWindow`, `ThumbWindow.TargetInTheWindow`).
- ThreadHook/src/main/cpp/linker/linker.cpp:302: a hook equal to the original function can
  be added but never removed (`Linker.Restored`, `Linker.UnhookSays`).
- ThreadHook/src/main/cpp/linker/linker.cpp:193: a first hook whose write fails stays
  registered, so that later hooks of the slot are reported as done although none is in
  force (`Linker.FailedPatchSticks`).
- ThreadHook/src/main/cpp/linker/trampoline.cpp:235: CALL_PREV does not run every hook
  when a run list holds one twice (`Trampoline.AllRunInReverse`).
- ThreadHook/src/main/cpp/linker/hooks.cpp:65: after 2^32 allocated ids a new hook gets
  the run list of an old one (`Hooks.FreshId`, `Hooks.NewRunList`).
- app/src/main/cpp/md5.cpp:182: a digest taken with 56 or more bytes buffered changes the
  message that later updates continue (`Md5.RestoredExactlyIf`).
- app/src/main/cpp/md5.cpp:167: an update of nearly 2^32 bytes, or of more, never comes to
  an end (`Md5.EndsExactly`, `Md5.SafeExactly`).
- ThreadHook/src/main/cpp/linker/elfSharedLibData.cpp:73 and
  ThreadHook/src/main/cpp/linker/elfSharedLibData.cpp:61: where char is signed, names with
  characters above 127 are hashed wrongly and not found (`SymbolLookup.HashExactlyIf`,
  `SymbolLookup.OneHighChar`, `SymbolLookup.GnuFind`, `SymbolLookup.ElfHashExactlyIf`,
  `SymbolLookup.ElfOneHighChar`).
- DumpPrinter/src/com/dodola/alloc/dump/HandleHeap.java:263: with stack frames longer than
  eight bytes the dump parser reads one byte too few per frame
  (`HeapRoundTrip.ReadFrame`). The comment over the entry's stack frames and the code
  disagree about frame lengths; the model follows the code.
- DumpPrinter/src/com/dodola/alloc/dump/HandleHeap.java:116: method and file names that
  look like descriptors, such as `I`, are translated (`HeapNames.NameKept`,
  `HeapNames.MangledName`).
- DumpPrinter/src/com/dodola/alloc/dump/AllocationInfo.java:44: two sizes are compared the
  wrong way round if the subtraction b - a falls outside [-2^31, 2^31): when they are more
  than 2^31 apart, and in one direction when they are exactly 2^31 apart
  (`HeapSort.CompareExact`).

## Model

| member | source | states |
|---|---|---|
| `Phaser.GracePeriod` | ThreadHook/src/main/cpp/linker/phaser.c:243-250 | in every interleaving, a section that was inside when phaser_drain began has exited when it returns, although sections may increment a counter after it was set DRAINING |
| `Phaser.BasicReachable` | ThreadHook/src/main/cpp/linker/phaser.c:133-250 | in every reachable state each counter is exactly the number of its holders, plus DRAINING on at most the one counter being drained |
| `Phaser.QuietCounters` | ThreadHook/src/main/cpp/linker/phaser.c:240-249 | between drains no counter carries DRAINING, and the counters add up to no more sections than are in flight |
| `PhaserEntry.BoundedEntry` | ThreadHook/src/main/cpp/linker/phaser.c:133-174 | a phaser_enter fails at most one test more than counter drains start during it, and any two of its failures belong to no more than one phaser_drain |
| `PhaserEntry.SecondTestSucceeds` | ThreadHook/src/main/cpp/linker/phaser.c:162-170 | a test that follows a failed one succeeds unless another counter drain has started since |
| `PhaserWakeup.LostWakeupBound` | ThreadHook/src/main/cpp/linker/phaser.c:185-191 | no reachable state has the drainer asleep on a drained counter with no exiter owing a FUTEX_WAKE, if and only if fewer than 2^32 sections can be in flight |
| `PhaserWakeup.WakeupCanBeLost` | ThreadHook/src/main/cpp/linker/phaser.c:217-225 | the run that loses the wake-up: with 2^32 sections the futex compares equal low words of a 64-bit counter |
| `PhaserWakeup.BoundedDrain` | ThreadHook/src/main/cpp/linker/phaser.c:211-250 | without new sections, the steps that advance a drain, of the drainer and of the sections begun before, are no more than a number fixed when it begins, so it ends once its sections do |
| `PhaserProgress.OwnStepsBounded` | ThreadHook/src/main/cpp/linker/phaser.c:211-241 | however many sections begin meanwhile, the drainer itself takes no more steps for a counter than a number fixed when it sets DRAINING, and three for each interruption of its wait |
| `PhaserProgress.DrainBounded` | ThreadHook/src/main/cpp/linker/phaser.c:133-241 | the drainer together with all sections begun before takes no more steps than such a number, whatever sections begin meanwhile and however their tests fail |
| `PhaserProgress.LeftAtStart` | ThreadHook/src/main/cpp/linker/phaser.c:211-241 | when DRAINING has just been set, the drainer's number is two and four for each disturbance left to sections already past their test |
| `PhaserWakeup.NeverStuck` | ThreadHook/src/main/cpp/linker/phaser.c:217-225 | while a drain is under way some step advances it, unless it sleeps waiting for a section that is still inside |
| `PhaserObject.PhaserT.constructor` | ThreadHook/src/main/cpp/linker/phaser.c:111-122 | the new phaser is in the initial state of the step system |
| `PhaserObject.PhaserT.Enter` | ThreadHook/src/main/cpp/linker/phaser.c:162-174 | phaser_enter returns for every schedule of the others, with its section inside under the phase it returns |
| `PhaserObject.PhaserT.Exit` | ThreadHook/src/main/cpp/linker/phaser.c:176-209 | phaser_exit leaves the section, and wakes the drainer when the decrement reaches COUNT_DRAINED |
| `PhaserObject.PhaserT.DrainCounter` | ThreadHook/src/main/cpp/linker/phaser.c:211-241 | returns with DRAINING cleared, or else the schedule of the others is used up and the drainer is still in its wait loop on this counter |
| `PhaserObject.PhaserT.Drain` | ThreadHook/src/main/cpp/linker/phaser.c:243-250 | when it returns, every section that was inside has exited, whatever the schedule; it stops short only when the schedule is used up while it waits |
| `SigmuxSafety.InvReachable` | ThreadHook/src/main/cpp/linker/sigmux.c:286-574 | the invariant of all interleavings of dispatches, register, unregister and sigaction: held pointers are in the live list or are the node being drained, snapshots are the current or the just swapped structure |
| `SigmuxSafety.NoUseAfterFree` | ThreadHook/src/main/cpp/linker/sigmux.c:506-520 | a node whose sigmux_unregister has let go of the lock, freed or not, is held by no dispatch, neither as `it` nor as `reglist` |
| `SigmuxSafety.NeverInvokedAgain` | ThreadHook/src/main/cpp/linker/sigmux.c:506-520 | once sigmux_unregister has drained and unlocked, no later step of any run invokes the handler |
| `SigmuxSafety.NeverSkipped` | ThreadHook/src/main/cpp/linker/sigmux.c:308-346 | a dispatch that no handler stopped has called, by the end of its walk, every matching handler that was registered when it loaded the list and still is, with and without the default action |
| `SigmuxSafety.NoneBefore` | ThreadHook/src/main/cpp/linker/sigmux.c:311-333 | while a handler runs, every owed handler of its pass that was registered no earlier has been called, and in the low-priority pass all of the normal pass too |
| `SigmuxSafety.CalledInOrder` | ThreadHook/src/main/cpp/linker/sigmux.c:311-333 | each pass calls handlers newest first and none twice, and no low-priority handler before the normal pass is over |
| `SigmuxSafety.DispatchNeverStuck` | ThreadHook/src/main/cpp/linker/sigmux.c:308-378 | the next pointer that a dispatch follows is always valid, so each of its steps is possible |
| `SigmuxSafety.WriteIsPrivate` | ThreadHook/src/main/cpp/linker/sigmux.c:563-570 | the structure that sigmux_sigaction overwrites is the snapshot of no dispatch |
| `SigmuxSafety.PairOnlySwapped` | ThreadHook/src/main/cpp/linker/sigmux.c:563-570 | over any run the two structures of a signal are only ever swapped |
| `SigmuxSafety.OneShotAtMostOnce` | ThreadHook/src/main/cpp/linker/sigmux.c:350-375 | an installed SA_RESETHAND handler is taken by at most one dispatch |
| `SigmuxSafety.OneShotTaken` | ThreadHook/src/main/cpp/linker/sigmux.c:356-372 | the compare-and-exchange hands over the installed handler exactly if it is still there |
| `SigmuxSafety.ReportIsWhole` | ThreadHook/src/main/cpp/linker/sigmux.c:544-561 | the old action that sigmux_sigaction reports is the installed one or the default, never a half-reset one-shot |
| `SigmuxSafety.PhaserReachable` | ThreadHook/src/main/cpp/linker/sigmux.c:282-282 | the phaser inside sigmux is a reachable phaser, so all its theorems hold of it |
| `SigmuxHeld.BeforeGone` | ThreadHook/src/main/cpp/linker/sigmux.c:517-519 | at the end of the grace period no dispatch that was inside still walks |
| `SigmuxSteps.PublishList` | ThreadHook/src/main/cpp/linker/sigmux.c:496-499 | publishing a node keeps the list doubly linked and ordered by registration |
| `SigmuxSteps.UnlinkList` | ThreadHook/src/main/cpp/linker/sigmux.c:515-516 | unlinking a node keeps the list, and the node's own next pointer leads to the next older live node |
| `SigSafe.ClientSafe` | ThreadHook/src/main/cpp/linker/sig_safe_write.c:44-117 | in every run of events the running and the cut-off dispatches of the thread are inside their sections |
| `SigSafe.DrainWithout` | ThreadHook/src/main/cpp/linker/sig_safe_write.c:109-114 | a drain can finish without the sections of a set ending exactly if none of them is inside when it begins |
| `SigSafe.UnregisterAfterFault` | ThreadHook/src/main/cpp/linker/sig_safe_write.c:71-114 | after the jump sigmux_unregister can return if and only if the fault hit the operation itself, not a second dispatch running on the same thread |
| `SigSafe.UnregisterStuck` | ThreadHook/src/main/cpp/linker/sig_safe_write.c:71-114 | the failing half is reachable: SIGSEGV in the inner of two nested dispatches leaves an unregistration that never returns |
| `X86Scan.Scan` | alloctrack/src/main/cpp/Substrate/SubstrateHook.cpp:732-752 | the scan ends, takes fewer than 15 bytes more than required, and the decoder cuts the saved copy into whole instructions whatever lies behind it |
| `X86Scan.DecoderSane` | alloctrack/src/main/cpp/Substrate/SubstrateHook.cpp:708-711 | what the decoder reports always meets the conditions that the two passes rely on |
| `Hde64.LengthBounds` | alloctrack/src/main/cpp/Substrate/hde64.c:326-331 | for every byte string and every table the length is 1 to 15 and the cast to eight bits loses nothing |
| `Hde64.Local` | alloctrack/src/main/cpp/Substrate/hde64.c:13-331 | the length depends on no byte behind the instruction, and nor does any reported field unless the length was cut to 15 |
| `Hde64Forms.RelativeLengths` | alloctrack/src/main/cpp/Substrate/hde64.c:73-101 | e8 and e9 are five bytes, eb, 7x and e3 two, and none of them reports a ModRM byte |
| `Hde64Forms.LoadForm` | alloctrack/src/main/cpp/Substrate/hde64.c:60-112 | 8b with a REX prefix is reported with its length, opcode, ModRM, register bits and displacement, relative to rip or through a register |
| `Hde64Forms.RegisterForm` | alloctrack/src/main/cpp/Substrate/hde64.c:60-112 | the forms with a register operand and an optional immediate are reported with length, opcode and ModRM |
| `Hde64.FindLock` | alloctrack/src/main/cpp/Substrate/hde64.c:137-158 | the walk of the lock table on the real bytes decides membership |
| `Hde64.FindOnlyMem` | alloctrack/src/main/cpp/Substrate/hde64.c:166-203 | the same of the table of instructions that need a memory operand |
| `X86Scan.DecoderAgrees` | alloctrack/src/main/cpp/Substrate/SubstrateHook.cpp:708-711 | on every instruction that the machine knows, the decoder with its table reports the machine's length and, for the load relative to rip, its register and displacement |
| `Hde64.LookupsInside` | alloctrack/src/main/cpp/Substrate/hde64.c:85-107 | no lookup of an opcode, a group or a prefix leaves hde64_table |
| `Hde64.Search` | alloctrack/src/main/cpp/Substrate/hde64.c:137-203 | the table walks stop exactly at table_end, and find an entry if and only if there is one |
| `X86Relocate.ImageFits` | alloctrack/src/main/cpp/Substrate/SubstrateHook.cpp:766-815 | for every window and every place of the buffer, the emitted code with the final jump is no longer than the first pass reserved |
| `X86Emit.RelocatedFits` | alloctrack/src/main/cpp/Substrate/SubstrateHook.cpp:768-891 | for each instruction: what is written fits what was reserved, and the running length never underflows |
| `X86Relocate.SizingPass` | alloctrack/src/main/cpp/Substrate/SubstrateHook.cpp:766-815 | computes the specified length with subtractions on an unsigned variable that never wrap |
| `X86Relocate.Writer.PushPointer` | alloctrack/src/main/cpp/Substrate/SubstrateX86.hpp:85-96 | appends exactly the bytes of push imm32, and of the store of the upper half when it is not zero |
| `X86Relocate.Writer.WriteJump` | alloctrack/src/main/cpp/Substrate/SubstrateX86.hpp:135-144 | appends exactly the jump that the target and the cursor call for |
| `X86Relocate.Writer.WriteRelocated` | alloctrack/src/main/cpp/Substrate/SubstrateHook.cpp:836-889 | one turn of the second loop appends exactly the specified replacement of the instruction |
| `X86Relocate.Relocate` | alloctrack/src/main/cpp/Substrate/SubstrateHook.cpp:766-891 | both passes: the buffer is never overrun and starts with the relocated prologue and the jump back |
| `X86Relocate.Patch` | alloctrack/src/main/cpp/Substrate/SubstrateHook.cpp:909-916 | the function starts with the jump to the replacement, padded with 0x90 up to the next instruction; the rest is untouched |
| `X86Sequences.RunPush` | alloctrack/src/main/cpp/Substrate/SubstrateX86.hpp:85-96 | the emitted push leaves the pointer on the stack if and only if the pointer is not in [2^31, 2^32) |
| `X86Sequences.RunJump` | alloctrack/src/main/cpp/Substrate/SubstrateX86.hpp:135-144 | a written jump reaches its target with registers unchanged, and memory too but for the slot below the stack pointer that its push uses |
| `X86Sequences.RunCall` | alloctrack/src/main/cpp/Substrate/SubstrateHook.cpp:861-867 | the emitted call reaches its target with the address of the skip as return address |
| `X86Sequences.RunReturn` | alloctrack/src/main/cpp/Substrate/SubstrateHook.cpp:865-866 | where the callee returns, one jump leads behind the emitted call |
| `X86Sequences.RunCond` | alloctrack/src/main/cpp/Substrate/SubstrateHook.cpp:872-881 | the emitted conditional jump takes the branch that the original takes |
| `X86Sequences.RunRipLoad` | alloctrack/src/main/cpp/Substrate/SubstrateHook.cpp:844-849 | the emitted push, pop and load leave in the register what the original load finds |
| `X86Run.MoveDecodes` | alloctrack/src/main/cpp/Substrate/SubstrateX86.hpp:190-194 | the emitted load is the intended instruction if and only if the low three bits of the register are not 4 or 5 |
| `X86RipLoad.RipLoadExactly` | alloctrack/src/main/cpp/Substrate/SubstrateHook.cpp:842-854 | every instruction that the pass takes for a load relative to rip is replaced by one that does its work if and only if it is a valid load with REX.W, without segment base and 32-bit address, its register has low bits other than 4 and 5, and its address survives the push |
| `X86RipLoad.NarrowLoadTaken` | alloctrack/src/main/cpp/Substrate/SubstrateHook.cpp:842-854 | 8b without REX.W is taken for such a load, and never meets that condition |
| `X86Theorem.StepSimulated` | alloctrack/src/main/cpp/Substrate/SubstrateHook.cpp:836-889 | every step of the original prologue that reads no dirt is answered by at most eight steps of the buffer, keeping registers, flags and all memory but the dirt equal |
| `X86Theorem.ReturnSimulated` | alloctrack/src/main/cpp/Substrate/SubstrateHook.cpp:857-867 | when a callee returns, original and buffer go on at the same instruction or leave together |
| `X86Theorem.RunSimulated` | alloctrack/src/main/cpp/Substrate/SubstrateHook.cpp:836-891 | any number of steps of the original is matched by the buffer |
| `X86Theorem.DirtIsBelow` | alloctrack/src/main/cpp/Substrate/SubstrateHook.cpp:844-849 | the dirt is nothing but eight-byte slots below stack pointers that the original had on its way, and what was dirty before |
| `X86Theorem.RelocationPreservesMeaning` | alloctrack/src/main/cpp/Substrate/SubstrateHook.cpp:836-891 | started alike, the function and its relocated copy leave the prologue at the same address with equal registers, flags and memory but for dirt, or call the same function with matching return addresses |
| `X86Decoded.DecoderUnderstands` | alloctrack/src/main/cpp/Substrate/SubstrateHook.cpp:831-835 | with the real decoder in place, every instruction that the machine knows meets the premises of the theorem once its addresses are in reach of the emitted code |
| `X86Decoded.FrameValid` | alloctrack/src/main/cpp/Substrate/SubstrateHook.cpp:836-891 | the window push rbp; mov rbp, rsp; sub rsp, n meets every premise of the theorem |
| `X86Decoded.FramePreserved` | alloctrack/src/main/cpp/Substrate/SubstrateHook.cpp:836-891 | so its copy, as the decoder and both passes make it, leaves with the same state, for every n and every place of the buffer |
| `X86Decoded.FramesKnown` | alloctrack/src/main/cpp/Substrate/SubstrateHook.cpp:836-891 | there is a machine on which those three instructions do what they do |
| `Thumb.WidthAgrees` | alloctrack/src/main/cpp/Substrate/SubstrateHook.cpp:111-146 | the classification steps over exactly as many halfwords as the scan, and looks at a second one only where the instruction has one |
| `ThumbLayout.Scan` | alloctrack/src/main/cpp/Substrate/SubstrateHook.cpp:187-197 | the window is the shortest run of whole instructions that covers the six or seven halfwords to be overwritten |
| `ThumbLayout.SizingPass` | alloctrack/src/main/cpp/Substrate/SubstrateHook.cpp:207-227 | the length is twice the halfwords of code and pool that the second pass writes |
| `ThumbLayout.EmissionPass` | alloctrack/src/main/cpp/Substrate/SubstrateHook.cpp:248-509 | every instruction is written at the front and its literals at the back of the free part, which ends at exactly six halfwords; it gives up if and only if an add has a high destination |
| `ThumbLayout.Relocate` | alloctrack/src/main/cpp/Substrate/SubstrateHook.cpp:187-516 | the whole relocation: every instruction of the window stands in the buffer and the stub behind the window fills the rest |
| `ThumbReach.CompareReaches` | alloctrack/src/main/cpp/Substrate/SubstrateHook.cpp:418-418 | the stub of cbz is reached if and only if it is at most 126 bytes ahead |
| `ThumbReach.BranchReaches` | alloctrack/src/main/cpp/Substrate/SubstrateHook.cpp:286-286 | the stub of a conditional branch is always in reach, under the same condition |
| `ThumbReach.LoadReaches` | alloctrack/src/main/cpp/Substrate/SubstrateHook.cpp:262-262 | a pc-relative load reads exactly the literal that its label names, on either halfword of a word |
| `ThumbReach.StubLoads` | alloctrack/src/main/cpp/Substrate/SubstrateHook.cpp:511-516 | bx pc in a stub goes on in ARM state behind the nop, where the load reads the word with the target |
| `ThumbReach.CallLiteral` | alloctrack/src/main/cpp/Substrate/SubstrateHook.cpp:369-385 | the literal of bl is its target, that of blx if and only if the instruction is word-aligned |
| `ThumbWindow.WindowWorks` | alloctrack/src/main/cpp/Substrate/SubstrateHook.cpp:248-516 | every relocated window leads back behind itself, and does what the function's first instructions do, under the same pending conditions, if and only if each of them fits and no condition reaches past them; each replacement alone keeps its meaning if and only if its instruction fits |
| `ThumbReach.OtherPc` | alloctrack/src/main/cpp/Substrate/SubstrateHook.cpp:503-508 | an instruction that is copied finds the pc that it found in the function if and only if it does not read it |
| `ThumbIt.RunsAsOneExactly` | alloctrack/src/main/cpp/Substrate/SubstrateHook.cpp:248-509 | n instructions in the place of one run under its condition, and leave the following ones theirs, if and only if n is one or no condition is pending |
| `ThumbWindow.Counted` | alloctrack/src/main/cpp/Substrate/SubstrateHook.cpp:248-509 | how many instructions each replacement is |
| `ThumbWindow.ManyCompares` | alloctrack/src/main/cpp/Substrate/SubstrateHook.cpp:390-441 | in a window of nothing but cbz and cbnz only the last four fit |
| `ThumbWindow.Misfits` | alloctrack/src/main/cpp/Substrate/SubstrateHook.cpp:346-473 | no blx off a word boundary and no 32-bit load of the pc fits, whatever the offset |
| `ThumbWindow.ShortReaders` | alloctrack/src/main/cpp/Substrate/SubstrateHook.cpp:506-508 | 16-bit readers of the pc that are copied do not fit: adr, the unconditional b, mov rd, pc; add pc, rm; bx pc, for every offset and register |
| `ThumbWindow.TableBranches` | alloctrack/src/main/cpp/Substrate/SubstrateHook.cpp:503-505 | nor do tbb and tbh, for every pair of registers |
| `ThumbWindow.WideAddresses` | alloctrack/src/main/cpp/Substrate/SubstrateHook.cpp:503-505 | nor does the 32-bit adr |
| `ThumbWindow.LabelLoads` | alloctrack/src/main/cpp/Substrate/SubstrateHook.cpp:503-505 | nor do ldrb, ldrh, ldrsb and ldrsh with a label |
| `ThumbWindow.LongLoads` | alloctrack/src/main/cpp/Substrate/SubstrateHook.cpp:503-505 | nor do ldrd, vldr and ldc with a label |
| `ThumbWindow.WideReaders` | alloctrack/src/main/cpp/Substrate/SubstrateHook.cpp:503-505 | every 32-bit instruction that reads the pc and is not replaced is copied, and does not fit |
| `ThumbWindow.BehindIt` | alloctrack/src/main/cpp/Substrate/SubstrateHook.cpp:250-509 | behind an IT instruction with a condition no replacement of several instructions fits, and no window may end there |
| `ThumbWindow.LiteralInTheWindow` | alloctrack/src/main/cpp/Substrate/SubstrateHook.cpp:533-547 | a literal is outside the overwritten window if and only if its offset leads past the end |
| `ThumbWindow.TargetInTheWindow` | alloctrack/src/main/cpp/Substrate/SubstrateHook.cpp:533-547 | a conditional branch back is outside it if and only if it goes back by more than there is before it |
| `Hooks.FreshId` | ThreadHook/src/main/cpp/linker/hooks.cpp:65-67 | a new id is not in use if and only if fewer than 2^32 ids were allocated |
| `Hooks.IdLeadsBack` | ThreadHook/src/main/cpp/linker/hooks.cpp:138-143 | both indexes agree: the id of every info leads back to it while ids are unique |
| `Hooks.IdsUnique` | ThreadHook/src/main/cpp/linker/hooks.cpp:65-67 | no two infos have the same id while no more than 2^32 were allocated |
| `Hooks.RunListForever` | ThreadHook/src/main/cpp/linker/hooks.cpp:91-105 | once an id is in use, its run list is never empty again and always starts with the same original, even after REMOVED_FULLY |
| `Hooks.NewRunList` | ThreadHook/src/main/cpp/linker/hooks.cpp:130-144 | a new hook's run list is the original and the hook if and only if the id counter has not wrapped |
| `HooksObject.Globals.Add` | ThreadHook/src/main/cpp/linker/hooks.cpp:107-145 | the objects behind both maps and the result follow the specified registry |
| `HooksObject.Globals.Remove` | ThreadHook/src/main/cpp/linker/hooks.cpp:147-200 | the same of remove, and previous_function is set exactly in the two cases that take a hook out |
| `HooksObject.Globals.GetRunList` | ThreadHook/src/main/cpp/linker/hooks.cpp:91-105 | the run list of the registry, empty for an id that is not registered |
| `HooksObject.Globals.ListSize` | ThreadHook/src/main/cpp/linker/hooks.cpp:76-89 | how many entries that list has, or -1 for an id that is not registered |
| `Linker.SlotsFollowHooks` | ThreadHook/src/main/cpp/linker/linker.cpp:163-193 | after any sequence of hooks and unhooks a slot is registered and holds its trampoline exactly while a hook is in force, and otherwise its first value; the abort is never reached |
| `Linker.Restored` | ThreadHook/src/main/cpp/linker/linker.cpp:287-329 | when each hook was removed as often as added, in any order, the slot holds its first value again and is unregistered if and only if no hook equal to the original was ever added |
| `Linker.UnhookSays` | ThreadHook/src/main/cpp/linker/linker.cpp:302-332 | an unhook succeeds if and only if the hook is in force and is not the original |
| `Linker.TrampolinesFindOriginal` | ThreadHook/src/main/cpp/linker/linker.cpp:187-193 | every trampoline ever written finds a run list that starts with the slot's first value |
| `LinkerObject.Patcher.PatchForHook` | ThreadHook/src/main/cpp/linker/linker.cpp:118-194 | the slot, the registry, the trampolines and the result follow the specified hook, whether or not the slot can be written |
| `Linker.FailedPatchSticks` | ThreadHook/src/main/cpp/linker/linker.cpp:154-194 | a first hook whose write fails stays entered: after any further hooks the next one of that slot is reported as done, while the slot still holds the original |
| `LinkerObject.Patcher.UnhookEntry` | ThreadHook/src/main/cpp/linker/linker.cpp:297-333 | the slot, the registry and the outcome follow the specified unhook |
| `LinkerObject.Patcher.VerifyEntry` | ThreadHook/src/main/cpp/linker/linker.cpp:196-220 | true if and only if the slot is hooked already or dladdr names the wanted symbol |
| `LinkerObject.Patcher.HookEntries` | ThreadHook/src/main/cpp/linker/linker.cpp:258-271 | exactly the slots that verify when it is their turn are hooked, in order; successes and failures add up to all slots |
| `LinkerObject.Patcher.HookSingleLib` | ThreadHook/src/main/cpp/linker/linker.cpp:239-276 | hooks exactly the verifying slots of the valid specs in order, each spec's hook_result grows by its own successes, and the failures are the invalid specs and the refused slots |
| `LinkerObject.Patcher.UnhookEntries` | ThreadHook/src/main/cpp/linker/linker.cpp:297-333 | every slot is unhooked in order; a slot that is not hooked counts neither way |
| `LinkerObject.Patcher.UnhookSingleLib` | ThreadHook/src/main/cpp/linker/linker.cpp:278-339 | the same over all specs, with each hook_result and the failure total |
| `Trampoline.ChainDescends` | ThreadHook/src/main/cpp/linker/trampoline.cpp:235-251 | repeated CALL_PREV strictly descends in the run list and ends at the original function |
| `Trampoline.AllRunInReverse` | ThreadHook/src/main/cpp/linker/trampoline.cpp:235-251 | from the last entry every hook runs once in reverse order if and only if no entry occurs twice |
| `Trampoline.PopsMatchPushes` | ThreadHook/src/main/cpp/linker/trampoline.cpp:147-171 | in every well-nested run each pop returns the return address of its own push |
| `Trampoline.HookStack.Push` | ThreadHook/src/main/cpp/linker/trampoline.cpp:147-163 | returns the last entry of the run list and pushes a frame, or aborts exactly if there is no run list |
| `Trampoline.HookStack.GetPrevious` | ThreadHook/src/main/cpp/linker/trampoline.cpp:235-251 | the entry before the first occurrence of the hook, or one of the three aborts |
| `Trampoline.Allocator.Allocate` | ThreadHook/src/main/cpp/linker/trampoline.cpp:81-118 | pieces are aligned and never overlap; it fails exactly for more than a block |
| `Md5Rounds.Round1` | app/src/main/cpp/md5.cpp:219-235 | the unrolled lines of round 1 are the sixteen table-driven operations of section 3.4 of RFC 1321 |
| `Md5Rounds.Round2` | app/src/main/cpp/md5.cpp:237-253 | the same of round 2 |
| `Md5Rounds.Round3` | app/src/main/cpp/md5.cpp:255-271 | the same of round 3 |
| `Md5Rounds.Round4` | app/src/main/cpp/md5.cpp:273-289 | the same of round 4 |
| `Md5Spec.MachineIsLawful` | app/src/main/cpp/md5.cpp:25-58 | the 32-bit additions of the macros may be regrouped as the unrolled lines do |
| `Md5Object.MD5.Transform` | app/src/main/cpp/md5.cpp:213-295 | transform is the compression function of the standard |
| `Md5Object.MD5.Update` | app/src/main/cpp/md5.cpp:145-177 | for exactly the lengths for which update comes to an end, the stream grows by exactly the input: count, state and buffered tail |
| `Md5.EndsExactly` | app/src/main/cpp/md5.cpp:167-167 | the loop on a 32-bit index comes to an end if and only if the index and the length are safe; otherwise, as for every length from 2^32 on, no test ever stops it |
| `Md5.SafeExactly` | app/src/main/cpp/md5.cpp:167-167 | the loop tests i + 63 < length right all the way if and only if the index and the length are safe |
| `Md5.SafeLengths` | app/src/main/cpp/md5.cpp:167-167 | every length up to 2^32 - 64 is safe |
| `Md5Object.MD5.GetDigest` | app/src/main/cpp/md5.cpp:93-99 | the digest is that of sections 3.1 to 3.5 of RFC 1321, and what it does to the stream is stated |
| `Md5Object.DigestOfPieces` | app/src/main/cpp/md5.cpp:93-210 | however a message is cut into pieces, the digest is the MD5 of the whole |
| `Md5Object.MD5.UpdateStream` | app/src/main/cpp/md5.cpp:125-139 | pieces delivered by a stream, empty ones included, append to the message |
| `Md5Object.MD5.Reset` | app/src/main/cpp/md5.cpp:102-112 | the stream starts again with the empty message |
| `Md5.RestoredExactlyIf` | app/src/main/cpp/md5.cpp:182-210 | a digest restores the stream if and only if fewer than 56 bytes were buffered or the tail equals what final leaves there |
| `Md5.SecondDigestKeeps` | app/src/main/cpp/md5.cpp:182-210 | a second digest changes nothing more |
| `SymbolLookup.GnuHash` | ThreadHook/src/main/cpp/linker/elfSharedLibData.cpp:73-80 | the loop computes its specified function for signed and unsigned char |
| `SymbolLookup.HashExactlyIf` | ThreadHook/src/main/cpp/linker/elfSharedLibData.cpp:73-80 | gnuhash is the hash of the format if and only if char is unsigned or a weighted count of the characters above 127 is a multiple of 2^24, and otherwise the two differ beyond the lowest bit |
| `SymbolLookup.OneHighChar` | ThreadHook/src/main/cpp/linker/elfSharedLibData.cpp:73-80 | a single such character at the end of the name makes the hash wrong |
| `SymbolLookup.SevenBitAgrees` | ThreadHook/src/main/cpp/linker/elfSharedLibData.cpp:73-80 | seven-bit names are hashed right everywhere |
| `SymbolLookup.ElfHashIsStandard` | ThreadHook/src/main/cpp/linker/elfSharedLibData.cpp:61-71 | elfhash is the hash of the format where char is unsigned and for seven-bit names |
| `SymbolLookup.BloomTest` | ThreadHook/src/main/cpp/linker/elfSharedLibData.cpp:267-278 | the masked word index is the remainder by the filter size, and both bits are tested |
| `SymbolLookup.WalkChain` | ThreadHook/src/main/cpp/linker/elfSharedLibData.cpp:287-295 | stops at the first match that ignores the lowest hash bit, or at the end mark |
| `SymbolLookup.GnuFind` | ThreadHook/src/main/cpp/linker/elfSharedLibData.cpp:265-298 | on a well-formed table it finds exactly what a linear search finds when the name is hashed right, and nothing otherwise |
| `SymbolLookup.ElfFind` | ThreadHook/src/main/cpp/linker/elfSharedLibData.cpp:250-261 | on a table built with the hash of the format it finds the first symbol of the name on the bucket's path, if the code's hash leads to that bucket |
| `SymbolLookup.ElfFindsAll` | ThreadHook/src/main/cpp/linker/elfSharedLibData.cpp:250-261 | that path holds a symbol of the name if and only if the table does |
| `SymbolLookup.FindSymbol` | ThreadHook/src/main/cpp/linker/elfSharedLibData.cpp:222-248 | the library's table first, GNU or ELF, then the PLT relocations, then the others; whatever is found has the name |
| `SymbolLookup.TableMissesNothing` | ThreadHook/src/main/cpp/linker/elfSharedLibData.cpp:222-298 | where char is unsigned, and for seven-bit names, either table finds nothing if and only if no exported symbol has the name |
| `SymbolLookup.ElfHashExactlyIf` | ThreadHook/src/main/cpp/linker/elfSharedLibData.cpp:61-71 | where char is signed, elfhash is the hash of the format if and only if no character is above 127, or before the last such character the hash was ahead by exactly 16, modulo 2^28 |
| `SymbolLookup.ElfTurnRight` | ThreadHook/src/main/cpp/linker/elfSharedLibData.cpp:61-71 | the same for one character more, whatever the name before it |
| `SymbolLookup.ElfOneHighChar` | ThreadHook/src/main/cpp/linker/elfSharedLibData.cpp:61-71 | so a single character above 127 makes it wrong, wherever it stands |
| `SymbolLookup.ElfTwoHighChars` | ThreadHook/src/main/cpp/linker/elfSharedLibData.cpp:61-71 | names in which two of them cancel out |
| `SymbolLookup.GetPltRelocations` | ThreadHook/src/main/cpp/linker/elfSharedLibData.cpp:314-335 | the slots in order of the relocations |
| `SymbolLookup.SlotFound` | ThreadHook/src/main/cpp/linker/elfSharedLibData.cpp:314-335 | a slot is among them if and only if a relocation of the kind and the symbol is for it |
| `Bits.AndMask` | ThreadHook/src/main/cpp/linker/elfSharedLibData.cpp:178-181 | masking with a power of two less one is the remainder |
| `Bits.PowerTest` | ThreadHook/src/main/cpp/linker/elfSharedLibData.cpp:173-176 | the test (x - 1) & x == 0 holds exactly of zero and the powers of two |
| `Bits.XorShift` | ThreadHook/src/main/cpp/linker/elfSharedLibData.cpp:289-292 | (x ^ y) >> 1 == 0 says that the two agree but for the lowest bit |
| `HeapRoundTrip.ReadsBack` | DumpPrinter/src/com/dodola/alloc/dump/HandleHeap.java:200-273 | every buffer that holds a message in the documented format is read as exactly the entries of the message, with their names translated |
| `HeapWriter.RoundTrip` | DumpPrinter/src/com/dodola/alloc/dump/HandleHeap.java:171-198 | what a writer of the format produces is read back |
| `HeapRoundTrip.ReadFrame` | DumpPrinter/src/com/dodola/alloc/dump/HandleHeap.java:248-266 | a frame is read right, and reading goes on at the next frame if and only if frames are eight bytes long |
| `HeapNames.DescriptorNames` | DumpPrinter/src/com/dodola/alloc/dump/HandleHeap.java:116-153 | the descriptor of every type becomes the name of that type |
| `HeapNames.NameKept` | DumpPrinter/src/com/dodola/alloc/dump/HandleHeap.java:116-153 | a method or file name is left alone if and only if it does not look like a descriptor |
| `HeapNames.MangledName` | DumpPrinter/src/com/dodola/alloc/dump/HandleHeap.java:116-153 | a method called I is listed as int |
| `HeapSort.CompareExact` | DumpPrinter/src/com/dodola/alloc/dump/AllocationInfo.java:44-46 | compareTo tells the order of two sizes if and only if the subtraction does not overflow |
| `HeapSort.SortedStable` | DumpPrinter/src/com/dodola/alloc/dump/HandleHeap.java:270-272 | biggest first, and equal sizes in the order they had, when no comparison overflows |
| `HeapSort.SortUnique` | DumpPrinter/src/com/dodola/alloc/dump/HandleHeap.java:270-272 | a stable sort has only one possible result, so that of the library is this one |
| `HandleHeap.DescriptorToDot` | DumpPrinter/src/com/dodola/alloc/dump/HandleHeap.java:116-153 | the loops over brackets compute the specified name |
| `HandleHeap.ReadStringTable` | DumpPrinter/src/com/dodola/alloc/dump/HandleHeap.java:161-169 | fills the array with the table's strings and moves behind them, or throws exactly where the specification fails |
| `HandleHeap.HandleRecentAlloc` | DumpPrinter/src/com/dodola/alloc/dump/HandleHeap.java:200-273 | returns the sorted list of what the buffer holds, or throws exactly if the reading function fails |
| `HandleHeap.Handled` | DumpPrinter/src/com/dodola/alloc/dump/HandleHeap.java:200-273 | from a message in the format comes a stable descending permutation of exactly its entries when no size is negative |

## Left out

- The PIPE strategy of the phaser: a late entrant can post a byte that the next drain takes, so the grace period is claimed for the FUTEX strategy that Linux builds use.
- Weak memory orders: the step systems are sequentially consistent.
- setjmp's rule about local variables that are not volatile; the jump is a control step.
- Writes that only the lock holder can see are merged with its next visible write, and the copy of a struct sigaction is one step.
- Node numbers and sections are not reused, so a use after free is a touch of a freed number.
- PhaserWakeup.LostWakeupBound: the number of sections in flight is bounded by a parameter, since the counter has 63 bits for them.
- PhaserWakeup.BoundedDrain: is about runs without new sections, where one number bounds both counters; with new ones PhaserProgress.DrainBounded bounds each counter from when it was set, as any number of sections may have entered through the second one by then.
- PhaserObject.PhaserT.Drain: the rest of the program is a finite schedule of batches, and a step in a batch that is not possible when its turn comes is passed over.
- The ia32 form of the relocation, and the early exits for functions that start with e9 or ff 25.
- X86Theorem.RelocationPreservesMeaning: asks by its premises that the instructions are those of the machine, so that two-byte 0f 8x jumps, loop instructions and other accesses relative to rip are excluded, that none jumps into the window, and that none reads what the emitted code scribbled below the stack pointer before writing it.
- X86Machine: the effects of copied instructions are left open; X86Decoded fixes those of push rbp, mov rbp, rsp and sub rsp, n.
- X86Theorem.ReturnSimulated: what a callee does with its return address, which differs, other than return to it, is not modelled.
- X86Relocate.Patch: making the page writable and flushing caches are not modelled.
- Hde64.LengthBounds: the error flags of the decoder, which Substrate does not read, are left out.
- The ARM state form of SubstrateHookFunction, and the patch of the Thumb function itself.
- ThumbWindow.WindowWorks: the replacements are checked instruction by instruction against decoders of the pc-relative forms and the rules of IT blocks, not run on a machine; they also scribble below the stack pointer, jumps into the window from elsewhere are not looked for, and bl and blx return into the copy.
- Other writers of GOT slots; the GOT lock serialises hooks::add, and Linker.SlotsFollowHooks is about slots that can be written.
- LinkerObject.Patcher.HookSingleLib: dladdr and the symbol lookup are parameters, and a library that is not loaded is one without slots.
- The shifted chains_ pointer of the GNU table, whose chains are indexed by symbol here, and a Bloom filter of size zero.
- SymbolLookup.ElfHashIsStandard: for signed char it is about seven-bit names; SymbolLookup.ElfHashExactlyIf is about all names, in terms of the hash of what stands before the last high character.
- Md5Object.MD5.Update: for the unsafe lengths of Md5.EndsExactly, with which it never ends, what it reads on the way is not modelled.
- The sine table behind the constants of MD5, and its hexadecimal form.
- HeapSort.Sorted: stands for Collections.sort; what that does with a comparison that overflows is not modelled.
- HandleHeap.HandleRecentAlloc: the byte order of the buffer is big-endian, and running out of memory for a huge string is not told from running out of bytes.
- JNI glue, the crash handler, logging, the assembly of the trampolines, and the second copy of the linker under atracehook.
