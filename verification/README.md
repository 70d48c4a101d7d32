# A model of the userspace bypass

The system lifts the user code that runs between system calls, translates it to code that may run in
the kernel, and executes it there, so that a thread goes from one system call to the next without
leaving the kernel. This project models its three hard parts and proves what they are for.

**The translator and its frame.** Guest SP, BP, R12 to R15, IP, FS and GS are virtualised onto the
physical registers R12 to R15 and a stack frame. `Machine` has the shared instruction set, in which an
ordinary instruction is an uninterpreted effect on the values of its operands. `Simulation` has the
relation between host and guest under a register map and what it means for code to implement guest
operations from every related pair of states. `Conflict` is the allocator; its victims are arbitrary, so
its contracts hold for every eviction order. `Templates` and `Translator` are the templates and the
emission loop, `Native` is the processor they are compared with, `Image` the generated file.
`Masking` says which address registers are masked by a pair of shifts, and what the guest sees of it.
`Transparency` has the theorem about whole runs, `DeadFlags` says where flags that a dispatch table or a
mask overwrites go unnoticed, `Divergence` has programs where they do not, and `Limits` the exact
conditions for the templates that are right only sometimes. `Wrapper` and `Chain` carry the theorem through
the entry and exit code and through the chaining loop of the kernel module. `FlagLiveness` and `AddressForm`
are the flag scan and the flattening of addresses.

**The protocol.** `Protocol` is the table of code blocks, `Ownership` all interleavings of kernel and
daemon with the status word as ownership token, `HotCaller` the detector of hot call sites against a log,
`ReturnTargets`, `Links` and `Learning` the return-target analysis, the labels of the generated file and
the learning of missed targets.

**The page-attribute engine.** `PageTree` is the radix tree of section 4.5 of the Intel SDM Volume 3A and
the flat map it stands for, `Cpa` the change of attributes over a range, `Populate` and `Unmap` the
mapping and unmapping of ranges.

Loops and in-place updates of the source are methods and classes; each is proved against a specification
function or relation whose own properties are proved as lemmas. `dafny verify dfyconfig.toml` checks the
whole project.

Where the code and its comments differ, the model follows the code: the comment above `exe_on_call` calls
the second argument the GS base, the code passes 0 (`exe.c:88`), and so does the model; RET with an operand
is translated as RET without one (`special_inst.py:44-47`); PUSH of an immediate stores four bytes
(`special_inst.py:69-72`).

The scan for dead flags goes by substrings of mnemonics (`assist.py:11-25`). On x86 some mnemonics do
otherwise than their class says: NOT is a definer and leaves the flags alone; PXOR, PAND, POR, PADD and
PSUB are definers through the substring and leave them alone; INC leaves CF, and ROL, ROR, CLC, STC, CLD
and STD leave most flags; RCL and RCR read CF; shifts by zero and REPE CMPS of no bytes leave all; SBB,
ADC, DEC and BT have no class. So the whole-run theorems speak of what instructions do, never of their
names; only `DeadFlags.MarkedIsDead`, `DeadFlags.MaskUnseen`, `Transparency.CompiledSupports` and
`FlagLiveness.ClassesHarmless` ask the instructions of the program at hand to keep to their class.

## Model

| member | source | states |
|---|---|---|
| `Simulation.Renamed` | source_codes/ub/zz_disassem/conflict.py:102-128 | an ordinary instruction, uninterpreted in its effect, does the same to related host and guest states once its operands are renamed by an injective register map |
| `Simulation.RenamedFill` | source_codes/ub/zz_disassem/special_inst.py:13-16 | a 64-bit move into a temporary needs only the source resident, and leaves the temporary defined |
| `Simulation.FreeSlot` | source_codes/ub/zz_disassem/conflict.py:62-75 | spilling a resident to its frame slot keeps the relation for the map without it |
| `Simulation.LoadSlot` | source_codes/ub/zz_disassem/conflict.py:76-85 | loading a slot into a free physical register keeps the relation for the map with it |
| `Simulation.LoadIp` | source_codes/ub/zz_disassem/conflict.py:53-85 | materialising the instruction pointer as a constant is what a RIP-relative operand reads |
| `Simulation.Compose` | source_codes/ub/zz_disassem/translation.py:8-17 | code that implements two lists of guest operations, put together, implements their concatenation |
| `Simulation.MaskExact` | source_codes/ub/zz_disassem/normal.py:63-77 | SHL and SHR of an address register keep host and guest related, but for the flags, if and only if the register has its top bit clear |
| `Conflict.RegMap.Resolve` | source_codes/ub/zz_disassem/conflict.py:53-85 | whatever victims are popped, the emitted moves change nothing the guest can see and the map stays injective and anchored; it fails if and only if more registers are to be resolved than idle ones, ordinary victims and stable ones there are; with room, or if SP and BP are not among them, all named registers become resident |
| `Conflict.RegMap.RecoverStable` | source_codes/ub/zz_disassem/conflict.py:87-98 | SP and BP are back in R13 and R12 and the guest state is unchanged; it fails if and only if one was borrowed for something without a slot |
| `Conflict.RegMap.ReleaseIp` | source_codes/ub/zz_disassem/conflict.py:17-23 | afterwards the instruction pointer is not resident and nothing else moved |
| `Conflict.RegMap.ReleaseTemps` | source_codes/ub/zz_disassem/conflict.py:36-39 | afterwards no temporary is resident and the guest state is unchanged |
| `Conflict.RegMap.ApplyMap` | source_codes/ub/zz_disassem/conflict.py:102-128 | the operands renamed, or a failure exactly when one names a register that is not resident |
| `Conflict.RegMap.ReleaseConflict` | source_codes/ub/zz_disassem/conflict.py:25-34 | every resident R12 to R15 is back in its slot, so the map a successor block starts from is valid again |
| `Conflict.NarrowRoom` | source_codes/ub/zz_disassem/conflict.py:57-85 | R14 and R15 suffice for two registers beside SP and BP, counting temporaries already resident |
| `Conflict.RoomForTemp` | source_codes/ub/zz_disassem/conflict.py:53-85 | a single temporary always finds room between lines |
| `Conflict.BorrowsSp` | source_codes/ub/zz_disassem/conflict.py:62-78 | LEA R14, [R12 + R15] at the start of a block: two idle registers and R13 borrowed from SP are just enough |
| `Masking.MaskIsFit` | source_codes/ub/zz_disassem/normal.py:20-31 | only ordinary lines the scan allows are masked, on an address register of theirs other than RSP, RBP and RIP that was not checked before and is checked from then on |
| `Masking.CheckedExact` | source_codes/ub/zz_disassem/normal.py:49-53 | which registers are checked after any operations: the last one that only uses or only rewrites the register decides, and each later one that does both, as MOV RAX, [RAX], turns it round |
| `Masking.CheckedSince` | source_codes/ub/zz_disassem/normal.py:49-53 | without operations that do both, a register is checked if and only if it was the sole base of an access and not rewritten since |
| `Masking.LoadedTwice` | source_codes/ub/zz_disassem/normal.py:49-53 | loading RAX through RAX twice leaves it unchecked |
| `Masking.MaskedIff` | source_codes/ub/zz_disassem/normal.py:20-77 | a line is masked on r if and only if it is ordinary, marked, and r is the one register it uses as sole base that is not checked by the operations before it |
| `Masking.MaskedAgain` | source_codes/ub/zz_disassem/normal.py:49-77 | a pointer loaded into a checked register is masked again |
| `Templates.ProcessNormal` | source_codes/ub/zz_disassem/normal.py:33-79 | if it returns, the emitted code, with the shift pair where one is asked for, implements the instruction on the guest state for every eviction order, the flags clobbered before it by the pair alone, and SP and BP are home; it returns whenever at most two other registers are wanted, and for R12 to R15 and segment bases whenever borrowing SP and BP makes enough |
| `Templates.ProcessPush` | source_codes/ub/zz_disassem/special_inst.py:63-79 | if it returns, the emitted code implements the micro-operations of PUSH, through T1 for memory operands |
| `Templates.ProcessPop` | source_codes/ub/zz_disassem/special_inst.py:82-96 | if it returns, the emitted code implements the micro-operations of POP |
| `Templates.JumpViaReg` | source_codes/ub/zz_disassem/special_inst.py:17-22 | after the write-back the jump target is in R14 and all registers are home |
| `Native.PushAgrees` | source_codes/ub/zz_disassem/special_inst.py:63-79 | the micro-operations of PUSH reach the state the processor reaches, for registers other than RSP and for addresses that do not move with RSP |
| `Native.PopRegAgrees` | source_codes/ub/zz_disassem/special_inst.py:84-86 | POP into a register other than RSP reaches the state the processor reaches |
| `Native.PopMemAgrees` | source_codes/ub/zz_disassem/special_inst.py:87-95 | POP into memory at an address that does not move with RSP uses the address the processor uses |
| `Native.LeaveAgrees` | source_codes/ub/zz_disassem/special_inst.py:48-50 | MOV RSP, RBP followed by the POP template is LEAVE |
| `Native.LineAgrees` | source_codes/ub/zz_disassem/special_inst.py:27-51 | every template that does not transfer control does what the instruction does, up to temporaries and the instruction pointer |
| `Native.CallAgrees` | source_codes/ub/zz_disassem/special_inst.py:33-37 | pushing first and reading the target afterwards is CALL, outside the states `Limits.CallMemExact` and `Limits.CallRegExact` single out |
| `Native.AddressMoves` | source_codes/ub/zz_disassem/special_inst.py:65-77 | moving RSP by d moves an address by d for each time it adds RSP |
| `Native.RetRun` | source_codes/ub/zz_disassem/special_inst.py:44-47 | RET leaves SP eight higher and the return address in T2 |
| `Native.JumpRun` | source_codes/ub/zz_disassem/special_inst.py:8-25 | an indirect jump leaves the guest state alone and its target in T2 or its register |
| `Translator.TranslateLine` | source_codes/ub/zz_disassem/translation.py:8-17 | the dispatch for one line: the host runs the emitted code in step with the native instruction, the flags clobbered before it where the line is masked |
| `Translator.ProcessJump` | source_codes/ub/zz_disassem/special_inst.py:8-25 | the emitted items end with every register home, at the direct label or at the dispatch table of this site with the target in R14 |
| `Translator.TranslateCall` | source_codes/ub/zz_disassem/special_inst.py:33-37 | CALL: the return address on the guest stack, then the jump |
| `Translator.TranslateRet` | source_codes/ub/zz_disassem/special_inst.py:44-47 | RET: the popped address in R14 and control at the dispatch table of this site |
| `Translator.SyscallControl` | source_codes/ub/zz_disassem/special_inst.py:52-54 | with no guest R12 to R15 resident the SYSCALL template leaves all registers home and the address of SYSCALL in R14 |
| `Translator.TranslateControl` | source_codes/ub/zz_disassem/special_inst.py:27-60 | a line that transfers control leaves the block in the native state and the native way |
| `Translator.TranslateBody` | source_codes/ub/zz_disassem/disassem.py:88-117 | the loop over the lines with the scan and the checked registers: after any number of them host and native state are related under the current map, the flags clobbered where the source masks |
| `Translator.TranslateBlock` | source_codes/ub/zz_disassem/disassem.py:68-119 | one block: from every state with all registers home it ends in the native state, with flags clobbered at masked lines, and leaves the native way, whatever was evicted; its labels are exactly the ones its last line calls for |
| `Image.MakeTable` | source_codes/ub/zz_disassem/indirect_jump.py:46-60 | the emitted compare chain of one site |
| `Image.TableRun` | source_codes/ub/zz_disassem/indirect_jump.py:46-60 | the chain goes to the target in R14 if the site lists it, leaving ZF set, and otherwise reports the site |
| `Image.BlockReach` | source_codes/ub/zz_disassem/disassem.py:96-117 | running the lines of a block one by one is as many steps of the processor |
| `Transparency.Compile` | source_codes/ub/zz_disassem/disassem.py:68-119 | the emission loop over all blocks, tables, stubs and exits gives an image the whole-run theorem applies to, and it succeeds when every line needs at most two registers beside RSP and RBP, the template temporary counted |
| `Transparency.OrderFollows` | source_codes/ub/zz_disassem/disassem.py:68 | in the sorted emission order of non-overlapping blocks, a block that runs off its end into a translated block is followed by that block |
| `Transparency.CompiledSupports` | source_codes/ub/zz_disassem/disassem.py:68-119 | what the compiler returns for non-overlapping blocks in address order, whose instructions do with flags what their class says and whose table targets define flags first, is code the whole-run theorem applies to |
| `Transparency.Dispatch` | source_codes/ub/zz_disassem/indirect_jump.py:46-60 | an indirect transfer continues at the translated target, with other flags only where they are dead, or leaves with a miss |
| `Transparency.StubLeaves` | source_codes/ub/zz_disassem/indirect_jump.py:62-70 | a call to a function that was not translated leaves with its address and reason 1 |
| `Transparency.SyscallLeaves` | source_codes/ub/zz_daemon/asm/wrapper.S:46-48 | a system call leaves with reason 0 |
| `Transparency.MissLeaves` | source_codes/ub/zz_daemon/asm/wrapper.S:50-52 | an indirect miss leaves with the site it came from |
| `Transparency.Transparent` | source_codes/ub/zz_disassem/disassem.py:12-119 | transparency of whole runs for every instruction semantics: any run of the image that exits leaves the registers and memory the processor reaches, at its address, for a truthful reason, for programs in which no flag is live, on that semantics, where a dispatch table leads or a register is masked |
| `Limits.SyscallExact` | source_codes/ub/zz_disassem/special_inst.py:52-54 | the SYSCALL template hands over every guest register in all states if and only if none of R12 to R15 is resident |
| `Limits.LostRegister` | source_codes/ub/zz_disassem/special_inst.py:52-54 | a concrete pair of states whose guest register is lost when one is resident |
| `Limits.RetExact` | source_codes/ub/zz_disassem/special_inst.py:44-47 | the RET template ignores its operand: right in all states if and only if the operand adds nothing to SP |
| `Limits.PushImmExact` | source_codes/ub/zz_disassem/special_inst.py:68-72 | PUSH of an immediate stores 32 bits: memory comes out right if and only if the upper half was already there |
| `Limits.CallMemExact` | source_codes/ub/zz_disassem/special_inst.py:33-37 | CALL through memory: in a given register state the target read after the push is the native one in all memories if and only if the address does not move with RSP and the operand is apart from the pushed return address |
| `Limits.CallRegExact` | source_codes/ub/zz_disassem/special_inst.py:33-37 | CALL through a register reads the native target if and only if it is not RSP |
| `Limits.CallFails` | source_codes/ub/zz_disassem/special_inst.py:33-37 | a concrete failing state for each half: CALL [RSP+8], and CALL [RBX] with RBX eight below RSP |
| `Limits.PushRspNever` | source_codes/ub/zz_disassem/special_inst.py:63-72 | PUSH RSP never stores what the processor stores |
| `Limits.PopRspNever` | source_codes/ub/zz_disassem/special_inst.py:82-95 | POP RSP never leaves the RSP the processor leaves |
| `Limits.PushMemExact` | source_codes/ub/zz_disassem/special_inst.py:73-77 | PUSH of memory is right in all memories if and only if the address does not move with RSP |
| `Limits.PopMemExact` | source_codes/ub/zz_disassem/special_inst.py:87-95 | POP into memory is right in all memories if and only if the address does not move with RSP |
| `Limits.MaskedAddress` | source_codes/ub/zz_disassem/normal.py:63-77 | an access through a masked base register goes to the address of the processor if and only if the register has its top bit clear, whatever the displacement |
| `DeadFlags.BlockFlags` | source_codes/ub/zz_disassem/indirect_jump.py:53-56 | a block entered with other flags, dead there, and masked on the way leaves as the processor does and in the same state up to flags that are dead again; nothing is asked of the names of its instructions |
| `DeadFlags.MarkedIsDead` | source_codes/ub/zz_disassem/assist.py:27-37 | flags are dead at every line from which a definer comes first, if the instructions of the program do with flags what their class says; for the classes by name these are the marks of the scan |
| `DeadFlags.MaskUnseen` | source_codes/ub/zz_disassem/normal.py:63-77 | in a block whose instructions keep to their class the masks change nothing: with tame registers it ends exactly as the processor does |
| `DeadFlags.TableEntryExact` | source_codes/ub/zz_disassem/assist.py:27-37 | for any classification, by name or by what the processor does: entering a block with other flags goes unnoticed on every processor that keeps to it and from every state, if and only if the first line that touches flags overwrites them unread |
| `Divergence.TakesOtherBranch` | source_codes/ub/zz_disassem/indirect_jump.py:53-56 | a concrete program with a flag live across a table: the image leaves at an address the processor never reaches |
| `Divergence.NotIsNoDefiner` | source_codes/ub/zz_disassem/assist.py:11-16 | NOT and JZ: the flags are dead at the entry by name, and where NOT leaves flags alone the block goes by the flags it was entered with |
| `Divergence.EntryTakesOtherBranch` | source_codes/ub/zz_lkm/exe.c:83-90 | a concrete thread that resumes at a branch: entered with the flags of the kernel, the round ends at an address the processor never reaches |
| `Wrapper.Cpu.Enter` | source_codes/ub/zz_daemon/asm/wrapper.S:4-42 | the frame holds the callee-saved registers, the two pointers and the guest context in their slots; the guest registers are loaded |
| `Wrapper.Cpu.Leave` | source_codes/ub/zz_daemon/asm/wrapper.S:63-101 | each slot goes to its pt_regs field, each saved register back to the host, and the stack is balanced |
| `Wrapper.Cpu.RoundTrip` | source_codes/ub/zz_daemon/asm/wrapper.S:4-101 | for any body that leaves RSP, RBP and slots 1 to 7 alone the host gets its callee-saved registers and stack back, the body starts from the guest context, and each pt_regs field gets what the body left where that field was loaded |
| `Wrapper.BodyIsHost` | source_codes/ub/zz_daemon/asm/wrapper.S:17-92 | the body starts in the entry state of the translated code, and the fields written on exit are those of its final host state |
| `Wrapper.EntryReady` | source_codes/ub/zz_daemon/asm/wrapper.S:17-42 | entering establishes the relation every block starts from |
| `Wrapper.ExitDescribes` | source_codes/ub/zz_daemon/asm/wrapper.S:63-92 | leaving stores each guest register into the field it was loaded from |
| `Wrapper.EntryDescribes` | source_codes/ub/zz_daemon/asm/wrapper.S:17-42 | the guest state a thread enters with is the one its pt_regs describe |
| `Chain.ServeSyscall` | source_codes/ub/zz_lkm/exe.c:92-102 | the branch that serves a system call computes the next pt_regs |
| `Chain.CallCode` | source_codes/ub/zz_lkm/exe.c:85-90 | a call of the generated function that returns is a round: the kernel has its registers and stack back, and pt_regs and the first argument hold what the compiled code left |
| `Chain.ServedIsNative` | source_codes/ub/zz_lkm/exe.c:92-102 | serving it is executing SYSCALL natively: RIP two past it, RCX equal to it, the result of the call or -38 above 436; only what R11 gets is taken from pt_regs |
| `Chain.RoundFollows` | source_codes/ub/zz_lkm/exe.c:78-119 | one pass of the loop follows the processor, whatever user flags it resumes with, to a system call it then executes, or to an untranslated callee or unlisted target of the named site, as the first argument says |
| `Chain.OnePass` | source_codes/ub/zz_lkm/exe.c:85-102 | frame, compiled code, exit and the system call served: for supported code the thread after one pass is the one the processor makes by one segment |
| `Chain.ChainFollows` | source_codes/ub/zz_lkm/exe.c:69-125 | any number of passes ends in the thread the native program reaches by as many segments that end for the reasons the passes leave |
| `ReturnTargets.Enclosed` | source_codes/ub/zz_disassem/indirect_jump.py:13-20 | a set of blocks closed under edges holds everything reachable from it |
| `ReturnTargets.Analysis.Dfs` | source_codes/ub/zz_disassem/indirect_jump.py:3-20 | terminates on cyclic graphs; exactly the blocks reachable and not yet visited get the return address at their RETs |
| `ReturnTargets.Analysis.Find` | source_codes/ub/zz_disassem/indirect_jump.py:24-44 | sound and complete: every RET reachable from a translated callee lists the return address, everything listed was recorded before or has such a call and path, and the missing callees are exactly the untranslated ones |
| `Links.NamesDistinct` | source_codes/ub/zz_disassem/indirect_jump.py:46-70 | no two units of the generated file carry the same label |
| `Links.Analyse` | source_codes/ub/zz_disassem/indirect_jump.py:24-44 | the analysis run on the recorded table gives what linking relies on |
| `Links.ListedIsBlock` | source_codes/ub/zz_disassem/indirect_jump.py:9-12 | every target a table lists is a block, because recorded targets and return addresses are |
| `Links.LinkClosed` | source_codes/ub/zz_disassem/indirect_jump.py:24-70 | every label a block, table, stub or exit refers to is defined in the file exactly once |
| `Learning.MergeHistory` | source_codes/ub/zz_disassem/memread.py:24-32 | the merged table lists exactly the recorded pairs, each once |
| `Learning.NeverKnown` | source_codes/ub/zz_disassem/indirect_jump.py:46-70 | compiled code never reports a miss it was compiled with |
| `Learning.ReportDecodes` | source_codes/ub/zz_lkm/exe.c:103-114 | what the daemon decodes from the entry after a round is the miss the code left with if the round reports, and nothing otherwise |
| `Learning.NeverTwice` | source_codes/ub/zz_daemon/main.c:100-147 | over every run of reports, each one a reason compiled code can leave for, and reloads, no entry reports the same miss twice and the recorded set only grows |
| `Learning.ReloadLearns` | source_codes/ub/zz_daemon/main.c:120-144 | each reload strictly enlarges what the code of the entry knows, and the shared record if and only if the miss was new to it |
| `Learning.Daemon.CmdHistory` | source_codes/ub/zz_daemon/main.c:36-47 | linear search: found or appended |
| `Learning.Daemon.Serve` | source_codes/ub/zz_daemon/main.c:120-144 | the uploaded binary is compiled from everything recorded for the address, the miss at hand included, whether the command was seen before or not; the directory of an address is made once, from the files of asm, and overwrites no record |
| `FlagLiveness.CheckFlagDefUse` | source_codes/ub/zz_disassem/assist.py:21-37 | the value popped for line i is true exactly when the first flag-classed line at or after i is a definer |
| `FlagLiveness.Readers` | source_codes/ub/zz_disassem/assist.py:3-25 | SETcc, CMOVcc, LAHF and conditional branches are classed as users |
| `FlagLiveness.ClobberHarmless` | source_codes/ub/zz_disassem/assist.py:27-37 | whatever lines really read and overwrite: clobbering at the marks of the scan is unobservable in all cases if and only if, from each marked line on, every flag is overwritten before it is read |
| `FlagLiveness.MarkExact` | source_codes/ub/zz_disassem/assist.py:27-37 | for lines that do with flags what their class says, a line is marked if and only if every flag is overwritten from there before it is read |
| `FlagLiveness.ClassesHarmless` | source_codes/ub/zz_disassem/assist.py:27-37 | for such lines clobbering at the marks is unobservable |
| `FlagLiveness.SbbSeen` | source_codes/ub/zz_disassem/assist.py:11-25 | MOV, SBB, TEST: the MOV is marked and a clobber there shows, because SBB reads CF and has no class |
| `FlagLiveness.NotSeen` | source_codes/ub/zz_disassem/assist.py:11-25 | MOV, NOT, JZ: the MOV is marked and a clobber there shows, because NOT leaves flags alone and is classed as a definer |
| `FlagLiveness.IncSeen` | source_codes/ub/zz_disassem/assist.py:11-25 | MOV, INC, JB: the MOV is marked and a clobber there shows, because INC leaves CF alone |
| `AddressForm.Flat.Add` | source_codes/ub/zz_disassem/normal.py:81-106 | one term of the tree is added to the flat form |
| `AddressForm.Purify` | source_codes/ub/zz_disassem/normal.py:108-128 | a memory operand with its segment base in flat form |
| `AddressForm.PurifiedValue` | source_codes/ub/zz_disassem/normal.py:81-128 | the flat operand has the size given and the tree address up to the displacements it drops, odd scales included |
| `AddressForm.FlattenExact` | source_codes/ub/zz_disassem/normal.py:81-128 | the address is kept in every state if and only if the dropped displacements add up to nothing |
| `AddressForm.FlattenKeeps` | source_codes/ub/zz_disassem/normal.py:81-128 | at most one constant and one scaled register: the 64-bit address is kept |
| `Protocol.Kernel.constructor` | source_codes/ub/zz_lkm/exe.c:27-34 | an empty table with the invariant |
| `Protocol.Kernel.ExeAdd` | source_codes/ub/zz_lkm/exe.c:35-56 | the step function of adding a key; the table invariant is kept |
| `Protocol.Kernel.SysfsStore` | source_codes/ub/zz_lkm/sys.c:38-57 | the chunk and its status are stored if the slot holds the key, nothing happens otherwise; the invariant is kept |
| `Protocol.Kernel.OnReturn` | source_codes/ub/zz_lkm/exe.c:92-114 | one round, field by field: what counts as success and failure; the target and site of a miss are written if and only if it is a miss and failures prevail, and stay otherwise; the invariant is kept |
| `Protocol.Kernel.SysfsShow` | source_codes/ub/zz_lkm/sys.c:22-36 | exactly the used entries in slot order, as many as were added, at most 63*56 bytes of the page |
| `Protocol.AddKeeps` | source_codes/ub/zz_lkm/exe.c:35-56 | every used slot holds a key hashing to it, the used slots are counted by added, and there are at most 63 |
| `Protocol.AddClaims` | source_codes/ub/zz_lkm/exe.c:35-56 | a free slot goes to the key, to be compiled, if and only if fewer than 63 are in use; every other slot stays |
| `Protocol.StoreKeeps` | source_codes/ub/zz_lkm/sys.c:38-57 | an upload keeps the table invariant |
| `Protocol.StoreFields` | source_codes/ub/zz_lkm/sys.c:38-57 | byte by byte and field by field: the chunk and the status in the slot of the key, nothing else |
| `Protocol.ReturnKeeps` | source_codes/ub/zz_lkm/exe.c:92-114 | a returning round keeps the table invariant |
| `Protocol.ReturnRounds` | source_codes/ub/zz_lkm/exe.c:92-114 | the same of the step function, and that the daemon reads the callee, or site and target, of the miss if and only if the round reports |
| `Protocol.KeysDistinct` | source_codes/ub/zz_lkm/exe.c:22-25 | no key occupies two slots |
| `Protocol.ShownCount` | source_codes/ub/zz_lkm/sys.c:28-33 | as many entries are shown as slots are used |
| `Protocol.ShownSlots` | source_codes/ub/zz_lkm/sys.c:22-36 | what is shown is the used entries, each once, in slot order |
| `Ownership.StepKeeps` | source_codes/ub/zz_lkm/exe.c:81-114 | every step of kernel or daemon keeps the invariant; only the kernel moves an entry out of normal, only the daemon out of any other used state, and keys never change |
| `Ownership.RunKeeps` | source_codes/ub/zz_daemon/main.c:68-147 | the invariant and the keys over every interleaving |
| `Ownership.NormalNeverMixed` | source_codes/ub/zz_daemon/main.c:86-97 | in every reachable state the code of a normal slot starts with one complete uploaded image, and a running thread still has the image it entered |
| `Ownership.ChunkFits` | source_codes/ub/zz_daemon/main.c:86-97 | an upload at hand can always send its next packet |
| `Ownership.ReportWaits` | source_codes/ub/zz_lkm/exe.c:103-114 | a round that reports leaves an entry that no step but the next reading of the table concerns |
| `Ownership.ReportReaches` | source_codes/ub/zz_daemon/main.c:100-145 | whatever the kernel and the daemon do between a report and the next reading of the table, the daemon then finds the entry as the round left it |
| `Ownership.WriteSys` | source_codes/ub/zz_daemon/main.c:68-98 | a nonempty image ends up at the start of the block with the slot normal, the rest of the block and all other slots unchanged; an empty one changes nothing |
| `Ownership.PacketsFit` | source_codes/ub/zz_daemon/main.c:79-97 | every packet stays inside a code block if and only if the image does |
| `HotCaller.PerCpu.constructor` | source_codes/ub/zz_lkm/stat.c:15-19 | all zero |
| `HotCaller.PerCpu.Harvest` | source_codes/ub/zz_lkm/stat.c:40-47 | reports the hot sites and clears every counter |
| `HotCaller.PerCpu.Note` | source_codes/ub/zz_lkm/stat.c:57-65 | files one short call |
| `HotCaller.PerCpu.StatFunc` | source_codes/ub/zz_lkm/stat.c:26-71 | the 16 counters stay what a log of the window says and sum to at most call_cnt + 1, and the sites added are exactly the hot ones of a window that closes |
| `HotCaller.Filed` | source_codes/ub/zz_lkm/stat.c:57-65 | after filing, each slot still has the first site hashed there and the exact number of its short calls |
| `HotCaller.HotAreHot` | source_codes/ub/zz_lkm/stat.c:40-47 | the reported keys are exactly the sites with more than 900 short calls in their slot |
| `HotCaller.CountersAre` | source_codes/ub/zz_lkm/stat.c:57-65 | the sixteen counters sum to the total the log determines |
| `HotCaller.TotalBound` | source_codes/ub/zz_lkm/stat.c:55-66 | all counters together do not exceed the short calls of the window |
| `HotCaller.LogRun` | source_codes/ub/zz_lkm/stat.c:35-69 | over every sequence of calls the total of the log is at most call_cnt + 1 and zero outside an interested window |
| `HotCaller.LogIs` | source_codes/ub/zz_lkm/stat.c:26-71 | over every sequence of calls from the zeroed record: counter, window, last noted call and short calls as functions of the calls by index |
| `HotCaller.ShortsByIndex` | source_codes/ub/zz_lkm/stat.c:55-69 | the short calls of a window are exactly the calls less than 1300 ns after the call before them, in order, filed under the address of that call; for the first call of a window that is the last call of a window that counted |
| `HotCaller.WindowsByIndex` | source_codes/ub/zz_lkm/stat.c:35-53 | windows are 30001 calls long, and one counts if and only if the one before took less than 10^9 ns |
| `HotCaller.HotIs` | source_codes/ub/zz_lkm/stat.c:40-47 | a site is hot if and only if it was the first filed at its position and was filed there more than 900 times, as a number of calls |
| `PageTree.LookupAddress` | source_codes/kernel_modify/pageattr.c:567-616 | the four-step walk ends at the entry that translates the page |
| `PageTree.SlowVirtToPhys` | source_codes/kernel_modify/pageattr.c:668-699 | the physical address is the frame of the page and the offset in it if and only if the walk ends at 1G or below or at the start of a 512G entry |
| `PageTree.SetAtMap` | source_codes/kernel_modify/pageattr.c:705-727 | writing one entry changes the translation of exactly the pages under it |
| `PageTree.SplitKeeps` | source_codes/kernel_modify/pageattr.c:940-1043 | the table a 2M or 1G entry is split into translates every page as the entry did, with the same effective protection |
| `PageTree.SplitCount` | source_codes/kernel_modify/pageattr.c:82-89 | one page of the level less and 512 of the next more, unless there is none; the direct-map total in 4K units is conserved |
| `Cpa.CpaData.constructor` | source_codes/kernel_modify/pageattr.c:34-47 | a request over a well-formed tree |
| `Cpa.AskedGets` | source_codes/kernel_modify/pageattr.c:1513-1516 | the computed protection has a flag if and only if it is set, or was there and is not cleared, and for Global if Present is there too |
| `Cpa.CpaData.SplitLargePage` | source_codes/kernel_modify/pageattr.c:940-1043 | no translation or effective protection in the address space changes, the walk ends one level lower, the direct-map total stays |
| `Cpa.WantedAgrees` | source_codes/kernel_modify/pageattr.c:780-803 | changing a large entry in its own format is changing it in 4K format |
| `Cpa.WantedSame` | source_codes/kernel_modify/pageattr.c:795-865 | a large entry is left alone if and only if no flag of its pages changes and its bit 7 is in order |
| `Cpa.CpaData.ShouldSplit` | source_codes/kernel_modify/pageattr.c:746-901 | how many pages it takes on, that it asks for a split if and only if splits are forced or flags change in a page that reaches beyond the request, and that otherwise exactly those pages are changed |
| `Cpa.CpaData.Change4k` | source_codes/kernel_modify/pageattr.c:1508-1539 | the page keeps its frame and gets exactly the flags asked for, flag by flag; a flush is asked for if an entry was written |
| `Cpa.CpaData.Attempt` | source_codes/kernel_modify/pageattr.c:1499-1558 | one pass: done, refused if and only if at a 512G entry, or a split if and only if one is needed, which starts over or fails with nothing changed; starting over is progress if and only if the entry is not a 512G one |
| `Cpa.CpaData.ChangePageAttr` | source_codes/kernel_modify/pageattr.c:1490-1561 | one round handles between 1 and the remaining number of pages, changes exactly those, or fails with no translation changed; it ends |
| `Cpa.CpaData.ChangeRange` | source_codes/kernel_modify/pageattr.c:1622-1666 | zero exactly when the whole range was handled; each page before curpage has exactly the flags asked for, flag by flag, unless the entry written for it reads as empty, holes and all other pages stay; it stops early only at a 512G entry or where a split is needed and no page can be had; the loop ends |
| `Cpa.UpdatedTwice` | source_codes/kernel_modify/pageattr.c:1628-1661 | two adjacent rounds are one change of both ranges |
| `Cpa.ExactIffSteady` | source_codes/kernel_modify/pageattr.c:1622-1666 | every page of the range has its frame and exactly the flags that are set, or were there and are not cleared, Global only beside Present, if and only if no page of frame 0 in it loses all its flags |
| `Cpa.FadeExample` | source_codes/kernel_modify/pageattr.c:1508-1536 | a concrete page of frame 0 whose entry would read as empty |
| `Populate.Request.AllocTable` | source_codes/kernel_modify/pageattr.c:1201-1219 | a table page of empty entries, or the allocation failed |
| `Populate.Request.PopulatePte` | source_codes/kernel_modify/pageattr.c:1221-1238 | the next frames in order for the pages of one PTE page, one 4K entry each, all other pages as before |
| `Populate.Request.PopulatePmd` | source_codes/kernel_modify/pageattr.c:1240-1312 | page k of the range gets frame k, in a 2M page if the whole 2M lies in the range and in a 4K page otherwise; the frame counter advances by exactly the pages mapped; -1 only at a page for which a table is missing and could not be allocated, so never for a range aligned to 2M with its PMD page there |
| `Populate.Request.PopulatePud` | source_codes/kernel_modify/pageattr.c:1314-1390 | the same for a range inside one 512G entry, in a 1G page where the whole 1G lies in the range and such pages may be used; with 1G pages a range aligned to 1G never fails |
| `Populate.OneEntryReaches` | source_codes/kernel_modify/pageattr.c:1373-1385 | one entry cannot map a range that reaches beyond it, which is what the rest without 1G pages would need |
| `Unmap.TryToFree` | source_codes/kernel_modify/pageattr.c:1064-1086 | free if and only if all 512 entries are empty |
| `Unmap.UnmapPteRange` | source_codes/kernel_modify/pageattr.c:1088-1104 | the entries of the range are cleared and the page is freed if and only if it is empty then |
| `Unmap.UnmapPmdEntry` | source_codes/kernel_modify/pageattr.c:1106-1112 | the PMD page goes if and only if it became empty |
| `Unmap.UnmapPmdRange` | source_codes/kernel_modify/pageattr.c:1114-1156 | the entry after removal, computed without touching a freed PMD page |
| `Unmap.UnmapPudRange` | source_codes/kernel_modify/pageattr.c:1158-1199 | the entries of the PUD page after removal; the PUD page stays |
| `Unmap.RemovedAt` | source_codes/kernel_modify/pageattr.c:1064-1199 | after removal exactly the pages of the range are holes and every other page keeps its translation |
| `Unmap.RemovedTight` | source_codes/kernel_modify/pageattr.c:1064-1156 | no PTE or PMD page under the range is left without an entry |
| `Unmap.FilledRemovable` | source_codes/kernel_modify/pageattr.c:1221-1390 | what was just populated may be unmapped: no mapping straddles the range |
| `Unmap.FillThenRemove` | source_codes/kernel_modify/pageattr.c:1064-1390 | populating and then unmapping exactly that range gives back every translation |

## Left out

- Transparency.Transparent: is stated for programs in which flags are dead where dispatch tables lead and where a register is masked; `DeadFlags.TableEntryExact` and `FlagLiveness.ClobberHarmless` give the conditions, `Divergence` and `FlagLiveness.SbbSeen` programs that fail them. The flags at the exit are not stated.
- Transparency.Transparent: is stated for runs that meet no CALL whose target may read differently after the push (`Limits.CallMemExact` and `Limits.CallRegExact` give that condition) and no masked register with its top bit set (`Simulation.MaskExact` and `Limits.MaskedAddress`).
- DeadFlags.TableEntryExact: takes moves, PUSH, POP, LEAVE and transfers as leaving flags alone and a conditional branch as reading them.
- Transparency.Compile: covers blocks of the fragment `Native.GoodBlock`: no PUSH of an immediate, no RET with an operand, no SYSCALL after a line that names R12 to R15, no PUSH or POP of RSP or of an address that moves with RSP; for each `Limits` proves the exact condition.
- Transparency.Compile: success is stated for lines that need at most two registers beside RSP and RBP and for indirect transfers not through R12 to R15, which the source takes from the map without loading them.
- Conflict.RegMap.Resolve: where the Python runs out of victims and raises, the model returns None.
- Masking.CheckedSince: is not true of operations that use a register as base and rewrite it, because the source discards the destination after it has computed what is unchecked; `Masking.CheckedExact` covers those and `Masking.LoadedTwice` is one.
- Wrapper.Cpu.RoundTrip: takes frame slots as disjoint from guest memory, and does not model the fault labels of the wrapper.
- Chain.ServedIsNative: R11 and the user flags are those of pt_regs, as the code leaves them, where the processor would store its own; FS is read from the CPU and GS passed as 0.
- Chain.ChainFollows: takes entries at whose address the flags are dead, because the code is entered with the flags of the kernel; `Divergence.EntryTakesOtherBranch` is a thread that fails this.
- Learning.NeverTwice: takes compilations that include the recorded targets as blocks and tables, as the reading of the table files does.
- Links.LinkClosed: takes recorded targets and the return addresses of direct calls to be blocks of the disassembly.
- Learning.Daemon.CmdHistory: the command history and the record list are unbounded; the fixed array sizes of the daemon are not modelled.
- Ownership.WriteSys: takes images of at most 4096*160 bytes, the size of a code block, which by `Ownership.PacketsFit` is exactly when its packets stay inside one; the daemon itself has no check of this.
- Ownership.StepKeeps: takes `exe_add`, one packet and one round of `exe_on_call` as atomic; an entry is keyed by thread, so at most one CPU runs it.
- Protocol.Kernel.SysfsStore: takes packets that stay inside the block and do not mark a slot unused, as the daemon sends them.
- FlagLiveness.ClobberHarmless: takes the six status flags; the shift pair does not touch DF.
- Masking.MaskIsFit: what masking is for, keeping accesses below 2^63, is not stated; address registers are taken as 64 bits wide.
- AddressForm.FlattenExact: takes at most one scaled register, as an x86 address has.
- PageTree.SlowVirtToPhys: the or of frame and offset is a sum, as well-formed leaves are aligned.
- Cpa.CpaData.ChangeRange: covers the call without alias checks, without an own pgd and without page arrays, where holes count as one handled page; static protections are the identity; with forced splits the tree has no 512G entry, for which by `Cpa.CpaData.Attempt` a pass changes nothing and the source would not end.
- Populate.Request.PopulatePud: takes an unmapped range with virtual and physical alignment congruent, and without 1G pages a rest that fits one 1G entry, because the source maps the rest through a single PUD entry then and by `Populate.OneEntryReaches` one entry cannot map more.
- Populate.Request.PopulatePud: takes a protection that does not have Global without Present, and not frame 0 without flags, which would read as no entry.
- Unmap.UnmapPudRange: takes ranges in which no mapping straddles an end and no PMD or PTE page is missing, since the source dereferences those entries; a freshly populated range is one.
- Page-table pages are values in a tree that is reassigned: aliasing of table pages, the packing of frame and flags into 64 bits and the leak of an empty table overwritten by a large entry are not captured.
- TLB and cache flushing beyond the request flag, locks, memtype reservation, alias processing and the 32-bit branches of `pageattr.c`.
- INVLPG, PUSHF, POPF and prefixed special mnemonics.
- Decoding, its workarounds, the counting and debug modes of `disassem.py`; the model starts from decoded blocks.
- The white-list of the daemon, /proc reads, gcc, files and sysfs plumbing, printing: foreign calls and I/O.
- Allocation is an oracle, clocks and process ids are parameters.
- `common.c`, `fault.c`, `error_handler.h`, the benchmark applications and generated files.
