# Verification of the native library's algorithmic core

This project models, in Dafny, the parts of the native library that compute something, and proves what they promise.

- **The ARM64 hook library** (`Arm64*.dfy`). A small compiler pass lifts the head of a function into a trampoline
  page, rewrites what depends on the program counter, and redirects the function. The model has a machine with
  registers, stack pointer, word memory and abstract flags; the two-ended allocator of code and literals; the encoders;
  and the classes that run them. The main results are that calling a trampoline refines calling the
  unhooked function over whole runs, through the calls in the window and their returns (`Arm64Window`,
  `Arm64Journey`); that over any run of hook requests all live trampolines stay intact in disjoint, allocated words
  (`Arm64InlineHook`); and that after every successful request the original is still callable (`Arm64Hooked`).
  `Arm64Limits` says exactly when the remaining forms are relocated rightly, and `Arm64Example` hooks a concrete
  function. Instructions that neither read the program counter nor are emitted by the library are an arbitrary function
  of the machine state with a footprint (`Arm64Machine.Env`); they may move the link register to memory and back.
- **AES-256 by tables** (`Aes*.dfy`). `AesSpec` is FIPS 197 byte by byte. One law for each table relates the 256
  entries to the S-box and the field; the unrolled rounds are then the byte-level cipher, and the equivalent inverse
  cipher undoes it.
- **Base64, padding and the text encryption** (`Base64.dfy`, `AesPadding.dfy`, `EncryptedText.dfy`). The key is a
  parameter. As shipped, `encryptAES` and `decryptAES` mask the stored key with different bytes (JNIFunc.cpp:1246-1248
  and 1302-1304), so the two calls do not share a key; the round trip is proved for one key on both sides.
- **UTF-8** (`Utf8Grammar.dfy`, `Utf8Validator.dfy`). The table automaton against the grammar of RFC 3629.
- **WebSocket frames** (`WebSocketMask.dfy`, `WebSocketHeader.dfy`). Masking by words and in chunks against the octet
  rule of RFC 6455; headers written and read back. The comment above `word_mask_circ` says that it rewrites the bytes
  after `length` up to the next word; the code touches exactly `length` bytes, and so does the model.
- **The integrity pool** (`Crc32.dfy`, `MemoryPool.dfy`). CRC-32 by table against its definition, what it detects, and
  the pool checksum as an invariant of the list.
- **URIs and the seed configuration** (`Uri.dfy`, `RenderConfig.dfy`).

Most proofs over bit vectors name their operations (`Xor`, `Add`, `Carry1`, ...) and hide the definitions, so that a
composite fact follows from a few laws about the named operations.

Tables of 256, 128 or 64 entries are written as functions that branch on the bits of the index, four entries to a line
in table order; the byte classes of the UTF-8 table are written as ranges and its transitions row by row.

## Model

| member | source | states |
|---|---|---|
| Arm64Bits.SignExtend64 | app/src/main/cpp/Include/Arm64InlineHook/utils.cpp:100-112 | the do-while loop returns the two's complement replication of the tested bit, for every word and every single bit to test |
| Arm64Bytes.Get8 | app/src/main/cpp/Include/Arm64InlineHook/utils.cpp:19-31 | returns the number that the eight bytes stand for, least significant first |
| Arm64Bytes.Set8 | app/src/main/cpp/Include/Arm64InlineHook/utils.cpp:50-60 | stores eight bytes that stand for the value, and no other byte |
| Arm64Bytes.TwoWords | app/src/main/cpp/Include/Arm64InlineHook/utils.cpp:19-60 | eight bytes are two 32-bit words, lower one first, as the word memory of the machine has them |
| Arm64Classify.Parse | app/src/main/cpp/Include/Arm64InlineHook/arm64_instruction.cpp:11-21 | the scan of the mask table gives every word the architectural class that the table encodes |
| Arm64Classify.ClassifyIsFirstMatch | app/src/main/cpp/Include/Arm64InlineHook/arm64_instruction_types.cpp:9-22 | a row that matches, with no earlier one matching, is the class of the word |
| Arm64Classify.ClassifyWithoutMatch | app/src/main/cpp/Include/Arm64InlineHook/arm64_instruction_types.cpp:9-22 | a word that no row matches is not position-dependent |
| Arm64Classify.TestBranchRowsNeverMatch | app/src/main/cpp/Include/Arm64InlineHook/arm64_instruction_types.cpp:15-16 | the TBNZ and TBZ rows match no word at all, because their codes have a bit outside their masks |
| Arm64EncodeProofs.DecodeLdrLiteral | app/src/main/cpp/Include/Arm64InlineHook/arm64_inlinehook.cpp:170-207 | the emitted `ldr` decodes to a load of its register from exactly the literal, for every literal in range |
| Arm64EncodeProofs.DecodeLdrRtRn | app/src/main/cpp/Include/Arm64InlineHook/arm64_inlinehook.cpp:209-222 | the emitted reload decodes to a plain 64-bit load of a register through itself |
| Arm64EncodeProofs.DecodeAdrp | app/src/main/cpp/Include/Arm64InlineHook/arm64_inlinehook.cpp:98-109 | whenever `can_use_adrp` holds, in either direction, the emitted ADRP decodes to exactly the page distance |
| Arm64EncodeProofs.UsableAdrp | app/src/main/cpp/Include/Arm64InlineHook/arm64_inlinehook.cpp:150-168 | `can_use_adrp` holds exactly for pages less than 2^20 apart |
| Arm64EncodeProofs.FixedFields | app/src/main/cpp/Include/Arm64InlineHook/arm64_inlinehook.cpp:393-441 | the fixed words are the NOP and the unscaled store and load of x17 sixteen bytes below the stack pointer |
| Arm64EncodeProofs.DecodeAddX17 | app/src/main/cpp/Include/Arm64InlineHook/arm64_inlinehook.cpp:224-247 | the emitted ADD decodes to adding the twelve page-offset bits to x17 |
| Arm64EncodeProofs.DecodeBranchRegister | app/src/main/cpp/Include/Arm64InlineHook/arm64_inlinehook.cpp:249-255 | the emitted br or blr decodes to the register branch it stands for |
| Arm64EncodeProofs.DecodeUncondBranch | app/src/main/cpp/Include/Arm64InlineHook/arm64_inlinehook.cpp:261-267 | the emitted b decodes to exactly the displacement, for every 4-aligned one within 2^27 |
| Arm64EncodeProofs.DecodeWithImm19Of2 | app/src/main/cpp/Include/Arm64InlineHook/arm64_inlinehook.cpp:314-332 | a rewritten b.cond, cbz or cbnz keeps its class and gets displacement 8 |
| Arm64EncodeProofs.TakenWithImm19Of2 | app/src/main/cpp/Include/Arm64InlineHook/arm64_inlinehook.cpp:314-332 | and is taken in exactly the states in which the original is |
| Arm64Blocks.RunPageJump | app/src/main/cpp/Include/Arm64InlineHook/arm64_inlinehook.cpp:150-168 | executing ADRP, ADD and br reaches exactly the target with only x17 changed, to the target |
| Arm64Blocks.RunLiteralJump | app/src/main/cpp/Include/Arm64InlineHook/arm64_inlinehook.cpp:300-313 | `ldr x17, =literal; br/blr x17` reaches the literal's value and sets the link register only for blr |
| Arm64Blocks.RunJump | app/src/main/cpp/Include/Arm64InlineHook/arm64_inlinehook.cpp:98-109 | the three-word jump reaches its target in both the page-relative and the literal form |
| Arm64Targets.BranchAddress | app/src/main/cpp/Include/Arm64InlineHook/arm64_inlinehook.cpp:520-535 | the visitor's address for b and bl is the architecture's, wrap-around included |
| Arm64Targets.CondBranchAddress | app/src/main/cpp/Include/Arm64InlineHook/arm64_inlinehook.cpp:536-559 | the same for b.cond, cbz and cbnz |
| Arm64Targets.AdrAddress | app/src/main/cpp/Include/Arm64InlineHook/arm64_inlinehook.cpp:587-598 | the same for adr |
| Arm64Targets.AdrpAddress | app/src/main/cpp/Include/Arm64InlineHook/arm64_inlinehook.cpp:576-586 | the same for adrp |
| Arm64Targets.LiteralAddress | app/src/main/cpp/Include/Arm64InlineHook/arm64_inlinehook.cpp:599-625 | the address of every literal load, whatever its width, sign or register file, is the architecture's if and only if the offset is not negative (the code does not sign-extend it) |
| Arm64InlineHook.InlineHook.AllocNewSpace | app/src/main/cpp/Include/Arm64InlineHook/mem_manager.cpp:17-38 | a fresh zeroed page, appended to the list, with the cursors at its two ends and nothing else changed |
| Arm64InlineHook.InlineHook.EnsureEnoughSpace | app/src/main/cpp/Include/Arm64InlineHook/arm64_inlinehook.cpp:393-441 | with 24 bytes left on entry the abort is unreachable; afterwards 52 are left, a page is mapped only if one is needed, and the words of the chain jump were free and are now accounted for |
| Arm64InlineHook.InlineHook.VisitPcRelatedInst | app/src/main/cpp/Include/Arm64InlineHook/arm64_inlinehook.cpp:506-649 | reserves code and an 8-aligned literal from the free stretch and records the address the instruction refers to |
| Arm64InlineHook.InlineHook.VisitPcNoRelatedInst | app/src/main/cpp/Include/Arm64InlineHook/arm64_inlinehook.cpp:659-668 | reserves one code word for an instruction copied verbatim |
| Arm64InlineHook.InlineHook.AlignWith | app/src/main/cpp/Include/Arm64InlineHook/arm64_inlinehook.cpp:506-511 | a NOP keeps the 8-byte alignment of the original address |
| Arm64InlineHook.InlineHook.DecodeInst | app/src/main/cpp/Include/Arm64InlineHook/arm64_inlinehook.cpp:465-477 | stops at the end of the window or when enough is lifted; a word that an earlier instruction loads as data is not parsed |
| Arm64InlineHook.InlineHook.LiftNext | app/src/main/cpp/Include/Arm64InlineHook/arm64_inlinehook.cpp:480-504 | one round keeps every invariant of the allocator and extends the draft trampoline by one placed instruction |
| Arm64InlineHook.InlineHook.AnalysisRelatePC | app/src/main/cpp/Include/Arm64InlineHook/arm64_inlinehook.cpp:651-657 | exactly the instructions that refer into the lifted window are linked to the instruction they refer to |
| Arm64InlineHook.InlineHook.WriteBlock | app/src/main/cpp/Include/Arm64InlineHook/arm64_inlinehook.cpp:286-390 | writes the rewritten form of one instruction and its literal, and no other word |
| Arm64InlineHook.InlineHook.TransformInstList | app/src/main/cpp/Include/Arm64InlineHook/arm64_inlinehook.cpp:286-390 | after the loop every block of the draft is in memory |
| Arm64InlineHook.InlineHook.Process | app/src/main/cpp/Include/Arm64InlineHook/arm64_inlinehook.cpp:480-504 | lifts exactly the instructions that the scan of the window's words prescribes |
| Arm64InlineHook.InlineHook.FinishProcess | app/src/main/cpp/Include/Arm64InlineHook/arm64_inlinehook.cpp:684-718 | either the finished trampoline with its exit jump, or the cursors given back |
| Arm64InlineHook.InlineHook.Reset | app/src/main/cpp/Include/Arm64InlineHook/arm64_inlinehook.cpp:670-682 | starts a draft with empty lists at the current cursors |
| Arm64InlineHook.InlineHook.HookFunction | app/src/main/cpp/Include/Arm64InlineHook/arm64_inlinehook.cpp:720-779 | over any run of calls: succeeds exactly when the window is liftable; every literal load that starts under the patch is then lifted with its whole literal, and no instruction more than the patch or some data needs; a refusal means that some data ends beyond the 24 bytes that can be lifted; on success the function jumps to the hook and a new live trampoline starts at the returned address; otherwise hooks and cursors are as before; at most one page is mapped, and none while 220 bytes are left; nothing else outside the pages changes, and all live trampolines stay intact |
| Arm64InlineHook.InlineHook.constructor | app/src/main/cpp/Include/Arm64InlineHook/mem_manager.cpp:17-38 | starts with one page and no hooks, with every invariant in place |
| Arm64InlineHook.LiftableWithoutLiterals | app/src/main/cpp/Include/Arm64InlineHook/arm64_inlinehook.cpp:684-718 | a window with no literal inside is liftable, so hooking it succeeds |
| Arm64InlineHook.ScanGrows | app/src/main/cpp/Include/Arm64InlineHook/arm64_inlinehook.cpp:480-504 | the amount to lift only grows during the scan |
| Arm64InlineHook.StretchDecides | app/src/main/cpp/Include/Arm64InlineHook/arm64_inlinehook.cpp:684-689 | the comparison at the end succeeds when the lifted stretch holds the patch and every literal under it, and otherwise some data reaches beyond 24 bytes |
| Arm64InlineHook.StretchNext | app/src/main/cpp/Include/Arm64InlineHook/arm64_inlinehook.cpp:641-648 | one visited instruction moves the split size exactly as far as its data asks for |
| Arm64InlineHook.WidthIsArchitectural | app/src/main/cpp/Include/Arm64InlineHook/arm64_inlinehook.cpp:111-128 | the data size of every literal load is the one its opc and V fields give, and eight bytes for adr |
| Arm64InlineHook.Finished | app/src/main/cpp/Include/Arm64InlineHook/arm64_inlinehook.cpp:684-718 | a resolved draft with its exit jump is a finished trampoline in memory |
| Arm64Layout.ChainBooks | app/src/main/cpp/Include/Arm64InlineHook/arm64_inlinehook.cpp:393-441 | chaining to a fresh page of the finite list writes only free words and keeps the cursors in order, the data end 8-aligned |
| Arm64Layout.PlaceBooks | app/src/main/cpp/Include/Arm64InlineHook/arm64_inlinehook.cpp:506-668 | placing an instruction takes words that were free and leaves at least 24 bytes |
| Arm64Layout.ExitBooks | app/src/main/cpp/Include/Arm64InlineHook/arm64_inlinehook.cpp:684-718 | so does the exit jump |
| Arm64Layout.TransformStep | app/src/main/cpp/Include/Arm64InlineHook/arm64_inlinehook.cpp:286-390 | writing one block disturbs no glue, no earlier block and nothing that was in use before |
| Arm64Layout.TrampolineFinished | app/src/main/cpp/Include/Arm64InlineHook/arm64_inlinehook.cpp:286-390 | the finished trampoline is placed, written and faithful to the words it was lifted from |
| Arm64Layout.TrampolineClaims | app/src/main/cpp/Include/Arm64InlineHook/arm64_inlinehook.cpp:286-390 | all its code, NOP, chain-jump and literal words were free before and are in use now |
| Arm64Layout.TrampolineApart | app/src/main/cpp/Include/Arm64InlineHook/arm64_inlinehook.cpp:286-718 | no two pieces of one trampoline, be they blocks with their literals, chain jumps and NOPs, or the exit jump, share a word |
| Arm64Layout.HooksAppend | app/src/main/cpp/Include/Arm64InlineHook/arm64_inlinehook.cpp:720-779 | a new trampoline shares no word with the live ones, so all of them stay intact |
| Arm64Simulation.TrampolineStable | app/src/main/cpp/Include/Arm64InlineHook/arm64_inlinehook.cpp:286-718 | a trampoline survives every write outside its own words |
| Arm64Relocation.RunChain | app/src/main/cpp/Include/Arm64InlineHook/arm64_inlinehook.cpp:393-441 | crossing a page changes nothing but the spill slot below the stack pointer |
| Arm64Relocation.SimulateExit | app/src/main/cpp/Include/Arm64InlineHook/arm64_inlinehook.cpp:684-718 | the exit jump arrives at the first instruction after the window |
| Arm64Window.SimulateBranch | app/src/main/cpp/Include/Arm64InlineHook/arm64_inlinehook.cpp:300-313 | b and bl arrive at the original target, or at the relocated one inside the window; bl leaves the relocated return address |
| Arm64Window.SimulateCondBranch | app/src/main/cpp/Include/Arm64InlineHook/arm64_inlinehook.cpp:314-332 | b.cond, cbz and cbnz are taken as before and arrive at the corresponding place |
| Arm64Window.SimulateAddress | app/src/main/cpp/Include/Arm64InlineHook/arm64_inlinehook.cpp:350-362 | adr and adrp load the address the original computes |
| Arm64Window.SimulateLiteral | app/src/main/cpp/Include/Arm64InlineHook/arm64_inlinehook.cpp:363-381 | the 64-bit literal load loads the same literal, inside the window or outside it |
| Arm64Window.SimulatePlain | app/src/main/cpp/Include/Arm64InlineHook/arm64_inlinehook.cpp:385-388 | an instruction copied verbatim acts alike on states that agree on what it reads |
| Arm64Window.SimulateStep | app/src/main/cpp/Include/Arm64InlineHook/arm64_inlinehook.cpp:286-718 | one step of the window, calls included, is matched by the trampoline, in a state equal up to x17, the slot below the stack pointer and, after a call, the return address, which each machine has of its own |
| Arm64Journey.SimulateOutside | app/src/main/cpp/Include/Arm64InlineHook/arm64_inlinehook.cpp:720-779 | a step of the code around the window, of a callee or of a caller is taken by both machines side by side; a link register saved to the stack or restored from it keeps standing for the same instruction |
| Arm64Journey.SimulateReturn | app/src/main/cpp/Include/Arm64InlineHook/arm64_inlinehook.cpp:300-313 | a return through the address that a lifted call left goes behind the call in the original and to the end of its block in the trampoline, and on to the corresponding block or over the exit jump |
| Arm64Journey.SimulateCall | app/src/main/cpp/Include/Arm64InlineHook/arm64_inlinehook.cpp:300-313 | a call goes to the corresponding place; the link register holds the address of the next instruction in the original and the end of the call's block in the trampoline |
| Arm64Journey.ResumedRun | app/src/main/cpp/Include/Arm64InlineHook/arm64_inlinehook.cpp:286-718 | from the end of any block, and so from the return address a call leaves, the trampoline follows the original run from the next instruction on, for any number of steps |
| Arm64Journey.SimulateRun | app/src/main/cpp/Include/Arm64InlineHook/arm64_inlinehook.cpp:286-718 | any number of steps, in the window, outside it, into calls and back, is matched step by step |
| Arm64Journey.TrampolineRefinesFunction | app/src/main/cpp/Include/Arm64InlineHook/arm64_inlinehook.cpp:286-718 | calling the trampoline instead of the function: it follows the whole original run, through calls and their returns, and is at the same address whenever the original is outside the window |
| Arm64Limits.LiteralBlock | app/src/main/cpp/Include/Arm64InlineHook/arm64_inlinehook.cpp:363-381 | every literal load, whatever its width, sign or register file, becomes a 64-bit load of a general register |
| Arm64Limits.LiteralExact | app/src/main/cpp/Include/Arm64InlineHook/arm64_inlinehook.cpp:363-381 | for every literal load of a general register and every offset: the block ends in a state corresponding to that of the original instruction if and only if the eight bytes it loads are what the original loads |
| Arm64Limits.WordLiteralExact | app/src/main/cpp/Include/Arm64InlineHook/arm64_inlinehook.cpp:363-381 | for ldr Wt, =literal with a non-negative offset the block does what the original instruction does if and only if the word behind the literal is 0 |
| Arm64Limits.SignedLiteralExact | app/src/main/cpp/Include/Arm64InlineHook/arm64_inlinehook.cpp:363-381 | for ldrsw with a non-negative offset the block does what the original instruction does if and only if the word behind the literal consists of copies of its sign |
| Arm64Limits.VectorLiteralExact | app/src/main/cpp/Include/Arm64InlineHook/arm64_inlinehook.cpp:363-381 | the block for a vector literal load leaves the general registers alone if and only if the one it overwrites held the literal |
| Arm64Limits.AddressIntoWindow | app/src/main/cpp/Include/Arm64InlineHook/arm64_inlinehook.cpp:350-362 | for a trampoline of the manager, the block for adr and adrp is exact if and only if the address was not lifted with the window |
| Arm64Hooked.CallReachesHook | app/src/main/cpp/Include/Arm64InlineHook/arm64_inlinehook.cpp:720-779 | calling a hooked function enters the hook with only x17 changed |
| Arm64Hooked.OriginalRuns | app/src/main/cpp/Include/Arm64InlineHook/arm64_inlinehook.cpp:720-779 | the refinement of whole runs holds for every live trampoline of the manager, as long as the words in use keep their contents |
| Arm64Hooked.HookedRuns | app/src/main/cpp/Include/Arm64InlineHook/arm64_inlinehook.cpp:720-779 | after hooking, calling the trampoline in the new memory matches calling the unhooked function in the old one, for every state, every behaviour of the other instructions and every run length; only the pages and the patched words differ at the start |
| Arm64Hooked.HookAndKeepOriginal | app/src/main/cpp/Include/Arm64InlineHook/arm64_inlinehook.cpp:720-779 | one call of `hookFunction`: it succeeds exactly when the window is liftable, the function then enters the hook, and the address it returns does what the function did |
| Arm64Hooked.BranchRoundTrip | app/src/main/cpp/Include/Arm64InlineHook/arm64_inlinehook.cpp:520-535 | the visitor reads back the target that `uncond_branch` encoded |
| Arm64Hooked.TestBranchCopied | app/src/main/cpp/Include/Arm64InlineHook/arm64_instruction_types.cpp:15-16 | a TBZ or TBNZ is not recognised, and its verbatim copy, when taken, arrives at the original target if and only if it sits at the original address |
| Arm64Example.HookExample | app/src/main/cpp/Include/Arm64InlineHook/arm64_inlinehook.cpp:720-779 | a manager on a concrete list of two pages hooks a concrete function that begins with a call and a literal load; its original, called through the returned address, makes the call, comes back, loads the literal and goes on behind the window |
| Arm64Example.ChainedRuns | app/src/main/cpp/Include/Arm64InlineHook/arm64_inlinehook.cpp:393-441 | the same run through a concrete trampoline that crosses to a second page after the call |
| Arm64Example.StackingIsFramed | app/src/main/cpp/Include/Arm64InlineHook/arm64_inlinehook.cpp:385-388 | the assumption about the other instructions is met by ones that save and restore the link register |
| AesTables.TableLaws | app/src/main/cpp/Include/AES_256_ECB.h:17-695 | at every index each Te and Td table holds the MixColumns or InvMixColumns column of one substituted byte, Te4 and Td4 four copies of it |
| AesTables.SubByteIsFips | app/src/main/cpp/Include/AES_256_ECB.h:289-356 | the S-box entries are the affine map of the inverse in GF(2^8) (section 5.1.1 of FIPS 197) |
| AesInverse.SubByteIsOnlyFips | app/src/main/cpp/Include/AES_256_ECB.h:289-356 | and nothing else is: the affine map of an inverse in GF(2^8) is the S-box entry, if and only if |
| AesInverse.InverseUnique | app/src/main/cpp/Include/AES_256_ECB.h:289-356 | inverses in GF(2^8) are unique, because multiplication is associative |
| AesTables.InvSubByteSubByte | app/src/main/cpp/Include/AES_256_ECB.h:629-695 | the inverse S-box undoes the S-box |
| AesAlgebra.InvMixMix | app/src/main/cpp/Include/AES_256_ECB.h:877-959 | InvMixColumns undoes MixColumns |
| AesAlgebra.InvMixLinear | app/src/main/cpp/Include/AES_256_ECB.h:765-788 | InvMixColumns distributes over the addition of a round key |
| AesAlgebra.InvRoundsMirror | app/src/main/cpp/Include/AES_256_ECB.h:877-959 | after r inverse rounds the state is the one the cipher had before its last r + 1 key additions |
| AesAlgebra.DecryptUndoesEncrypt | app/src/main/cpp/Include/AES_256_ECB.h:791-959 | on inverted schedules the equivalent inverse cipher undoes the cipher, for every block |
| AesWords.TeWordIsRound | app/src/main/cpp/Include/AES_256_ECB.h:799-863 | four table lookups and a key word are SubBytes, ShiftRows, MixColumns and AddRoundKey on one column |
| AesWords.TdWordIsRound | app/src/main/cpp/Include/AES_256_ECB.h:885-947 | the same for the inverse transformations |
| AesWords.Te4WordIsRound | app/src/main/cpp/Include/AES_256_ECB.h:864-868 | the masked lookups of the last round are SubBytes, ShiftRows and AddRoundKey |
| AesWords.Td4WordIsRound | app/src/main/cpp/Include/AES_256_ECB.h:948-952 | the same for the inverse |
| AesWords.RotatedStep | app/src/main/cpp/Include/AES_256_ECB.h:718-722 | the first word of each eight is the one of section 5.2 of FIPS 197, round constant included |
| AesWords.SubstitutedStep | app/src/main/cpp/Include/AES_256_ECB.h:731-735 | and so is the fifth |
| AesWords.RconTable | app/src/main/cpp/Include/AES_256_ECB.h:697-701 | the round constants that the expansion uses are the powers of x |
| AesWords.InvMixWordIsColumn | app/src/main/cpp/Include/AES_256_ECB.h:768-787 | the lookups of the inverse tables at substituted bytes are InvMixColumns |
| AesWords.Inversion | app/src/main/cpp/Include/AES_256_ECB.h:742-789 | the decryption schedule is the encryption schedule reversed, with InvMixColumns on the inner round keys |
| AesContext.Context.EncryptInit | app/src/main/cpp/Include/AES_256_ECB.h:707-740 | word i below 8 is key bytes 4i to 4i + 3, most significant first, and every later word is the one that section 5.2 of FIPS 197 makes of its predecessors |
| AesWords.BlockLayout | app/src/main/cpp/Include/AES_256_ECB.h:791-875 | byte r + 4c of a block is row r of column c of the state (section 3.4 of FIPS 197) |
| AesContext.Context.ReverseRoundKeys | app/src/main/cpp/Include/AES_256_ECB.h:748-763 | swaps the round keys into reverse order in place |
| AesContext.Context.MixInnerKeys | app/src/main/cpp/Include/AES_256_ECB.h:765-788 | transforms the inner round keys in place and leaves the outer two |
| AesContext.Context.DecryptInit | app/src/main/cpp/Include/AES_256_ECB.h:742-789 | leaves the inverted schedule of the key |
| AesContext.Context.EncryptWords | app/src/main/cpp/Include/AES_256_ECB.h:791-868 | the fourteen unrolled rounds compute the byte-level cipher of section 5.1 of FIPS 197 |
| AesContext.Context.DecryptWords | app/src/main/cpp/Include/AES_256_ECB.h:877-953 | the unrolled inverse rounds compute the equivalent inverse cipher of section 5.3.5 |
| AesContext.Context.Encrypt | app/src/main/cpp/Include/AES_256_ECB.h:791-875 | one block of the output is the cipher of one block of the input, in place or not; no other byte changes |
| AesContext.Context.Decrypt | app/src/main/cpp/Include/AES_256_ECB.h:877-959 | the same for the inverse |
| AesContext.Context.Free | app/src/main/cpp/Include/AES_256_ECB.h:961-965 | clears the schedule |
| AesContext.DecryptInvertsEncrypt | app/src/main/cpp/Include/AES_256_ECB.h:707-959 | for every 32-byte key and every block, decryption under the key's schedule undoes encryption under it |
| Base64.ValueOfAlphabet | app/src/main/cpp/Include/base64.cpp:10-70 | the decoder knows every character of the alphabet by its value |
| Base64.AlphabetOfValue | app/src/main/cpp/Include/base64.cpp:20-70 | and no other character |
| Base64.EncodeTableIsAlphabet | app/src/main/cpp/Include/base64.cpp:10-19 | the encoding table is table 1 of RFC 4648 |
| Base64.SextetBits | app/src/main/cpp/Include/base64.cpp:88-114 | the bits of the sextets are the bits of the bytes in order, zeros past the end |
| Base64.DecodedEncoded | app/src/main/cpp/Include/base64.cpp:72-164 | decoding an encoding gives back the bytes and their number, for every byte string |
| Base64.Encode | app/src/main/cpp/Include/base64.cpp:72-119 | writes exactly the encoding of section 4 of RFC 4648, 4·ceil(n/3) characters, and a terminator |
| Base64.EqualsSigns | app/src/main/cpp/Include/base64.cpp:105-115 | an encoding ends in two equals signs, one or none, by the number of bytes left over, and the character before them is no equals sign |
| Base64.EncodedFoob | app/src/main/cpp/Include/base64.cpp:72-119 | the fifth example of section 10 of RFC 4648 |
| Base64.Decode | app/src/main/cpp/Include/base64.cpp:121-164 | returns the decoding whatever the buffer held, writes only below 3·(len/4), and leaves the bytes decoded so far behind a refused text |
| AesPadding.StripsExactlyPaddings | JNIFunc.cpp:1324-1344 | stripping returns the data if and only if the buffer is the padding of that data |
| AesPadding.StrippedPadded | JNIFunc.cpp:1254-1259 | what padding adds, stripping takes off |
| AesPadding.PaddingBytes | JNIFunc.cpp:1254-1259 | from 1 to 16 bytes are added, up to the next multiple of 16, each holding their number |
| EncryptedText.EcbRoundTrip | JNIFunc.cpp:1261-1265 | block-by-block decryption undoes block-by-block encryption |
| EncryptedText.PlaintextOfCiphertext | JNIFunc.cpp:1237-1345 | under one key, padding, encryption, Base64 and back return the data, for every data string |
| EncryptedText.Pad | JNIFunc.cpp:1254-1259 | the buffer before encryption is the padded data |
| EncryptedText.EncryptBlocks | JNIFunc.cpp:1261-1266 | the loop is ECB over the expanded key |
| EncryptedText.EncryptAES | JNIFunc.cpp:1237-1269 | returns the Base64 text of the padded, encrypted data |
| EncryptedText.Base64Encode | JNIFunc.cpp:1229-1234 | returns the encoding without its terminator |
| EncryptedText.Base64Decode | JNIFunc.cpp:1273-1290 | returns the decoding; a text that decodes to nothing yields the whole buffer with what was written before the refusal |
| EncryptedText.DecryptBlocks | JNIFunc.cpp:1312-1322 | the loop is ECB decryption over the inverted schedule |
| EncryptedText.DecryptAES | JNIFunc.cpp:1293-1345 | returns the data of a valid text and the empty string for every failure |
| EncryptedText.Strip | JNIFunc.cpp:1324-1344 | checks every padding byte and takes the padding off |
| Utf8Validator.RunEncoding | app/src/main/cpp/Include/websocketpp/utf8_validator.hpp:69-78 | the automaton reads one encoding without a stop in between and shows its scalar value on return to accept |
| Utf8Validator.RunEncodings | app/src/main/cpp/Include/websocketpp/utf8_validator.hpp:69-78 | every concatenation of encodings is accepted, and the code points shown are the values encoded |
| Utf8Validator.AcceptedIsEncoded | app/src/main/cpp/Include/websocketpp/utf8_validator.hpp:45-79 | the code points shown on an accepted string are scalar values whose encodings make up the string |
| Utf8Validator.AcceptsExactlyUtf8 | app/src/main/cpp/Include/websocketpp/utf8_validator.hpp:45-79 | accepted if and only if a concatenation of encodings of scalar values (no surrogates, no overlong forms, at most U+10FFFF) |
| Utf8Validator.RejectAbsorbs | app/src/main/cpp/Include/websocketpp/utf8_validator.hpp:60-65 | rejection is final |
| Utf8Validator.StateDecides | app/src/main/cpp/Include/websocketpp/utf8_validator.hpp:69-78 | the state after a run depends on the state before it alone |
| Utf8Validator.ChunksAgree | app/src/main/cpp/Include/websocketpp/utf8_validator.hpp:105-118 | reading one chunk after another gives the state class and code point of reading both at once |
| Utf8Validator.AnyChunksAgree | app/src/main/cpp/Include/websocketpp/utf8_validator.hpp:105-118 | however a string is split into any number of chunks, decoding them one by one ends where decoding it whole does |
| Utf8Validator.ChunksAcceptExactlyUtf8 | app/src/main/cpp/Include/websocketpp/utf8_validator.hpp:105-126 | a string read in any chunks ends on acceptance if and only if it is UTF-8 |
| Utf8Validator.Validator.Consume | app/src/main/cpp/Include/websocketpp/utf8_validator.hpp:91-96 | advances by one byte and reports rejection |
| Utf8Validator.Validator.Decode | app/src/main/cpp/Include/websocketpp/utf8_validator.hpp:105-118 | leaves the state of the whole run, and reports rejection for every chunk that is not empty |
| Utf8Validator.Validator.Complete | app/src/main/cpp/Include/websocketpp/utf8_validator.hpp:124-126 | true exactly on a character boundary |
| Utf8Validator.Validator.Reset | app/src/main/cpp/Include/websocketpp/utf8_validator.hpp:129-132 | starts over |
| Utf8Validator.Validate | app/src/main/cpp/Include/websocketpp/utf8_validator.hpp:143-149 | true if and only if the string is UTF-8 (section 4 of RFC 3629), a concatenation of encodings (section 3) of scalar values |
| WebSocketMask.MaskedTwice | app/src/main/cpp/Include/websocketpp/frame.hpp:645-655 | masking twice is the identity |
| WebSocketMask.PreparedKey | app/src/main/cpp/Include/websocketpp/frame.hpp:595-604 | a prepared key repeats the key from its first octet |
| WebSocketMask.ShiftedKey | app/src/main/cpp/Include/websocketpp/frame.hpp:612-623 | the circular shift moves the start along the key |
| WebSocketMask.PreparedOnce | app/src/main/cpp/Include/websocketpp/frame.hpp:595-623 | there is one prepared word for each starting octet |
| WebSocketMask.CircularIsMasked | app/src/main/cpp/Include/websocketpp/frame.hpp:768-790 | one chunk under a prepared key is masked as RFC 6455 prescribes, and the returned key is prepared for what follows |
| WebSocketMask.StreamedIsMasked | app/src/main/cpp/Include/websocketpp/frame.hpp:768-790 | for every split into chunks, masking chunk by chunk with the returned keys equals one byte-wise masking of the whole message |
| WebSocketMask.ByteCircularIsCircular | app/src/main/cpp/Include/websocketpp/frame.hpp:830-841 | on prepared keys the byte-wise circular masking gives the same bytes and returns the same key as the word-wise one |
| WebSocketMask.ByteMask | app/src/main/cpp/Include/websocketpp/frame.hpp:645-655 | octet i is combined with key octet (i + offset) mod 4, in place or not |
| WebSocketMask.MaskWords | app/src/main/cpp/Include/websocketpp/frame.hpp:708-713 | the word loop combines every byte with its byte of the key word |
| WebSocketMask.WordMaskExact | app/src/main/cpp/Include/websocketpp/frame.hpp:702-717 | words and remainder together equal the byte-wise masking; exactly `length` bytes change |
| WebSocketMask.WordMaskCirc | app/src/main/cpp/Include/websocketpp/frame.hpp:768-790 | masks `length` bytes circularly, leaves the rest alone and returns the shifted key |
| WebSocketMask.ByteMaskCirc | app/src/main/cpp/Include/websocketpp/frame.hpp:830-841 | the same byte by byte, with the low half of the word |
| WebSocketHeader.WriteBasicHeader | app/src/main/cpp/Include/websocketpp/frame.hpp:194-228 | the first byte is 128 for FIN, 64, 32 and 16 for the reserved bits, plus the opcode; the second is 128 for MASK plus the size, 126 or 127; every getter gives back what was written |
| WebSocketHeader.ExtendedHeader.constructor | app/src/main/cpp/Include/websocketpp/frame.hpp:236-256 | the buffer starts with the size in network order and then the key |
| WebSocketHeader.ExtendedHeader.CopyPayload | app/src/main/cpp/Include/websocketpp/frame.hpp:260-274 | copies no, two or eight bytes of the size in network order |
| WebSocketHeader.HeaderRoundTrip | app/src/main/cpp/Include/websocketpp/frame.hpp:489-585 | from the bytes of a prepared header, whatever follows them, the getters recover basic header, size and key |
| WebSocketHeader.ShortestForm | app/src/main/cpp/Include/websocketpp/frame.hpp:215-227 | no header that states the same size has a shorter length field |
| WebSocketHeader.BuildAndRead | app/src/main/cpp/Include/websocketpp/frame.hpp:189-585 | for every opcode, flag combination, 64-bit size and key: the bytes of section 5.2 of RFC 6455 by their numbers, the size most significant byte first, the key's octets lowest first; the header has `get_header_len` bytes, at most 14, and reads back completely |
| Crc32.CrcIsBitSerial | app/src/main/cpp/Verify/Guard/MemoryPool.cpp:32-43 | the table-driven checksum is the bit-serial CRC-32 of section 8 of RFC 1952, on every byte string |
| Crc32.ByteStepIsShift8 | app/src/main/cpp/Verify/Guard/MemoryPool.cpp:38-40 | the table step is eight steps of the register with the byte added |
| Crc32.RegisterInjective | app/src/main/cpp/Verify/Guard/MemoryPool.cpp:38-40 | equal bytes never merge different registers |
| Crc32.BurstDetected | app/src/main/cpp/Verify/Guard/MemoryPool.cpp:32-52 | a change confined to four consecutive bytes always changes the checksum |
| Crc32.CheckValue | app/src/main/cpp/Verify/Guard/MemoryPool.cpp:32-43 | the checksum of "123456789" is 0xcbf43926 |
| MemoryPool.CrcTable.InitTable | app/src/main/cpp/Verify/Guard/MemoryPool.cpp:18-30 | every entry is eight register steps of its index |
| MemoryPool.CrcTable.Calculate | app/src/main/cpp/Verify/Guard/MemoryPool.cpp:32-43 | returns the checksum, whether or not the table was built before |
| MemoryPool.FoldDetectsOneChange | app/src/main/cpp/Verify/Guard/MemoryPool.cpp:87-93 | lists that differ in one checksum have different pool checksums |
| MemoryPool.FoldOfTwo | app/src/main/cpp/Verify/Guard/MemoryPool.cpp:87-93 | checksums 1 and 2 fold to 16640 |
| MemoryPool.FoldOfOne | app/src/main/cpp/Verify/Guard/MemoryPool.cpp:87-93 | one checksum folds to itself, rotated left by seven |
| MemoryPool.Pool.InitializePool | app/src/main/cpp/Verify/Guard/MemoryPool.cpp:54-60 | an empty, initialized pool with checksum 0 |
| MemoryPool.Pool.DestroyPool | app/src/main/cpp/Verify/Guard/MemoryPool.cpp:62-66 | empties the pool and leaves the stored checksum as it was |
| MemoryPool.Pool.ComputeBlockHash | app/src/main/cpp/Verify/Guard/MemoryPool.cpp:45-52 | the checksum of the bytes a block holds now, 0 for a null or empty one |
| MemoryPool.Pool.RegisterBlock | app/src/main/cpp/Verify/Guard/MemoryPool.cpp:68-94 | appends a block with the checksum of its bytes and refreshes the pool checksum; a null, empty or known address changes nothing |
| MemoryPool.Pool.UnregisterBlock | app/src/main/cpp/Verify/Guard/MemoryPool.cpp:96-113 | nothing goes if no block has the address; otherwise exactly the block at its index goes, the others keep their order, and the checksum is the fold over them |
| MemoryPool.Pool.VerifyAllBlocks | app/src/main/cpp/Verify/Guard/MemoryPool.cpp:115-131 | true when no registered byte has changed, false when some block's change is confined to four bytes |
| MemoryPool.Pool.VerifyBlock | app/src/main/cpp/Verify/Guard/MemoryPool.cpp:133-144 | compares the one block at the address; false for an unknown one |
| MemoryPool.Pool.CheckPoolIntegrity | app/src/main/cpp/Verify/Guard/MemoryPool.cpp:146-161 | in every reachable state it succeeds exactly when the pool is initialized: the stored checksum is never stale |
| MemoryPool.Pool.GetIntegrityFactor | app/src/main/cpp/Verify/Guard/MemoryPool.cpp:178-189 | 0 after a detectable change, the fold over the list when nothing changed |
| Uri.WebSocketUri.constructor | app/src/main/cpp/Include/websocketpp/uri.hpp:51-168 | valid exactly when the text is a scheme, a host in brackets or without colon and slash, an optional port and an optional path, and then with these components; secure exactly for wss:// and https://; port 443 or 80 without a port string |
| Uri.WebSocketUri.ToString | app/src/main/cpp/Include/websocketpp/uri.hpp:274-285 | the components in order, the port only if it is not the scheme's own |
| Uri.ParsedIsDerived | app/src/main/cpp/Include/websocketpp/uri.hpp:51-168 | the parser accepts exactly the texts of the grammar and reads them as the grammar does |
| Uri.SpacesSkipped | app/src/main/cpp/Include/websocketpp/uri.hpp:330 | white space in front of a port string is skipped |
| Uri.PlusSkipped | app/src/main/cpp/Include/websocketpp/uri.hpp:330 | and so is a plus sign |
| Uri.PrintedReadsBack | app/src/main/cpp/Include/websocketpp/uri.hpp:51-168 | for every accepted text, parsing `str()` again gives the same components if and only if the host has no colon or slash and does not start with a bracket |
| Uri.UnbracketedReadsBack | app/src/main/cpp/Include/websocketpp/uri.hpp:120-138 | a host that stood without brackets always reads back |
| Uri.BracketsAreLost | app/src/main/cpp/Include/websocketpp/uri.hpp:274-285 | a bracketed host that does not |
| Uri.PortOfDecimal | app/src/main/cpp/Include/websocketpp/uri.hpp:321-341 | the printed form of every port from 1 to 65535 reads back |
| Uri.DigitPort | app/src/main/cpp/Include/websocketpp/uri.hpp:321-341 | every digit string is read as the port it names if and only if its value is below 2^32, above the range of a long, or not between 1 and 65535 modulo 2^32; any other is accepted for the wrong port |
| Uri.NegativePort | app/src/main/cpp/Include/websocketpp/uri.hpp:321-341 | every digit string behind a minus sign is refused if and only if its value is above the range of a long or does not come back into range modulo 2^32 |
| Uri.TailIgnored | app/src/main/cpp/Include/websocketpp/uri.hpp:330 | what follows the digits of a port string is ignored |
| Uri.LargePortWraps | app/src/main/cpp/Include/websocketpp/uri.hpp:330-338 | 2^32 + 80 names no port and is accepted for port 80 |
| RenderConfig.LoadStored | app/src/main/cpp/Verify/Guard/RenderConfig.cpp:34-42 | loading under the key of the store gives the value back |
| RenderConfig.SearchSucceeds | app/src/main/cpp/Verify/Guard/RenderConfig.cpp:108-117 | for every non-zero residue of c and every left side the search finds a solution (17 is prime) |
| RenderConfig.OneBaseWraps | app/src/main/cpp/Verify/Guard/RenderConfig.cpp:119-124 | the adjustment could wrap 32 bits for one base value only, and that one fails the modulus-23 check |
| RenderConfig.AcceptedAfterUpdate | app/src/main/cpp/Verify/Guard/RenderConfig.cpp:92-131 | after an update the formula and the base check hold if and only if base mod 23 is 0 and either (a ^ b) mod 17 is 0 or c mod 17 is not |
| RenderConfig.RefusedBase | app/src/main/cpp/Verify/Guard/RenderConfig.cpp:103-117 | a base value that passes the modulus-23 check and is refused |
| RenderConfig.Configuration.FindTarget | app/src/main/cpp/Verify/Guard/RenderConfig.cpp:108-117 | the loop returns the first residue below 17 that solves the formula, or 0 if none does |
| RenderConfig.Configuration.UpdateTextureConfig | app/src/main/cpp/Verify/Guard/RenderConfig.cpp:92-146 | stores the four derived values and the checksum 29791a + 961b + 31c + d modulo 2^32, each under its own mask |
| RenderConfig.Configuration.ValidateRenderingConfig | app/src/main/cpp/Verify/Guard/RenderConfig.cpp:168-202 | true exactly when (a ^ b) mod 17 is cd mod 17, 23 divides a, and the stored checksum is 29791a + 961b + 31c + d modulo 2^32 |
| RenderConfig.OneChangeChangesHash | app/src/main/cpp/Verify/Guard/RenderConfig.cpp:71-79 | a change of exactly one value changes the checksum, because 31 is invertible modulo 2^32 |
| RenderConfig.Configuration.UpdateTamperAndValidate | app/src/main/cpp/Verify/Guard/RenderConfig.cpp:92-202 | after an update, a change of exactly one loaded value makes the validation fail |
| RenderConfig.AnisotropicOfZero | app/src/main/cpp/Verify/Guard/RenderConfig.cpp:51-56 | the second value derived from 0 |
| RenderConfig.MipmapSamples | app/src/main/cpp/Verify/Guard/RenderConfig.cpp:58-63 | the third value derived from 0, 0xffff and 0xa0000 |
| RenderConfig.ShadowSamples | app/src/main/cpp/Verify/Guard/RenderConfig.cpp:65-69 | the fourth value derived from 0 and 0xdeadc0de |
| RenderConfig.AdjustedResidue | app/src/main/cpp/Verify/Guard/RenderConfig.cpp:119-124 | the adjustment keeps the quotient by 17 and sets the remainder |
| RenderConfig.Configuration.UpdateAndValidate | app/src/main/cpp/Verify/Guard/RenderConfig.cpp:92-202 | updating and validating succeeds exactly for the good base values |
| RenderConfig.Configuration.InitializeDefaults | app/src/main/cpp/Verify/Guard/RenderConfig.cpp:81-90 | all four values load as 1 and the checksum as 0 |

## Left out

- Arm64Journey.TrampolineRefinesFunction: stated for runs whose steps are `Safe`. In the window: the forms that are relocated exactly (64-bit `ldr Xt` with a non-negative offset, adr and adrp with a target outside, no TBZ, TBNZ, nor 32-bit, signed or vector literal load), no use of x17 or a stack word while the trampoline has it in use, no write to the window or the trampoline, no indirect branch into the window except a return to a lifted call. For the other forms the exact conditions are `Arm64Targets.LiteralAddress`, `Arm64Limits.WordLiteralExact`, `Arm64Limits.SignedLiteralExact`, `Arm64Limits.VectorLiteralExact`, `Arm64Limits.AddressIntoWindow` and `Arm64Hooked.TestBranchCopied`. Outside the window: code that does not jump into it, and so does not call the hooked function again by its address, and that treats a return address of the lifted window only by moving it between x30 and memory, and by `ret`. Vector literal loads, exception returns and authenticated branches have no semantics.
- Arm64InlineHook.InlineHook.HookFunction: requires a 4-aligned function more than a page below the top of the address space, whose first 28 bytes lie outside every page that `mmap` will yield, and a page still to be had unless 220 bytes are left in the current one (the code aborts when `mmap` fails); null is refused as in the code, and a function may be hooked again.
- Instruction objects of the hook library are values in the list rather than heap objects; the list and the two cursors are fields that the methods update.
- Arm64InlineHook.InlineHook.Set8: the hook manager stores a literal as two words of a 32-bit word memory; the byte loops are modelled on byte arrays in `Arm64Bytes`, and the big-endian branches not at all.
- `mmap` is a parameter, the finite list of pages that successive requests yield, page-aligned and distinct; `mprotect`, cache flushing, logging and the abort on failure of `mmap` are not modelled.
- Arm64InlineHook.InlineHook.AllocNewSpace: requires a page to be left; the code aborts otherwise.
- `addPage`, the `ldr` forms and register encoders that no emitted code uses, and the destructor of the hook library.
- Base64.Encode: requires the encoded length and its terminator to fit 32 bits, as the size macros of base64.h do; so do EncryptedText.EncryptAES and EncryptedText.Base64Encode, and the decoding calls require the text's length to fit 32 bits.
- The second size test of `base64Decode` (`actual_size > max_decoded_size`, JNIFunc.cpp:1283) can never hold, by the contract of Base64.Decode, and has no branch in the model.
- AesContext.Context.Encrypt: input and output are whole arrays with offsets; partially overlapping buffers inside one array are covered, raw pointers into one another's tail are not.
- WebSocketMask.WordMaskCirc: the buffers are one array or two separate ones; buffers that overlap partly are not modelled, nor is a machine with 32-bit words.
- The setters of the basic header, `write_header`, `opcode` predicates, and the connection and endpoint classes.
- The other constructors and the query getter of the URI class.
- Uri.PortOfDecimal: `atoi` is `strtol` clamped to 64 bits and truncated to `int`, as on the platform; locales are not modelled.
- MemoryPool.Pool.VerifyAllBlocks: every block's memory is a function from addresses to bytes, given to each call; a change wider than four bytes may go undetected, and the contract says exactly when.
- Locks and atomics: each locked call is one step, and interleavings are not modelled.
- The counters of registered blocks and bytes; `calculateFilterQuality`, `getConfigurationFactor` and `synchronizeWithModule`; the clock is a parameter of RenderConfig.Configuration.UpdateTextureConfig.
- JNI glue, hooks into the game binary, the SDK classes, networking, device checks, and the short xor or shift codecs.
