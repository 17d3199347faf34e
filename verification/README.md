# Verified model of the emp-tool circuit compiler

This project models the Boolean-circuit compiler of emp-tool and the arithmetic, sorting, garbling and
field code around it, and proves what that code is for: every transformation computes the same function,
every lazy or batched form looks like the plain one, and every kernel computes the number it stands for.
Everything is stated for all programs, all inputs, all call sequences or all reachable states.

`dafny verify dfyconfig.toml` checks the whole project.

## What is modelled

| module | what it holds |
|---|---|
| `Program`, `Execute` | the gate IR, its one-pass meaning over any context, validation in both modes, execution over a reused scratch buffer |
| `Compact`, `Transform`, `Reuse` | liveness, the LIFO register allocator at both reuse levels, `uncompact`, how they relate, and that no slot is wasted |
| `Schedule`, `Simd` | AND-depth levels, level-by-level execution with batched ANDs, the 128-lane driver |
| `FlushPlan`, `PlanFlush`, `PlanOrder` | reachability, input numbering, compaction and stale detection of one chunk, and in what order its inputs and outputs stand |
| `Session`, `SessionProof`, `Materialized`, `ChunkedSessions` | the lazy session with refcounted handles as a state machine, as an object, and against eager evaluation; what each call leaves materialized, counts and refuses |
| `Compose`, `Record`, `Counts`, `Digest`, `Empbc`, `EmpbcBytes` | hierarchical plans and the flattener, the recorder, how many gates both emit, the stream digest, the byte format |
| `Sort`, `SortLoops` | Batcher's network for every length, and the loops that walk it |
| `Numeric`, `Kernels`, `Integers`, `ModExp` | carry chains, the array kernels with their AND counts, signed and unsigned operators, modular exponentiation |
| `Mitccrh`, `HalfGate` | the gid-bucketed hash with its key cache and tiles, half gates, whole garbled runs |
| `Bits`, `Poly`, `F2k`, `Coefficients`, `F2kVectors`, `F2kPacking` | GF(2)[x] as sets of exponents, the lane-shift reduction, products by their coefficients, inner products, powers, packing |
| `Powers`, `Wrappers` | powers of two and remainders; `Option` |

## How it is modelled

- A store is a map from wire slots to values and a context is four functions, so meaning is a total function of
  any context; a slot that was never written reads as the context's 0, and `ScratchIndependence` shows that
  accepted programs cannot tell.
- `expecting(...)` failures are refusals: an `Option`, a `Fault`, or a flag, with the state unchanged.
- 32-bit ids are unbounded naturals with the source's explicit overflow checks written out; gids wrap at 2^64.
- Vectors that a pass fills and reads back are sequences or maps; the buffers the source works on in place (sorting,
  arithmetic kernels, scratch wires, hash tiles, SIMD output, coefficient arrays) are arrays, with the aliasing the
  source allows.
- AES, the orthomorphism sigma and `makeBlock(g, 0)` are arbitrary functions, so the garbling results hold for any
  choice of them. Scheduling an AES key is the identity on keys. Adding a lane offset to a broadcast tweak is adding
  it to the gid.
- A 128-bit register is the set of its 1 bits. The same sets, read as exponents, are polynomials over GF(2).
- A protocol's hooks act on a map from materialized ids to bits. In garbled runs XOR, NOT and constants are free
  label operations; a constant's zero label is one public block.

## Where code and documentation differ

- `uncompact` is said to be the identity on dense programs. Validation accepts any single-definition numbering, and
  `UncompactIdentity` proves it is the identity exactly for emission order; `UncompactRenumbersSomeDense` is a
  program it changes.
- `mod_exp` promises base^p mod q for q != 0. Products are cut to N bits before they are reduced: `ModExpLosesBits`
  is a failing input, and `ModExpPromise` shows that the promise is kept for all bases and exponents exactly when
  q divides 2^N and is not 1. Per operand, `ModExpIs` and `HalfWidthModExp` give conditions under which it is right
  (with q = 0 it is exponentiation modulo 2^N, and exponent 0 gives 1 even modulo 1).
- A streamed digest is said to equal the recorded program's digest. That holds when inputs are reserved in one call;
  `SameWordsIffOneReservation` shows the hashed words agree in no other case, and `FnvDigestsDiffer` is a call
  sequence at which the digests themselves differ.
- The hash stream is said never to reuse a gid. Gids are 64-bit numbers that wrap: `GidsApartIff` and
  `GidsIncreaseUntilWrap` give the exact conditions, and `GidsWrap` is a run in which their order breaks.
- Signed division excludes the most negative operand. The code is right for it too, modulo 2^N;
  `SignedDivExact` says when the signed quotient is exact.

## Model

| member | source | states |
|---|---|---|
| `Program.ExecAgree` | emp-tool/ir/execute.h:44-70 | running an accepted program from two buffers that agree on the inputs, every slot written so far agrees |
| `Program.ScratchIndependence` | emp-tool/ir/execute.h:27-70 | the outputs of an accepted program do not depend on what the reused scratch held |
| `Execute.ValidateProgram` | emp-tool/ir/validate.h:19-143 | accepts exactly the valid programs of either mode: operands in range and written before, no input overwritten, counts, single definition when dense |
| `Execute.CircuitScratch.Ensure` | emp-tool/ir/execute.h:27-31 | the buffer grows to at least n slots, keeps what it held, and is either the old one or a fresh one |
| `Execute.RunGate` | emp-tool/ir/visit.h:28-38 | one gate dispatch fills its own slot, changes no other, and leaves every written slot right |
| `Execute.RunGates` | emp-tool/ir/execute.h:56-67 | over the whole walk input slots and slots from num_wires on are never written |
| `Execute.ExecuteProgram` | emp-tool/ir/execute.h:44-70 | with any scratch contents, the outputs are the program's meaning; afterwards the input slots hold the inputs and slots from num_wires on what they held; a wrong input count is refused without effect |
| `Transform.LivenessPass` | emp-tool/ir/passes.h:74-88 | last_use is the last gate that reads a wire, first_def the gate that defines it, -1 otherwise |
| `Transform.PersistFlags` | emp-tool/ir/transform.h:48-52 | exactly inputs, outputs and, under Linear, And outputs persist |
| `Transform.FreeLists` | emp-tool/ir/transform.h:56-58 | frees[gi] lists, in order, the non-persistent wires whose last read is gate gi |
| `Transform.AllocateGate` | emp-tool/ir/transform.h:70-81 | one gate of the LIFO freelist allocator is one step of the allocator machine, whose choice of slot `Reuse.NoSlotWasted` and `Reuse.LastFreedFirst` describe |
| `Transform.Allocate` | emp-tool/ir/transform.h:67-81 | the loop is the run of the allocator machine over all gates |
| `Transform.MakeCompact` | emp-tool/ir/transform.h:39-86 | refuses exactly a dense target or a non-dense or invalid program; otherwise a valid program of the target level with the same outputs on all inputs, and its slot table; how far it compacts is `Reuse.NoSlotWasted` and `Reuse.SavesIff` |
| `Transform.Uncompact` | emp-tool/ir/transform.h:92-113 | refuses exactly invalid programs; otherwise a dense program in emission order with the same outputs on all inputs |
| `Compact.RunInv` | emp-tool/ir/transform.h:67-81 | in every reachable allocator state live wires have different slots, the freelist is duplicate-free and disjoint from live slots, persistent wires own their slot, gates are renamed consistently |
| `Compact.LiveSlotsHoldValues` | emp-tool/ir/transform.h:67-81 | after every gate, the slot of each live wire holds the wire's value |
| `Compact.CompactPreservesMeaning` | emp-tool/ir/transform.h:39-86 | both reuse levels compute the same function as the dense program in every context |
| `Compact.CompactIsValid` | emp-tool/ir/transform.h:82-84 | the compacted program passes validation |
| `Compact.LinearWritesAndSlotsOnce` | emp-tool/ir/program.h:48-52 | under Linear no gate but the And itself ever writes an And output's slot |
| `Compact.FullStaysBelowLinear` | emp-tool/ir/transform.h:48-82 | at every step of the two runs Full has at most as many slots in use, and at most as many ever used, as Linear |
| `Compact.SlotCounts` | test/ir/test_transform.cpp:75-76 | wire counts satisfy Full <= Linear <= dense |
| `Reuse.NoSlotWasted` | emp-tool/ir/transform.h:67-81 | a gate's wire takes a fresh slot if and only if it is pinned (an output, or an And output under Linear) or every slot claimed so far holds a wire that is an input, pinned, still to be read or never read; otherwise it takes a slot that holds none |
| `Reuse.LastFreedFirst` | emp-tool/ir/transform.h:34-38 | of all idle slots the one taken was freed last: its last holder was freed after the holder of every other idle slot, by a later gate or by the same gate with the larger id |
| `Reuse.SavesIff` | test/ir/test_transform.cpp:75-76 | the compacted program has fewer wires than the dense one if and only if some unpinned gate meets an idle slot |
| `Compact.UncompactPreservesMeaning` | emp-tool/ir/transform.h:92-113 | relabelling any executable program keeps its function in every context |
| `Compact.UncompactIsValid` | emp-tool/ir/transform.h:99-111 | the relabelled program is dense, valid and in emission order |
| `Compact.UncompactIdentity` | emp-tool/ir/transform.h:88-91 | uncompact of a dense program is that program if and only if it is in emission order |
| `Compact.UncompactRenumbersSomeDense` | emp-tool/ir/transform.h:90-91 | a valid dense program that uncompact does not leave alone |
| `Compact.UncompactUndoesCompact` | emp-tool/ir/transform.h:88-113 | uncompact of a compacted program is the emission-order form of the original, and the original itself if that was in emission order |
| `Schedule.OperandLevel` | emp-tool/ir/passes.h:101-113 | a gate's operands come from levels not above its own, and strictly below it for an And |
| `Schedule.LevelIsLeast` | emp-tool/ir/passes.h:101-113 | every labelling of the wires that never falls from operand to gate and rises at every And is at least the level: the level is the AND depth |
| `Schedule.LevelRises` | emp-tool/ir/passes.h:101-113 | and the levels are such a labelling |
| `Schedule.SchedulePass` | emp-tool/ir/passes.h:95-121 | every gate's level is the one `Schedule.LevelIsLeast` describes, the depth is the largest of them, and the And lists hold each level's Ands in order |
| `Schedule.MakeScheduledPlan` | emp-tool/ir/schedule.h:41-53 | bucket lv lists exactly the gates of level lv in order, and no bucket lies beyond the greatest level |
| `Schedule.DepthIsLeast` | emp-tool/ir/schedule.h:41-53 | no labelling that rises at every And gets by with fewer levels than the plan has |
| `Schedule.DenseFixpoint` | emp-tool/ir/schedule.h:79-101 | in a dense program the final store satisfies every gate equation |
| `Schedule.AndReady` | emp-tool/ir/schedule.h:82-85 | all operands of an And are inputs or come from lower levels |
| `Schedule.LinearReady` | emp-tool/ir/schedule.h:91-100 | after the level's Ands, gates taken in bucket order find their operands ready |
| `Schedule.RunAnds` | emp-tool/ir/schedule.h:81-90 | gathering, batching and scattering a level's Ands puts the right values in their slots |
| `Schedule.RunLinear` | emp-tool/ir/schedule.h:91-100 | the second pass completes the level |
| `Schedule.ScheduledExecute` | emp-tool/ir/schedule.h:57-105 | level by level with all Ands of a level first, the outputs are those of in-order execution; a wrong input count or a plan with other counts is refused |
| `Simd.LaneEval` | emp-tool/ir/simd.h:45-55 | on 128-lane blocks a program acts lane by lane like the plain program |
| `Simd.RunBlock` | emp-tool/ir/simd.h:45-55 | one block of up to 128 packed instances yields in lane t what the program computes on the inputs of instance base + t, or is refused for a plan with other counts |
| `Simd.SimdExecute` | emp-tool/ir/simd.h:32-63 | for every instance count, partial tail included, the t-th piece of the output is what the program computes on the t-th piece of the input; a plan with other counts is refused and writes nothing |
| `Simd.OutputAt` | emp-tool/ir/simd.h:45-62 | bit by bit: out[t * outputs + o] is output o of the program on input[t * num_inputs .. (t + 1) * num_inputs] |
| `PlanFlush.NeededIsLeast` | emp-tool/ir/session/flush_plan.h:43-60 | a needed gate is marked by every marking that contains the kept gates and is closed under operands |
| `PlanFlush.MarkNeeded` | emp-tool/ir/session/flush_plan.h:43-60 | the worklist terminates and marks exactly the gates a kept id depends on |
| `PlanFlush.CollectInputs` | emp-tool/ir/session/flush_plan.h:62-76 | ok iff every operand of a needed gate is chunk-local or materialized; the inputs are, without repetition and in first-seen order, the materialized ones |
| `PlanFlush.EmitGates` | emp-tool/ir/session/flush_plan.h:79-90 | the needed gates in order, renumbered to inputs first and then emission order |
| `PlanFlush.EmitOutputs` | emp-tool/ir/session/flush_plan.h:94-102 | the pending kept ids, deduplicated, in keep order |
| `PlanOrder.KeepOrder` | emp-tool/ir/session/flush_plan.h:94-102 | the outputs stand in the order in which the keep list first names them |
| `PlanOrder.LiveOrder` | emp-tool/ir/session/chunk_recorder.h:130-136 | what is in scope is listed in chunk order |
| `PlanFlush.Plan` | emp-tool/ir/session/flush_plan.h:34-104 | ok iff no needed gate reads a stale id; then the program is valid, dense, in emission order, its inputs are exactly the materialized ids read, and each kept id gets the value the whole chunk gives it |
| `FlushPlan.PlanPreservesMeaning` | emp-tool/ir/session/flush_plan.h:79-104 | in every context the planned program gives each kept id the value the whole chunk gives it |
| `FlushPlan.PlanIsCanonical` | emp-tool/ir/session/flush_plan.h:79-92 | gate i of the planned program defines wire num_inputs + i and the program is valid |
| `SessionProof.CountedBind` | emp-tool/ir/session/chunk_recorder.h:53-54 | binding a fresh handle keeps every count equal to the number of handles on its id |
| `SessionProof.CountedDrop` | emp-tool/ir/session/chunk_recorder.h:64 | so does destroying a handle |
| `SessionProof.CountedMove` | emp-tool/ir/session/chunk_recorder.h:55 | so does a move, without touching the table |
| `SessionProof.CountedAssign` | emp-tool/ir/session/chunk_recorder.h:56-59 | so does assignment, self-assignment included |
| `SessionProof.CountedMoveAssign` | emp-tool/ir/session/chunk_recorder.h:60-63 | so does move assignment, to itself included |
| `SessionProof.CountMeansHeld` | emp-tool/ir/session/chunk_recorder.h:126-135 | a count is positive exactly when some live handle holds the id |
| `SessionProof.RecordRefines` | emp-tool/ir/session/chunk_recorder.h:115-117 | recording a gate keeps the invariant and gives the new handle the eager value |
| `SessionProof.ConstRefines` | emp-tool/ir/session/chunk_recorder.h:104-113 | so does a public bit, cached or not |
| `SessionProof.FlushSucceeds` | emp-tool/ir/session/chunked_session.h:254-273 | keeping ids that are pending or materialized never meets a stale wire |
| `SessionProof.FlushRefines` | emp-tool/ir/session/chunked_session.h:254-273 | a flush that keeps every held pending id keeps the invariant and every handle's value |
| `SessionProof.RevealRefines` | emp-tool/ir/session/chunked_session.h:116-136 | reveal, with any keep list, shows the eager value and leaves every handle's value alone |
| `SessionProof.CheckpointRefines` | emp-tool/ir/session/chunked_session.h:138-146 | checkpoint() keeps every handle's value; what else it keeps is `Materialized.CheckpointExact` |
| `Materialized.CheckpointExact` | emp-tool/ir/session/chunked_session.h:138-146 | after checkpoint() an id is materialized if and only if it is not null and some handle is on it, and then with the bit it stood for; the chunk is gone |
| `Materialized.CheckpointKeepExact` | emp-tool/ir/session/chunked_session.h:146-152 | after checkpoint(keep...) exactly the given ids are materialized, with the bits they stood for |
| `Materialized.FlushExact` | emp-tool/ir/session/chunked_session.h:252-273 | a flush materializes the kept ids with the bits they stood for, leaves what was materialized, and nothing else; the chunk is gone |
| `Materialized.RevealExact` | emp-tool/ir/session/chunked_session.h:116-129 | after reveal an id is materialized if and only if it was, or a handle is on it, or it is revealed or listed |
| `Materialized.FlushRunsNeededAnds` | emp-tool/ir/session/chunked_session.h:234-241 | a flush adds to num_and the number of And gates some kept id depends on |
| `Materialized.AndCountIs` | emp-tool/ir/session/chunked_session.h:234-241 | a counted program adds the number of its And gates |
| `Materialized.StepConstsOnce` | emp-tool/ir/session/chunk_recorder.h:104-112 | at the start and after every call each constant is in the chunk at most once, and the cache knows whether it is |
| `Materialized.ConstShared` | emp-tool/ir/session/chunk_recorder.h:104-112 | a constant that is in the chunk is handed out again without a gate or an id |
| `Materialized.StepFailsIff` | emp-tool/ir/session/chunked_session.h:155-181 | a call is refused if and only if ids run out, or a circuit's argument is pending, or their number is wrong, never for a stale wire |
| `SessionProof.RunMatches` | emp-tool/ir/session/chunked_session.h:155-166 | run(circuit) is eager evaluation unless it is refused, and it is refused only for an unflushed argument, a wrong argument width or id overflow |
| `SessionProof.RunRefusal` | emp-tool/ir/session/chunked_session.h:155-166 | run is refused as unflushed exactly when an argument is pending; a run that goes through had materialized arguments of the right width and room for its outputs |
| `SessionProof.StepMatches` | emp-tool/ir/session/chunked_session.h:116-166 | every call either matches the eager step and keeps the invariant, or is refused for a reason other than a stale wire |
| `SessionProof.LazyLooksEager` | emp-tool/ir/session/chunked_session.h:116-153 | over every run of a fresh session: what is revealed is what eager evaluation reveals, a run stops early only for id overflow or an unflushed or ill-sized run(circuit), no stale-wire error fires, every live handle stays pending or materialized, and every count is exact |
| `SessionProof.ExplicitKeep` | emp-tool/ir/session/chunked_session.h:146-152 | checkpoint(keep...) leaves a sound session if and only if it was given every held id |
| `ChunkedSessions.ChunkedSession.RecordGate` | emp-tool/ir/session/chunk_recorder.h:149-164 | the object's gate recording is the machine's step, overflow included |
| `ChunkedSessions.ChunkedSession.MakePublicBit` | emp-tool/ir/session/chunk_recorder.h:104-113 | the same for constants |
| `ChunkedSessions.ChunkedSession.MaterializeBits` | emp-tool/ir/session/chunked_session.h:60-64 | the same for inputs |
| `ChunkedSessions.ChunkedSession.CopyHandle` | emp-tool/ir/session/chunk_recorder.h:54 | the same for copies |
| `ChunkedSessions.ChunkedSession.MoveHandle` | emp-tool/ir/session/chunk_recorder.h:55 | the same for moves |
| `ChunkedSessions.ChunkedSession.AssignHandle` | emp-tool/ir/session/chunk_recorder.h:56-59 | the same for assignment |
| `ChunkedSessions.ChunkedSession.MoveAssignHandle` | emp-tool/ir/session/chunk_recorder.h:60-63 | the same for move assignment |
| `ChunkedSessions.ChunkedSession.DestroyHandle` | emp-tool/ir/session/chunk_recorder.h:64 | the same for destruction |
| `ChunkedSessions.ChunkedSession.LivePendingIds` | emp-tool/ir/session/chunk_recorder.h:130-135 | the pending ids with a positive count, in chunk order |
| `ChunkedSessions.ChunkedSession.Drop` | emp-tool/ir/session/chunk_recorder.h:137-141 | forgets the chunk, the pending set and both shared constants, nothing else |
| `ChunkedSessions.ChunkedSession.ScanKeep` | emp-tool/ir/session/chunked_session.h:256-262 | finds a stale kept id and a pending one exactly when there is one |
| `ChunkedSessions.ChunkedSession.FlushChunk` | emp-tool/ir/session/chunked_session.h:254-273 | planning, executing and dropping is the machine's flush, And count included |
| `ChunkedSessions.ChunkedSession.RevealValue` | emp-tool/ir/session/chunked_session.h:116-136 | the object's reveal is the machine's step |
| `ChunkedSessions.ChunkedSession.CheckpointScope` | emp-tool/ir/session/chunked_session.h:141-146 | the object's checkpoint() leaves materialized exactly the ids its handles are on, with the bits they stood for, and is the machine's step |
| `ChunkedSessions.ChunkedSession.CheckpointKeep` | emp-tool/ir/session/chunked_session.h:146-152 | the object's checkpoint(keep...) leaves materialized exactly the given ids, with the bits they stood for, and is the machine's step |
| `ChunkedSessions.ChunkedSession.RunCircuit` | emp-tool/ir/session/chunked_session.h:155-166 | the object's run is the machine's step |
| `ChunkedSessions.PlanAnds` | emp-tool/ir/session/chunked_session.h:234-241 | the Ands counted at a flush are the needed Ands of the chunk |
| `Compose.FlattenPreservesMeaning` | emp-tool/ir/context/compose.h:121-156 | the flat program computes, in every context, what interpreting each unit call as a function computes, units with reused wires included |
| `Compose.FlattenIsValid` | emp-tool/ir/context/compose.h:152-155 | the flat program is valid, dense and in emission order |
| `Counts.FlattenedSize` | emp-tool/ir/context/compose.h:121-151 | the flat program has one gate per glue gate and each unit's gates once per call |
| `Compose.InlineHolds` | emp-tool/ir/context/compose.h:137-149 | inlining any prefix of a unit keeps its wires mirrored and everything older in place |
| `Compose.FlattenCompose` | emp-tool/ir/context/compose.h:121-156 | the loops build that program, the closing validation accepts it, and its outputs are the plan's |
| `Compose.ComposeCtx.ExternalInput` | emp-tool/ir/context/compose.h:68-75 | inputs only before any gate or call, never zero wide, never past the last id |
| `Compose.ComposeCtx.Emit` | emp-tool/ir/context/compose.h:63-85 | a glue gate on a fresh id keeps the plan well-formed |
| `Compose.ComposeCtx.PublicBit` | emp-tool/ir/context/compose.h:78-82 | each constant is recorded once and shared |
| `Compose.ComposeCtx.CallUnit` | emp-tool/ir/context/compose.h:90-103 | a call gets fresh consecutive output ids and keeps the plan well-formed; a wrong width or id overflow is refused |
| `Compose.ComposeCtx.Finish` | emp-tool/ir/context/compose.h:105-110 | what was recorded over wires of the context is a well-formed plan |
| `Record.RecordedReplays` | emp-tool/ir/context/record.h:20-61 | for every accepted call sequence and choice of outputs the program is valid, in emission order, and computes in every context what the live run computes, shared constants included |
| `Counts.RecordedSize` | emp-tool/ir/context/record.h:20-61 | the recorded program has one gate per And, Xor or Not call, and one for each constant asked for, however often |
| `Record.RunMirrors` | emp-tool/ir/context/record.h:27-51 | after every call each wire handed out replays to its live value |
| `Record.FinishedValid` | emp-tool/ir/context/record.h:54-60 | the finished program passes validation |
| `Record.RecordCtx.Push` | emp-tool/ir/context/record.h:49-51 | the object's gate emission is the recorder's step |
| `Record.RecordCtx.ExternalInput` | emp-tool/ir/context/record.h:28-41 | refused after a gate, for zero width and on overflow; otherwise consecutive ids |
| `Record.RecordCtx.MakeBit` | emp-tool/ir/context/record.h:43-48 | each constant is recorded once and shared |
| `Record.RecordCtx.Finish` | emp-tool/ir/context/record.h:54-60 | the closing validation accepts what was recorded |
| `Digest.DigestProgram` | emp-tool/ir/context/digest.h:60-79 | the loop is the digest of input count and gate stream |
| `Digest.RunInStep` | emp-tool/ir/context/digest.h:20-52 | over every accepted call sequence both contexts hand out the same ids, and the streamed digest is that of the reservations followed by the recorded gates |
| `Digest.DigestMatchesRecording` | emp-tool/ir/context/digest.h:81-93 | with one input reservation the streamed digest is the recorded program's, for every mixing step |
| `Digest.SameWordsIffOneReservation` | emp-tool/ir/context/digest.h:26-35 | the hashed words agree if and only if inputs were reserved in exactly one call |
| `Digest.ProgramWords` | emp-tool/ir/context/digest.h:60-79 | the words a program's digest hashes are 0xE and the input count, then op code 0 to 4, operands and output of every gate |
| `Digest.SameWordsIff` | emp-tool/ir/context/digest.h:60-79 | two programs hash the same words if and only if they have the same input count and the same gates |
| `Digest.TwoReservations` | emp-tool/ir/context/digest.h:26-35 | two reservations in a row are accepted and hashed one after the other, while the recorded program's digest hashes their sum |
| `Digest.TwoReservationsDiffer` | emp-tool/ir/context/digest.h:81-84 | a call sequence, two inputs of one wire, whose hashed words are not those of its recorded program |
| `Digest.FnvDigestsDiffer` | emp-tool/ir/context/digest.h:81-84 | at that sequence the 64-bit FNV-1a digests differ as well |
| `Digest.DigestCtx.Push` | emp-tool/ir/context/digest.h:36-41 | the object mixes op, operands and output id, in that order |
| `Digest.DigestCtx.ExternalInput` | emp-tool/ir/context/digest.h:30-35 | mixes a tag and the width of every reservation |
| `Digest.DigestCtx.MakeBit` | emp-tool/ir/context/digest.h:44-48 | a constant is mixed on first emission only |
| `Empbc.Save` | emp-tool/ir/empbc.h:83-113 | refuses exactly invalid programs, otherwise writes the laid-out bytes |
| `EmpbcBytes.HeaderBytes` | emp-tool/ir/empbc.h:83-102 | the header of a written file byte by byte, little-endian counts at offsets 8, 12, 16 and 20, and the length of the file |
| `EmpbcBytes.RecordBytes` | emp-tool/ir/empbc.h:103-110 | gate record i stands at 24 + 8 i or 24 + 16 i: three little-endian ids, op code 0 to 4, zeros |
| `EmpbcBytes.OutputBytes` | emp-tool/ir/empbc.h:111 | the output ids follow the records |
| `Empbc.RoundTrip` | emp-tool/ir/empbc.h:49-165 | reading back what was written gives the program, for every valid program with 32-bit counts, both index widths and all reuse levels |
| `Empbc.Load` | emp-tool/ir/empbc.h:117-165 | accepts exactly the byte strings that decode to a valid program of the declared sizes, consumes them to the last byte, and never reads past the end after the size check |
| `Empbc.Reader.ReadHead` | emp-tool/ir/empbc.h:121-136 | checks magic, version, index width and flags before the counts, each read bounds-checked |
| `Empbc.Reader.GateRecord` | emp-tool/ir/empbc.h:148-159 | three indices, an op that must be known, reserved bytes skipped |
| `Empbc.Reader.ReadGates` | emp-tool/ir/empbc.h:147-159 | decodes the records in order, or fails at the first unknown op |
| `Empbc.Reader.ReadOutputs` | emp-tool/ir/empbc.h:160-161 | decodes the output indices in order |
| `Empbc.ResaveIff` | emp-tool/ir/empbc.h:83-165 | saving what was loaded gives the same bytes if and only if the file uses the narrowest index width and zero reserved bytes |
| `Empbc.SaveThenLoad` | emp-tool/ir/empbc.h:83-165 | the two calls together are the identity on valid programs |
| `Sort.NetworkSorts` | emp-tool/circuits/sort.h:35-44 | for every length and every total preorder the network sorts, and only rearranges |
| `Sort.MergeSorts` | emp-tool/circuits/sort.h:39-43 | the stages k = p, p/2, ..., 1 merge sorted blocks of p into sorted blocks of 2p, for every length |
| `Sort.StageNext` | emp-tool/circuits/sort.h:40-43 | a stage carries the invariant on rows of width k to rows of width k/2 |
| `Sort.StageInOrder` | emp-tool/circuits/sort.h:40-43 | a stage's swaps act as one parallel step |
| `Counts.StageIs` | emp-tool/circuits/sort.h:40-43 | stage (p, k) compares x with x + k once each, in ascending order, exactly where both lie in one block of 2p and x / k has the stage's parity |
| `SortLoops.BatcherNetwork` | emp-tool/circuits/sort.h:37-44 | the four loops produce exactly the network's swaps in order |
| `SortLoops.NetworkInRange` | emp-tool/circuits/sort.h:37-44 | every swap is on two different positions below n, lower one first |
| `SortLoops.CompareSwapPair` | emp-tool/circuits/sort.h:27-33 | the pair of keys and payloads is exchanged exactly when the keys are out of order |
| `SortLoops.SortArray` | emp-tool/circuits/sort.h:46-55 | the array ends sorted in the chosen direction and is a permutation of what it was |
| `SortLoops.SortByKey` | emp-tool/circuits/sort.h:57-72 | keys end sorted, and the key-payload pairs are a permutation; unequal lengths are refused untouched |
| `Numeric.AddValue` | emp-tool/circuits/numeric_kernels.h:29-52 | the one-AND carry chain: sum plus weighted carry is the sum of the numbers and the carry in |
| `Numeric.SubValue` | emp-tool/circuits/numeric_kernels.h:54-74 | the borrow chain likewise |
| `Kernels.OrGate` | emp-tool/circuits/numeric_kernels.h:21-25 | the XOR form is OR |
| `Kernels.Mux` | emp-tool/circuits/numeric_kernels.h:90-95 | the XOR form selects |
| `Kernels.AddFull` | emp-tool/circuits/numeric_kernels.h:33-52 | writes the carry chain's sum bits in place, returns the carry if asked, leaves other wires alone, and costs one AND a bit, one less when the carry is dropped |
| `Kernels.SubFull` | emp-tool/circuits/numeric_kernels.h:55-74 | the same for subtraction |
| `Kernels.LessThan` | emp-tool/circuits/numeric_kernels.h:97-107 | the borrow is unsigned comparison, N ANDs |
| `Kernels.IfThenElse` | emp-tool/circuits/numeric_kernels.h:120-132 | selects whole words, also into an operand |
| `Numeric.MulStep` | emp-tool/circuits/numeric_kernels.h:141-144 | a row adds one more bit's partial product modulo 2^N |
| `Kernels.MulFull` | emp-tool/circuits/numeric_kernels.h:134-146 | the product modulo 2^N, with exactly N^2 ANDs |
| `Numeric.TrialBorrow` | emp-tool/circuits/numeric_kernels.h:157-161 | borrow or overflow prefix says exactly whether the shifted divisor exceeds the remainder |
| `Numeric.DivStep` | emp-tool/circuits/numeric_kernels.h:159-164 | a restoring step subtracts the shifted divisor or leaves the remainder |
| `Kernels.OverflowBits` | emp-tool/circuits/numeric_kernels.h:157-158 | overflow[i] says whether the divisor needs more than N - i bits |
| `Kernels.DivFull` | emp-tool/circuits/numeric_kernels.h:148-167 | floor quotient and remainder; a zero divisor gives 2^N - 1 and the dividend; N^2 + 3N - 1 ANDs |
| `Integers.Sub` | emp-tool/circuits/unsigned_int.h:73 | difference modulo 2^N |
| `Integers.SignedLess` | emp-tool/circuits/signed_int.h:65-72 | two's complement comparison |
| `Integers.Magnitude` | emp-tool/circuits/signed_int.h:92 | the magnitude as an unsigned number, the most negative value included |
| `Integers.SignedDiv` | emp-tool/circuits/signed_int.h:89-95 | truncation toward zero modulo 2^N; a zero divisor gives -1, or 1 for a negative dividend |
| `Integers.SignedMod` | emp-tool/circuits/signed_int.h:96-102 | the remainder with the dividend's sign, exactly; the dividend for a zero divisor |
| `Integers.SignedDivExact` | emp-tool/circuits/signed_int.h:85-95 | the signed quotient is exact if and only if it is not the most negative number divided by -1 |
| `ModExp.ModExp` | emp-tool/circuits/unsigned_int.h:160-169 | the loop is square-and-multiply with products cut to N bits before reduction |
| `ModExp.ModExpIs` | emp-tool/circuits/unsigned_int.h:160-169 | base^p modulo q whenever q is 0 (then modulo 2^N), q divides 2^N, or no product can reach 2^N; exponent 0 gives 1 |
| `ModExp.HalfWidthModExp` | emp-tool/circuits/unsigned_int.h:160-169 | base^p mod q for base < 2^(N/2) and 1 < q <= 2^(N/2) |
| `ModExp.ModExpExact` | emp-tool/circuits/unsigned_int.h:158-169 | for an n-bit modulus q, right for every base and exponent if and only if q is 0 or divides 2^n |
| `ModExp.ModExpPromise` | emp-tool/circuits/unsigned_int.h:158-169 | base^p mod q to the letter, for nonzero q, holds for every base and exponent if and only if q divides 2^n and is not 1 |
| `ModExp.ModExpLosesBits` | emp-tool/circuits/unsigned_int.h:163-165 | in four bits 4^2 mod 5 comes out as 0 |
| `Mitccrh.UniformBatch` | emp-tool/runtime/crypto/mitccrh.h:88-101 | if first and last gid of a batch share a bucket the whole batch does, also across the wrap at 2^64 |
| `Mitccrh.BucketIsQuotient` | emp-tool/runtime/crypto/mitccrh.h:88-108 | the bucket of a gid is the gid divided by 2^ReuseShift |
| `Mitccrh.HashLaneIs` | emp-tool/runtime/crypto/mitccrh.h:115-127 | block i of a call from gid g on hashes to y xor AES_k(y), with id = (g + i / H) mod 2^64, y = sigma(x) or x, xor T(id), and k = S xor makeBlock(id / 2^ReuseShift, 0) |
| `Mitccrh.ApplyTiles` | emp-tool/runtime/crypto/aes.hpp:159-202 | tiles of any width write every block's tweaked Davies-Meyer value, in place or not, and nothing else |
| `Mitccrh.ApplyGrouped` | emp-tool/runtime/crypto/aes.hpp:204-224 | groups of four tiles write the same blocks |
| `Mitccrh.EncryptRun` | emp-tool/runtime/crypto/aes.hpp:239-266 | so does the split into tiles of 4, 2 and 1 |
| `Mitccrh.EncryptTiles` | emp-tool/runtime/crypto/aes.hpp:226-266 | run k of n blocks is hashed under key k from its own base gid on |
| `Mitccrh.Mitccrh.SetS` | emp-tool/runtime/crypto/mitccrh.h:64-70 | drops all keys and restarts the stream at 0 |
| `Mitccrh.Mitccrh.RenewAt` | emp-tool/runtime/crypto/mitccrh.h:72-79 | the next call starts at the given gid |
| `Mitccrh.Mitccrh.Renew` | emp-tool/runtime/crypto/mitccrh.h:81-113 | after caching or scheduling, every lane of the batch has its own gid's bucket key, and the stream stands at the next batch |
| `Mitccrh.Mitccrh.Consume` | emp-tool/runtime/crypto/mitccrh.h:147-182 | block i becomes y xor AES_k(y) for its own lane's gid g, with y tweaked by T(g) and k = S xor makeBlock(g / 2^ReuseShift, 0); the stream advances by K lanes, and a call that does not fit takes the next batch |
| `Mitccrh.GidsNeverRepeat` | emp-tool/runtime/crypto/mitccrh.h:161-166 | over every mix of lane counts, before wrapping, each call's gids lie after all earlier ones |
| `Mitccrh.GidsIncreaseUntilWrap` | emp-tool/runtime/crypto/mitccrh.h:161-166 | on the 64-bit gids hashed, for calls less than 2^64 gids apart, the later one lies after the earlier one if and only if the counter has not wrapped |
| `Mitccrh.GidsApartIff` | emp-tool/runtime/crypto/mitccrh.h:42-46 | two such calls share no 64-bit gid if and only if the later one ends within 2^64 gids of where the earlier one began |
| `Mitccrh.RunNeverRepeatsGids` | emp-tool/runtime/crypto/mitccrh.h:42-46 | a run that takes at most 2^64 gids hashes no 64-bit gid twice |
| `Mitccrh.GidsWrap` | emp-tool/runtime/crypto/mitccrh.h:76-79 | from renew_ks(2^64 - 1) with batch 1 the second call hashes gid 0 |
| `Mitccrh.FixedLanesSkipNothing` | emp-tool/runtime/crypto/mitccrh.h:161-166 | with one lane count, call n starts at gid g + nK for every batch size |
| `Mitccrh.ConsumeRun` | emp-tool/runtime/crypto/mitccrh.h:147-182 | on an object, a run of calls with one lane count writes blocks that do not mention the batch size |
| `Mitccrh.BatchSizeInvisible` | emp-tool/runtime/crypto/mitccrh.h:161-166 | two objects with one start point and shift at the same gid write the same blocks over every such run, whatever their batch sizes and tile widths, and end at the same gid |
| `HalfGate.HalfGateCorrect` | emp-tool/runtime/execution/half_gate.h:19-50 | for every hash, offset with low bit 1 and labels, the evaluator's label is the zero label offset exactly when both bits are 1 |
| `HalfGate.GarbledRows` | emp-tool/runtime/execution/half_gate.h:29-34 | bit by bit, the two rows sent are H(A) + H(A + D) + p_b D and H(B) + H(B + D) + A, and the zero label kept is H(A) + p_a T_G + H(B) + p_b (T_E + A) |
| `HalfGate.HalfgatesGarble` | emp-tool/runtime/execution/half_gate.h:19-35 | the object-level garbler, with A's labels under the next gid and B's under the one after |
| `HalfGate.HalfgatesEval` | emp-tool/runtime/execution/half_gate.h:37-50 | the object-level evaluator, on the same two gids |
| `HalfGate.LockstepNext` | emp-tool/runtime/execution/half_gate.h:10-17 | one gate keeps both parties at the same gid with labels that encode the plain bits |
| `HalfGate.GarbledRunIsCorrect` | emp-tool/runtime/execution/half_gate.h:10-17 | over every gate list, from fresh streams of any two even batch sizes, the evaluator holds the label of every wire's plain value and both streams stand at the same gid |
| `HalfGate.GarbleGates` | emp-tool/runtime/execution/half_gate.h:19-35 | over a gate list, the garbler's object yields the specified labels, tables and stream position |
| `HalfGate.EvaluateGates` | emp-tool/runtime/execution/half_gate.h:37-50 | the same for the evaluator's object |
| `HalfGate.GarbleAndEvaluate` | emp-tool/runtime/execution/half_gate.h:10-17 | two objects with one start point and shift and batch sizes of their own: over every gate list the evaluator ends with the label of every wire's plain value, all tables spent, and both stand at the same gid |
| `HalfGate.GarbleFromStart` | emp-tool/runtime/execution/half_gate.h:10-17 | the same from two fresh objects of any even batch sizes |
| `Poly.RemainderUnique` | emp-tool/runtime/crypto/f2k.h:14-18 | polynomials of degree below 128 that are congruent modulo x^128 + x^7 + x^2 + x + 1 are equal |
| `F2k.FullShift` | emp-tool/runtime/crypto/f2k.hpp:67-92 | a 128-bit shift is the 32-bit lane shift, the shuffled carries between lanes, and the carry out |
| `F2k.ReduceCorrect` | emp-tool/runtime/crypto/f2k.hpp:67-92 | reduce is the remainder of lo + x^128 hi modulo x^128 + x^7 + x^2 + x + 1 |
| `F2k.ReduceSum` | emp-tool/runtime/crypto/f2k.hpp:197-204 | reducing a sum is summing reductions |
| `F2k.Mul128Correct` | emp-tool/runtime/crypto/f2k.hpp:17-26 | four 64-bit products make the exact 256-bit product |
| `F2k.GfMulCorrect` | emp-tool/runtime/crypto/f2k.hpp:96-100 | gfmul is multiplication modulo that polynomial |
| `F2k.GfMulCommutes` | emp-tool/runtime/crypto/f2k.hpp:96-100 | gfmul is commutative |
| `F2k.GfMulAssociates` | emp-tool/runtime/crypto/f2k.hpp:96-100 | gfmul is associative |
| `Coefficients.ProductCoefficient` | emp-tool/runtime/crypto/f2k.h:14-18 | x^k occurs in a product if and only if an odd number of pairs of terms meet there |
| `Coefficients.SmallPowers` | emp-tool/runtime/crypto/f2k.hpp:96-100 | below degree 128 the field product of x^i and x^j is x^(i + j) |
| `Coefficients.TopPower` | emp-tool/runtime/crypto/f2k.hpp:96-100 | x^128 is x^7 + x^2 + x + 1 |
| `Coefficients.GfMulSum` | emp-tool/runtime/crypto/f2k.hpp:96-100 | the field multiplication distributes over exclusive or |
| `F2kVectors.DrainLanes` | emp-tool/runtime/crypto/f2k.hpp:119-141 | draining chunks of any lane width accumulates exactly the unreduced products passed |
| `F2kVectors.InnProdNoRed` | emp-tool/runtime/crypto/f2k.hpp:176-189 | whatever lane widths exist, the sum of all products as polynomials |
| `F2kVectors.InnProdRed` | emp-tool/runtime/crypto/f2k.hpp:197-204 | one deferred reduction gives the sum of products reduced one by one, for every length |
| `F2kVectors.UniHashCoeffGen` | emp-tool/runtime/crypto/f2k.hpp:254-285 | coeff[i] is seed^(i + 1) in the field, for every size |
| `F2kPacking.PackByte` | emp-tool/runtime/crypto/f2k.hpp:143-171 | bit shifts in 64-bit lanes and one byte shift add data[i] x^i for eight i |
| `F2kPacking.Packing` | emp-tool/runtime/crypto/f2k.hpp:437-456 | the packed element is congruent to the sum of data[i] x^i |

## Left out

- Sockets, TLS, files, asset lookup, command-line tools, test mode and benchmarks: plumbing.
- AES, SHA-256, Keccak, hash-to-curve and `Float_T` circuits, and the float assets: behaviour that lives in tables or libraries.
- Cryptographic strength of the hash and of garbling: only correctness is stated.
- SIMD intrinsics of the AES and transpose tiers, `reduce_reflect`, the AVX packing variants and the bool-coefficient inner product: lane width is a parameter instead.
- `drain_tiles`, CTR and plain ECB tiles of aes.hpp: the tweaked memory tiles carry the same decomposition.
- Bit packing of bools into bytes (`bools_to_bits`, `bits_to_bools`): a SIMD block is a sequence of 128 bools.
- Integer operators beyond add, subtract, multiply, divide, compare, select and mod_exp: public shifts and rotates rewire bits, secret shifts are chains of selects, `popcount` and `leading_zeros` are sums of bits, and width changes and clear codecs copy bits.
- `count_pass` and the reachability counts of `layout_pass`, which follow a constant's dummy operand and are upper bounds.
- Input batches, deferred inputs, `run_artifact` and recipient validation of the session: a recipient is one flag, and a batch is an input call at its finish.
- SessionProof.RevealRefines: the recipient check of the protocol hook is not modelled.
- ChunkedSessions.ChunkedSession.RevealValue: neither here.
- Two recorders at once and values that outlive their recorder: object lifetimes are what a caller of the machine must respect.
- Schedule.MakeScheduledPlan: the digest a debug build compares is not part of the plan.
- Schedule.ScheduledExecute: a plan made for another program with the same counts, which only the debug digest would refuse, is excluded.
- Simd.SimdExecute: the same plan is excluded.
- Compose.FlattenCompose: takes a plan the recorder can produce; dense ids past 2^32 are not cut, as the source does not check them.
- Empbc.RoundTrip: counts below 2^32, as the program object's fields are 32-bit.
- HalfGate.GarbledRunIsCorrect: the caller's free gates are modelled as the header describes them; the calling protocol is not part of this model, and `GarbleGates` and `EvaluateGates` stand for its loops.
