# PVC-RotSymEnc-1: a verified model

PVC-RotSymEnc-1 is an authenticated encryption construction built on a controlled cube. These modules
model its layers and prove what each of them promises.

* **The C1 cube machine.** A working state (512 cells, a cursor, the axis turned last, controller words, a
  symbol index) moves through key, forward, return, finalization and squeeze phases. `Machine` is
  generic in the controller's word arithmetic; `ControllerA2` (Candidate C1) and `ControllerB` supply
  it. `Chain` and `Evaluation` prove what every run keeps and how much it does, for any key, message,
  profile and starting cube. `Recorded` spells out what an evaluation records, so that its trace determines the key
  and the message; `Separation` proves what the words of a move, a domain change and the return pass keep apart.
  `Locality` proves what the finalizer cannot see. `WorkingState` and `Cube`
  are the mutable objects of the program, proved to take exactly the steps of the machine.
* **The amount mapper and the symbol injection.** `AmountMapper` proves the counting claim of the source
  comment (13 or 14 seeds for each of 5040 orders); `AmountChoice` carries it
  to the amount of a move; `Injection` proves that injecting a symbol loses nothing.
* **The persistent nonce allocator.** `NonceProtocol` interleaves any number of processes step by step,
  each of which may die at any step; `NonceAllocator` is the call itself, `NonceCodec` and `NonceCounter`
  its record and its loops.
* **The Walsh spectrum.** `Walsh` and `Fwht` prove the in-place transform against the double sum,
  `Nonlinearity` what its peak says about affine functions, `MaskEnumeration`, `Families`, `WalshTrial` and
  `WalshStratum` the campaign around it.
* **Authenticated encryption.** `Frames`, `Mac` and `Aead` model A1 over M1 with C1 as an arbitrary
  deterministic function, and `Candidate` puts C1 itself in its place; `IndependentMac` and `IndependentAead` model the second implementation and
  prove where it agrees. `Composition` joins the allocator and the stream inputs.

Two remarks. The independent implementation writes its block count as (n + 31) / 32 in a `size_t`, an
expression that would wrap for the last 31 lengths (`BlockCountsAgreeExactly`, `KeystreamsAgreeExactly`).
Such lengths cannot reach the loop: the output vector of that length is constructed first, which throws std::length_error, and
the M1 frame would not fit either, so sealing and opening agree on every input (`SealsAgree`,
`OpensAgree`). The mixing word of controller B is exactly two-to-one in its first argument
(`Mix32IsTwoToOne`), so its line feedback can merge two cursors where that of A2 cannot:
`LineFeedbackCanMerge` gives two such moves, `LineFeedbackMerges` the exact condition.

Conventions: bytes and machine words are bit-vectors where their bits matter and naturals with explicit
reduction modulo 2^64 where only counting does; `size_t` is a natural below 2^64; exceptions are `Result`
values. Coordinates are typed 0..7 and amounts 1..7, so every `unchecked` access is in range by type.
Keys, random draws and system-call outcomes are parameters.

## Model

| member | source | states |
|---|---|---|
| AmountMapper.UnfeistelFeistel | external/pvc_aead0_a1/external/pvc_mac0_m1/external/pvc_prf1_c1/src/controller.cpp:138-148 | For any round function and number of rounds, the Feistel rounds can be taken back, last one first |
| AmountMapper.FeistelUnfeistel | external/pvc_aead0_a1/external/pvc_mac0_m1/external/pvc_prf1_c1/src/controller.cpp:138-148 | For any round function, every pair of bytes is reached, so each number of rounds is a bijection |
| AmountMapper.SeedPermutationIsBijective | external/pvc_aead0_a1/external/pvc_mac0_m1/external/pvc_prf1_c1/src/controller.cpp:122-148 | The six concrete rounds are a bijection of the 16-bit seeds, with an explicit inverse |
| AmountMapper.AmountSeedPermutation | external/pvc_aead0_a1/external/pvc_mac0_m1/external/pvc_prf1_c1/src/controller.cpp:138-148 | The two-variable loop computes the six Feistel rounds of the split seed |
| AmountMapper.DecodeIsOrder | external/pvc_aead0_a1/external/pvc_mac0_m1/external/pvc_prf1_c1/src/controller.cpp:154-173 | For any pool of distinct elements, decoding any rank below n! yields a rearrangement of the whole pool |
| AmountMapper.EncodeDecode | external/pvc_aead0_a1/external/pvc_mac0_m1/external/pvc_prf1_c1/src/controller.cpp:154-173 | For any pool of distinct elements, the rank can be read back from the decoded order |
| AmountMapper.DecodeEncode | external/pvc_aead0_a1/external/pvc_mac0_m1/external/pvc_prf1_c1/src/controller.cpp:154-173 | Every rearrangement of the pool is decoded from exactly its own rank, so ranks and orders correspond one to one |
| AmountMapper.ScaleIsNearUniform | external/pvc_aead0_a1/external/pvc_mac0_m1/external/pvc_prf1_c1/src/controller.cpp:151-155 | Scaling any M seeds to any N ranks by floor gives every rank floor(M/N) or one more preimages |
| AmountMapper.LargeRanksAreTheRemainder | external/pvc_aead0_a1/external/pvc_mac0_m1/external/pvc_prf1_c1/src/controller.cpp:151-155 | Exactly M mod N of the ranks have the extra preimage |
| AmountMapper.AmountOrderIsPermutation | external/pvc_aead0_a1/external/pvc_mac0_m1/external/pvc_prf1_c1/src/controller.cpp:150-173 | Every seed selects a rearrangement of 1..7, so no amount is the identity rotation |
| AmountMapper.AmountPermutation | external/pvc_aead0_a1/external/pvc_mac0_m1/external/pvc_prf1_c1/src/controller.cpp:150-173 | The loop with the factorial table and the in-place pool returns the order the seed selects |
| AmountMapper.ShiftDown | external/pvc_aead0_a1/external/pvc_mac0_m1/external/pvc_prf1_c1/src/controller.cpp:167-170 | The inner loop removes one entry of the remaining pool and keeps the order of the rest |
| AmountMapper.AllOrdersAreAll | external/pvc_aead0_a1/external/pvc_mac0_m1/external/pvc_prf1_c1/src/controller.cpp:151-155 | The decoded orders are all the rearrangements of 1..7 |
| AmountMapper.EveryOrderHas13Or14Seeds | external/pvc_aead0_a1/external/pvc_mac0_m1/external/pvc_prf1_c1/src/controller.cpp:151-155 | Each of the 5040 orders is selected by exactly 13 or 14 of the 65536 seeds |
| AmountMapper.Exactly16OrdersHave14Seeds | external/pvc_aead0_a1/external/pvc_mac0_m1/external/pvc_prf1_c1/src/controller.cpp:151-155 | Exactly 16 of the 5040 orders are selected by 14 seeds |
| AmountChoice.EachSlotHolds720 | external/pvc_aead0_a1/external/pvc_mac0_m1/external/pvc_prf1_c1/src/controller.cpp:150-173 | Each amount stands in each slot of exactly 720 of the 5040 orders |
| AmountChoice.EachAmountIsChosen | external/pvc_aead0_a1/external/pvc_mac0_m1/external/pvc_prf1_c1/src/controller.cpp:391-417 | Over the 65536 values of the transcript lane that enters the seed, all else fixed, a move turns by each of the seven amounts at least 13*720 and at most 14*720 times, in the phases where neither the amount word nor a folded slot reads that lane |
| AmountChoice.LaneReachesEverySeed | external/pvc_aead0_a1/external/pvc_mac0_m1/external/pvc_prf1_c1/src/controller.cpp:391-404 | The lane reaches every seed exactly in the phases other than 3 and 4 of eight |
| AmountChoice.LaneCancels | external/pvc_aead0_a1/external/pvc_mac0_m1/external/pvc_prf1_c1/src/controller.cpp:391-404 | In phase 3 of eight the high byte of the seed, in phase 4 the low byte, does not depend on the lane: it cancels against the byte of the amount word |
| Injection.WithdrawInject | external/pvc_aead0_a1/external/pvc_mac0_m1/external/pvc_prf1_c1/src/controller.cpp:197-245 | For every symbol, domain, cursor and index the injection can be taken back: transcript, feedback, amount, axis |
| Injection.InjectWithdraw | external/pvc_aead0_a1/external/pvc_mac0_m1/external/pvc_prf1_c1/src/controller.cpp:197-245 | Every 128-bit controller state is reached, so the injection is a bijection |
| Injection.SymbolsSeparate | external/pvc_aead0_a1/external/pvc_mac0_m1/external/pvc_prf1_c1/src/controller.cpp:197-245 | From one state, different symbols give different axis_control words |
| Separation.InjectionSeparates | external/pvc_aead0_a1/external/pvc_mac0_m1/external/pvc_prf1_c1/src/controller.cpp:197-245 | Equal injections from one controller and index have the same domain, whatever the symbols and cursors, and the same symbol exactly when the same cursor |
| Separation.InjectionSeparatesB | external/pvc_aead0_a1/external/pvc_mac0_m1/external/pvc_prf1_c1/src/controller_b.cpp:111-139 | From one state, controller B injects different symbols to different controllers |
| Separation.EnterSeparates | external/pvc_aead0_a1/external/pvc_mac0_m1/external/pvc_prf1_c1/src/controller.cpp:280-327 | Over the same diagonal bytes a domain change is injective: in the controller for one length, and in the length for one transcript |
| Separation.EnterSeparatesB | external/pvc_aead0_a1/external/pvc_mac0_m1/external/pvc_prf1_c1/src/controller_b.cpp:164-190 | Over the same diagonal bytes a domain change of controller B separates lengths |
| Separation.DomainCodeIsInjective | external/pvc_aead0_a1/external/pvc_mac0_m1/external/pvc_prf1_c1/include/pvc1/controller.hpp:15-23 | The nine domains have different codes |
| Separation.DecisionWordsSeparate | external/pvc_aead0_a1/external/pvc_mac0_m1/external/pvc_prf1_c1/src/controller.cpp:354-398 | The axis word shows the axis control and the amount word the amount control |
| Separation.AxisChoiceFollowsTranscript | external/pvc_aead0_a1/external/pvc_mac0_m1/external/pvc_prf1_c1/src/controller.cpp:364-379 | With the byte kept that selects the bit, two transcripts choose the same axis exactly when they agree in that one bit |
| Separation.ProbesFollowCursor | external/pvc_aead0_a1/external/pvc_mac0_m1/external/pvc_prf1_c1/src/controller.cpp:78-95 | The four probed cells move along with the cursor |
| CubeGeometry.RotateCarries | external/pvc_aead0_a1/external/pvc_mac0_m1/external/pvc_prf1_c1/src/cube.cpp:135-166 | The content of every cell of the line arrives exactly amount places further on, as the cursor does |
| CubeGeometry.RotateCompose | external/pvc_aead0_a1/external/pvc_mac0_m1/external/pvc_prf1_c1/src/cube.cpp:135-166 | Rotations of one line, from any two of its points, compose by adding amounts modulo 8 |
| CubeGeometry.RotateUndo | external/pvc_aead0_a1/external/pvc_mac0_m1/external/pvc_prf1_c1/src/cube.cpp:135-166 | Rotating by amount and then by its complement to 8 restores the cube |
| CubeGeometry.RotateKeepsCells | external/pvc_aead0_a1/external/pvc_mac0_m1/external/pvc_prf1_c1/src/cube.cpp:135-166 | A rotation keeps the multiset of the 512 cells |
| CubeGeometry.RotateKeepsLineSums | external/pvc_aead0_a1/external/pvc_mac0_m1/external/pvc_prf1_c1/src/cube.cpp:135-203 | A rotation leaves the sum of every line along its own axis unchanged |
| CubeGeometry.SameCellsDoubleByte | external/pvc_aead0_a1/external/pvc_mac0_m1/external/pvc_prf1_c1/src/cube.cpp:211-223 | The double-byte histogram depends on the multiset of cells only |
| CubeObject.Cube.RotateLine | external/pvc_aead0_a1/external/pvc_mac0_m1/external/pvc_prf1_c1/src/cube.cpp:135-166 | The eight in-place writes leave exactly the rotated cube |
| CubeObject.Cube.ReadLine | external/pvc_aead0_a1/external/pvc_mac0_m1/external/pvc_prf1_c1/src/controller.cpp:108-120 | The loop reads the eight cells of the line in order of position |
| CubeObject.Cube.Histogram | external/pvc_aead0_a1/external/pvc_mac0_m1/external/pvc_prf1_c1/src/cube.cpp:211-217 | Each counter is the number of cells holding that byte |
| CubeObject.Cube.HasDoubleByteHistogram | external/pvc_aead0_a1/external/pvc_mac0_m1/external/pvc_prf1_c1/src/cube.cpp:219-223 | The result is true exactly when every byte value occurs in two cells |
| CubeObject.Cube.BodyDiagonals | external/pvc_aead0_a1/external/pvc_mac0_m1/external/pvc_prf1_c1/src/cube.cpp:225-243 | The digest holds the 32 diagonal cells in the order of the four loops |
| Chain.RewindRestores | external/pvc_aead0_a1/external/pvc_mac0_m1/external/pvc_prf1_c1/src/controller.cpp:424-502 | Any legal run is undone from its trace: rotating by 8 - amount at each recorded cursor, last move first, restores the starting cube |
| Chain.ChainKeepsCells | external/pvc_aead0_a1/external/pvc_mac0_m1/external/pvc_prf1_c1/src/controller.cpp:424-502 | Any legal run keeps the multiset of cells and with it the double-byte histogram |
| Chain.CursorCarriesItsCell | external/pvc_aead0_a1/external/pvc_mac0_m1/external/pvc_prf1_c1/src/controller.cpp:439-440 | Along any legal run the byte under the cursor is the byte it started on |
| Chain.ConsecutiveMoves | external/pvc_aead0_a1/external/pvc_mac0_m1/external/pvc_prf1_c1/src/controller.cpp:424-502 | Along any run each move changes the cursor in exactly one coordinate, the next starts where it ended, and no two consecutive moves turn the same axis |
| Chain.MoveTracks | external/pvc_aead0_a1/external/pvc_mac0_m1/external/pvc_prf1_c1/src/controller.cpp:424-502 | One move of the machine extends a legal run by one legal move, for any controller |
| Chain.SymbolTracks | external/pvc_aead0_a1/external/pvc_mac0_m1/external/pvc_prf1_c1/src/controller.cpp:504-519 | A symbol is absorbed exactly for 1..255 moves, adds that many legal moves and counts one symbol modulo 2^64 |
| Chain.SequenceTracks | external/pvc_aead0_a1/external/pvc_mac0_m1/external/pvc_prf1_c1/src/controller.cpp:521-529 | A sequence of n symbols adds n times the move count and counts n symbols |
| Evaluation.KeyTracks | external/pvc_aead0_a1/external/pvc_mac0_m1/external/pvc_prf1_c1/src/key_schedule.cpp:65-92 | The three framed key passes run exactly for a valid profile, make 72f + 32r + 16s moves and reset the symbol index |
| Evaluation.ReturnTracks | external/pvc_aead0_a1/external/pvc_mac0_m1/external/pvc_prf1_c1/src/return_pass.cpp:213-243 | The return pass runs exactly for a valid profile and appends init_symbols*init_moves + n*message_moves + seal_symbols*seal_moves legal moves |
| Evaluation.SqueezeTracks | external/pvc_aead0_a1/external/pvc_mac0_m1/external/pvc_prf1_c1/src/finalization.cpp:75-98 | The squeeze of n bytes makes n times the move count legal moves and counts n symbols |
| Evaluation.BoundTracks | external/pvc_aead0_a1/external/pvc_mac0_m1/external/pvc_prf1_c1/src/finalization.cpp:58-99 | Binding and squeeze run exactly for valid counts and return 32 bytes with exact move and symbol counts |
| Evaluation.EvaluateTracks | external/pvc_aead0_a1/external/pvc_mac0_m1/external/pvc_prf1_c1/src/key_schedule.cpp:208-218 | For any controller, key, message, start and profile: the evaluation returns exactly when no count is rejected, and with these exact counts |
| Evaluation.EvaluationCompletes | external/pvc_aead0_a1/external/pvc_mac0_m1/external/pvc_prf1_c1/src/key_schedule.cpp:125-218 | Every evaluation that returns keeps the cells and the histogram, can be rewound from its trace, is a legal run, and carries the cursor cell |
| Evaluation.DefaultEvaluation | external/pvc_aead0_a1/external/pvc_mac0_m1/external/pvc_prf1_c1/src/key_schedule.cpp:208-218 | With the default profile and a 16-byte binding, n bytes take exactly 704 + 16n moves and 2n + 72 counted symbols |
| Recorded.SequenceStamps | external/pvc_aead0_a1/external/pvc_mac0_m1/external/pvc_prf1_c1/src/controller.cpp:504-529 | A word adds exactly its own symbols to the trace, in order, each in its own phases |
| Recorded.EvaluationRecords | external/pvc_aead0_a1/external/pvc_mac0_m1/external/pvc_prf1_c1/src/key_schedule.cpp:65-218 | The trace of an evaluation records, with domains and phases, exactly the header, the key pairs, the two key return words, the message, the return words, the binding and the echoed output, and nothing else |
| Recorded.TraceDeterminesInputs | external/pvc_aead0_a1/external/pvc_mac0_m1/external/pvc_prf1_c1/src/key_schedule.cpp:65-218 | For any controllers and starts, two evaluations under one profile that record the same symbols have the same key and the same message |
| Recorded.KeyIsRecorded | external/pvc_aead0_a1/external/pvc_mac0_m1/external/pvc_prf1_c1/src/key_schedule.cpp:72-78 | Byte i of the key, masked by its position, is the symbol of move forward_moves*(8 + 2i) |
| Recorded.MessageIsRecorded | external/pvc_aead0_a1/external/pvc_mac0_m1/external/pvc_prf1_c1/src/key_schedule.cpp:153-155 | Byte j of the message is the symbol of its own moves, right after the key schedule |
| Recorded.ReturnAbsorbsWords | external/pvc_aead0_a1/external/pvc_mac0_m1/external/pvc_prf1_c1/src/return_pass.cpp:213-243 | The return pass absorbs exactly three words: the initial symbols of the snapshot, one symbol for each message byte from the last to the first, and the seal symbols, each from the state reached so far |
| Recorded.PlainReturnReverses | external/pvc_aead0_a1/external/pvc_mac0_m1/external/pvc_prf1_c1/src/return_pass.cpp:227-235 | If the returned symbol is the message byte itself, the middle word is the reversed message |
| Recorded.PickedIsSequence | external/pvc_aead0_a1/external/pvc_mac0_m1/external/pvc_prf1_c1/src/return_pass.cpp:223-242 | Forming and absorbing symbols one by one is absorbing the word they form |
| Recorded.SqueezeStamps | external/pvc_aead0_a1/external/pvc_mac0_m1/external/pvc_prf1_c1/src/finalization.cpp:75-98 | The squeeze records each output byte as it is echoed, in order |
| KeySchedule.CrossFollows | external/pvc_aead0_a1/external/pvc_mac0_m1/external/pvc_prf1_c1/src/key_schedule.cpp:29-37 | A change of one key byte changes exactly the three cross symbols that read it |
| KeySchedule.ReturnFollows | external/pvc_aead0_a1/external/pvc_mac0_m1/external/pvc_prf1_c1/src/key_schedule.cpp:39-48 | A change of one key byte changes exactly the three return symbols that read it |
| KeySchedule.SealFollows | external/pvc_aead0_a1/external/pvc_mac0_m1/external/pvc_prf1_c1/src/key_schedule.cpp:50-60 | A change of one key byte changes exactly the seal symbols that read it |
| ControllerA2.CandidateC1 | external/pvc_aead0_a1/external/pvc_mac0_m1/external/pvc_prf1_c1/src/key_schedule.cpp:208-218 | Candidate C1 with its own words, from any starting state, completes with those counts and conservation laws |
| ControllerB.ControllerBCompletes | external/pvc_aead0_a1/external/pvc_mac0_m1/external/pvc_prf1_c1/src/key_schedule.cpp:220-230 | Controller B, from any starting state, completes with 736 + 16n moves and 2n + 80 symbols under the same conservation laws |
| ControllerB.SelectedIsFirstLeast | external/pvc_aead0_a1/external/pvc_mac0_m1/external/pvc_prf1_c1/src/controller_b.cpp:228-258 | The selected amount is the first of the seven whose score is least, also when no score is below the initial bound |
| ControllerB.SelectAmount | external/pvc_aead0_a1/external/pvc_mac0_m1/external/pvc_prf1_c1/src/controller_b.cpp:228-258 | The loop over the seven candidates selects that amount |
| Separation.ScoreIsLocal | external/pvc_aead0_a1/external/pvc_mac0_m1/external/pvc_prf1_c1/src/controller_b.cpp:228-253 | The score of a candidate depends, among the scanned cells, on its own alone |
| Separation.OneScanMovesOwnCandidate | external/pvc_aead0_a1/external/pvc_mac0_m1/external/pvc_prf1_c1/src/controller_b.cpp:228-258 | A change of one scanned cell leaves the amount or moves it to or from the candidate of that cell |
| ControllerA2.LineFeedbackSeparates | external/pvc_aead0_a1/external/pvc_mac0_m1/external/pvc_prf1_c1/src/controller.cpp:175-195 | For equal lines and decisions the line feedback of two moves is equal exactly when the cursor is the same |
| Separation.UpdateSeparatesLines | external/pvc_aead0_a1/external/pvc_mac0_m1/external/pvc_prf1_c1/src/controller.cpp:454-486 | After a move the controller separates line feedbacks; already its feedback word does, and so do its axis and amount words together |
| Separation.UpdateSeparatesMoves | external/pvc_aead0_a1/external/pvc_mac0_m1/external/pvc_prf1_c1/src/controller.cpp:447-486 | Two moves of one decision with the same probes and transcript reach the same controller only with the same symbol, new cursor and line feedback |
| Separation.UpdateSeparatesCursors | external/pvc_aead0_a1/external/pvc_mac0_m1/external/pvc_prf1_c1/src/controller.cpp:439-486 | Two moves that agree up to the new cursor update the controller alike exactly when the cursor is the same |
| Separation.UpdateSeparatesLinesB | external/pvc_aead0_a1/external/pvc_mac0_m1/external/pvc_prf1_c1/src/controller_b.cpp:285-318 | Although each lane of controller B merges pairs, its updated controller separates line feedbacks |
| Separation.InitialControllerSeparates | external/pvc_aead0_a1/external/pvc_mac0_m1/external/pvc_prf1_c1/src/controller.cpp:249-278 | The starting controller shows its 64-bit seed, whatever the cursor and the diagonals |
| ControllerA2.FingerprintSeparates | external/pvc_aead0_a1/external/pvc_mac0_m1/external/pvc_prf1_c1/src/controller.cpp:549-563 | Over equal cells two fingerprints are equal exactly when the words they start from are; a change of any one controller word changes the fingerprint |
| ControllerA2.BoundarySeparates | external/pvc_aead0_a1/external/pvc_mac0_m1/external/pvc_prf1_c1/src/return_pass.cpp:218-222 | Two snapshots that differ in one controller word enter the return pass with different boundaries |
| Separation.ReturnedSymbolSeparates | external/pvc_aead0_a1/external/pvc_mac0_m1/external/pvc_prf1_c1/src/return_pass.cpp:124-142 | The symbol folded back shows the message byte, for any states, length and index |
| Separation.ReturnedSymbolBSeparates | external/pvc_aead0_a1/external/pvc_mac0_m1/external/pvc_prf1_c1/src/return_pass.cpp:144-163 | The same for controller B |
| Separation.ReturnMaskSeparates | external/pvc_aead0_a1/external/pvc_mac0_m1/external/pvc_prf1_c1/src/return_pass.cpp:124-142 | Of two snapshots with one transcript it shows the one controller byte it takes, of two current states with one controller the one cell it probes |
| Separation.InitSymbolSeparates | external/pvc_aead0_a1/external/pvc_mac0_m1/external/pvc_prf1_c1/src/return_pass.cpp:73-97 | An initial symbol shows a change of either of its two cells when the other is kept, and of no further cell |
| Separation.SealedSymbolSeparates | external/pvc_aead0_a1/external/pvc_mac0_m1/external/pvc_prf1_c1/src/return_pass.cpp:165-181 | With the transcripts kept, a seal symbol shows the one byte it takes of each of the two controllers |
| Separation.BindingDetermines | external/pvc_aead0_a1/external/pvc_mac0_m1/external/pvc_prf1_c1/src/finalization.cpp:36-72 | The 16 bytes bound to the state determine the controller |
| Separation.BindingDeterminesB | external/pvc_aead0_a1/external/pvc_mac0_m1/external/pvc_prf1_c1/src/finalization.cpp:48-54 | The 24 bytes bound to the state determine controller B |
| Separation.OutputSeparates | external/pvc_aead0_a1/external/pvc_mac0_m1/external/pvc_prf1_c1/src/finalization.cpp:75-98 | The output byte shows a change of any one of the three cells it reads |
| Separation.OutputSeparatesB | external/pvc_aead0_a1/external/pvc_mac0_m1/external/pvc_prf1_c1/src/finalization.cpp:117-140 | The same for controller B |
| ControllerB.Mix32IsTwoToOne | external/pvc_aead0_a1/external/pvc_mac0_m1/external/pvc_prf1_c1/src/controller_b.cpp:40-51 | The mixing word is no bijection: for any other arguments each first argument has exactly one different partner that is mixed alike |
| ControllerB.Mix32MergesExactly | external/pvc_aead0_a1/external/pvc_mac0_m1/external/pvc_prf1_c1/src/controller_b.cpp:40-51 | Two first arguments are mixed alike exactly when they are equal or their words before the last step differ by 0xDDBB7755 |
| ControllerB.LineFeedbackMerges | external/pvc_aead0_a1/external/pvc_mac0_m1/external/pvc_prf1_c1/src/controller_b.cpp:90-109 | For equal lines and decisions the line feedback of two moves is equal exactly when the cursor is the same or some round merges the two values |
| ControllerB.PartnersMerge | external/pvc_aead0_a1/external/pvc_mac0_m1/external/pvc_prf1_c1/src/controller_b.cpp:90-109 | Round 0 merges exactly the start words that are partners, a condition on the two moves alone, and partners have equal feedback |
| MergeWitness.LineFeedbackCanMerge | external/pvc_aead0_a1/external/pvc_mac0_m1/external/pvc_prf1_c1/src/controller_b.cpp:90-109 | Two moves with the same decision on the same line end at different cursors and have equal line feedback |
| ControllerB.FingerprintSeparatesB | external/pvc_aead0_a1/external/pvc_mac0_m1/external/pvc_prf1_c1/src/controller_b.cpp:368-382 | Over equal cells and lanes two fingerprints are equal exactly when the words they start from are; with equal cursor and index exactly when the paths are |
| ControllerB.OneLaneShowsExactly | external/pvc_aead0_a1/external/pvc_mac0_m1/external/pvc_prf1_c1/src/controller_b.cpp:368-382 | States that differ in one lane only have equal fingerprints exactly when that lane round maps the two lanes together |
| ControllerB.BootstrapBKeepsCells | external/pvc_aead0_a1/external/pvc_mac0_m1/external/pvc_prf1_c1/src/controller_b.cpp:143-162 | From the bootstrap state over any cube controller B returns, and its final cube is that cube rearranged |
| Locality.MoveInStep | external/pvc_aead0_a1/external/pvc_mac0_m1/external/pvc_prf1_c1/src/controller.cpp:424-502 | Two states that differ only in cells the move does not read make the same move and still differ in exactly those cells |
| Locality.FinalizerLocality | external/pvc_aead0_a1/external/pvc_mac0_m1/external/pvc_prf1_c1/src/finalization.cpp:58-99 | If the finalizer reads none of the differing cells, the whole output, moves and controllers agree and the same cells still differ |
| Locality.OutputPrefixLocality | external/pvc_aead0_a1/external/pvc_mac0_m1/external/pvc_prf1_c1/src/finalization.cpp:58-99 | Output bytes 0..n agree if no differing cell is read before or while byte n is formed |
| Locality.SqueezeExtends | external/pvc_aead0_a1/external/pvc_mac0_m1/external/pvc_prf1_c1/src/finalization.cpp:75-98 | A longer squeeze begins with the bytes of a shorter one |
| WorkingStates.WorkingState.Enter | external/pvc_aead0_a1/external/pvc_mac0_m1/external/pvc_prf1_c1/src/controller.cpp:280-327 | Changing the domain on the object reads the diagonal cells and replaces the controller words, nothing else |
| WorkingStates.WorkingState.PreviewMove | external/pvc_aead0_a1/external/pvc_mac0_m1/external/pvc_prf1_c1/src/controller.cpp:329-422 | The preview on the object changes nothing and reads exactly the probe and scan cells |
| WorkingStates.WorkingState.Apply | external/pvc_aead0_a1/external/pvc_mac0_m1/external/pvc_prf1_c1/src/controller.cpp:424-502 | One move on the object, rotating its cube in place, is the move of the machine, trace and read set included |
| WorkingStates.WorkingState.Absorb | external/pvc_aead0_a1/external/pvc_mac0_m1/external/pvc_prf1_c1/src/controller.cpp:504-519 | The phase loop is the machine absorbing one symbol; a rejected count changes nothing |
| WorkingStates.WorkingState.AbsorbAll | external/pvc_aead0_a1/external/pvc_mac0_m1/external/pvc_prf1_c1/src/controller.cpp:521-529 | The symbol loop is the machine absorbing the sequence |
| WorkingStates.WorkingState.AbsorbForward | external/pvc_aead0_a1/external/pvc_mac0_m1/external/pvc_prf1_c1/src/key_schedule.cpp:69-78 | The header and the per-byte pair of symbols are the forward key pass |
| WorkingStates.WorkingState.AbsorbKeySchedule | external/pvc_aead0_a1/external/pvc_mac0_m1/external/pvc_prf1_c1/src/key_schedule.cpp:65-92 | The three key loops and the index reset are the key schedule of the machine |
| WorkingStates.WorkingState.ApplyReturn | external/pvc_aead0_a1/external/pvc_mac0_m1/external/pvc_prf1_c1/src/return_pass.cpp:213-243 | The three loops of the return pass, each symbol computed from the state so far, are the return pass of the machine |
| WorkingStates.WorkingState.BindController | external/pvc_aead0_a1/external/pvc_mac0_m1/external/pvc_prf1_c1/src/finalization.cpp:65-72 | The binding loop feeds back the controller bytes taken at the domain change |
| WorkingStates.WorkingState.SqueezeBytes | external/pvc_aead0_a1/external/pvc_mac0_m1/external/pvc_prf1_c1/src/finalization.cpp:75-98 | The output loop emits each byte before feeding it back |
| WorkingStates.WorkingState.ResearchBoundOutput | external/pvc_aead0_a1/external/pvc_mac0_m1/external/pvc_prf1_c1/src/finalization.cpp:58-99 | The finalizer on the object returns exactly the bytes of the machine, or fails as it does |
| WorkingStates.KeyedReturnOutput | external/pvc_aead0_a1/external/pvc_mac0_m1/external/pvc_prf1_c1/src/key_schedule.cpp:186-218 | The whole evaluation on a fresh object equals the evaluation the run theorems speak of |
| WorkingStates.SequenceAppend | external/pvc_aead0_a1/external/pvc_mac0_m1/external/pvc_prf1_c1/src/controller.cpp:521-529 | Absorbing a concatenation is absorbing its parts in turn, and fails with the first part when that fails |
| Diagnostic.DiagnosticByteIsEmitted | analysis/fault_injection_campaign.cpp:274-296 | The separately written diagnostic byte is the byte the finalizer emits from the same state |
| Diagnostic.TraceFinalization | analysis/fault_injection_campaign.cpp:322-353 | For every state and length: all 83 stages are filled with the states of the binding and of a 64-byte squeeze, output byte r is computed from stage 18 + r, the first 32 bytes are the finalizer output at 4 and 2 moves, and stage 50 is the state it ends in |
| NonceCodec.DecodeEncode | analysis/nonce_management/nonce_management.cpp:93-141 | Decoding an encoded state gives it back |
| NonceCodec.EncodeDecode | analysis/nonce_management/nonce_management.cpp:93-141 | Every accepted 90-byte record is the encoding of what it decodes to |
| NonceCodec.AcceptedRecordsDifferTwice | analysis/nonce_management/nonce_management.cpp:112-141 | Two different accepted records differ in at least two bytes |
| NonceCodec.SingleCorruptionIsRejected | analysis/nonce_management/nonce_management.cpp:112-141 | Changing any one byte of an accepted record makes it rejected |
| NonceCodec.EncodeState | analysis/nonce_management/nonce_management.cpp:93-110 | The buffer-filling loops produce the record |
| NonceCodec.DecodeState | analysis/nonce_management/nonce_management.cpp:112-141 | The checks in program order accept and decode exactly as specified, with the same error |
| NonceCounter.IncrementAddsOne | analysis/nonce_management/nonce_management.cpp:173-182 | The increment adds one to the 192-bit number, or reports overflow exactly at the greatest value |
| NonceCounter.IncrementInPlace | analysis/nonce_management/nonce_management.cpp:173-182 | The carry loop on the array computes that increment |
| NonceCounter.NumberIsInjective | analysis/nonce_management/nonce_management.cpp:173-182 | Different byte strings of one length are different numbers |
| NonceCounter.WriteAll | analysis/nonce_management/nonce_management.cpp:63-76 | Whatever the system calls do, the file holds a prefix of the data; the loop completes, with all of it, exactly when the calls deliver that many bytes before one fails or moves nothing |
| NonceCounter.ReadAll | analysis/nonce_management/nonce_management.cpp:78-91 | A complete read returns exactly the first bytes of the file, and completes exactly when the file is long enough and the calls deliver |
| NonceCounter.UpdateConsumesOne | analysis/nonce_management/nonce_management.cpp:258-265 | The state persisted before returning has used up exactly one value more, exhaustion included |
| NonceProtocol.StepKeepsInvariant | analysis/nonce_management/nonce_management.cpp:184-268 | Every step of every process, death included, keeps the protocol invariant |
| NonceProtocol.RunKeepsInvariant | analysis/nonce_management/nonce_management.cpp:184-268 | Every interleaving keeps it |
| NonceProtocol.AllocatorIsSafe | analysis/nonce_management/nonce_management.cpp:238-268 | In every interleaving with deaths at any step: the active file is absent or one valid record, returned nonces strictly increase, none is returned twice, and each lies below what the file has used up |
| NonceProtocol.NothingElseIsSkipped | analysis/nonce_management/nonce_management.cpp:184-268 | Values used up on disk are exactly the returned ones, the calls that died after the rename, and at most one call still holding the lock |
| NonceProtocol.NoLossNoGap | analysis/nonce_management/nonce_management.cpp:184-268 | Without a death after a rename the returned values are consecutive |
| NonceProtocol.GreatestIsReturnedOnce | analysis/nonce_management/nonce_management.cpp:258-266 | 2^192 - 1 is returned at most once, last, and leaves the file marked exhausted |
| NonceProtocol.ScopeIsKept | analysis/nonce_management/nonce_management.cpp:143-171 | Once a file exists its scope never changes, whatever scopes are requested |
| NonceAllocator.Directory.Allocate | analysis/nonce_management/nonce_management.cpp:238-268 | The call takes only steps the protocol allows, whatever fails; it returns exactly when no system call fails and the file is absent or a valid record of the scope with values left, and then it returns the current value with its successor on disk; on a failure the error is CounterExhausted exactly when a used-up file is read, and names the fault of the record exactly when that is read |
| NonceAllocator.Directory.Persist | analysis/nonce_management/nonce_management.cpp:184-222 | Write, sync, rename and directory sync happen in this order; it succeeds exactly when none of them fails, and the phase says how far a faulty call got |
| NonceAllocator.Directory.Load | analysis/nonce_management/nonce_management.cpp:143-171 | Exactly the state of the active file, the reason the record is rejected, or a system error when a call fails |
| Walsh.TransformIsCorrelation | analysis/streamframe_domain_audit.cpp:512-523 | Entry k of the transform is the sum over x of (-1)^popcount(k AND x) times the input at x, for every power-of-two length |
| Walsh.TransformIsLinear | analysis/streamframe_domain_audit.cpp:512-523 | The transform of a sum or difference is the sum or difference of the transforms |
| Walsh.TransformTwice | analysis/streamframe_domain_audit.cpp:512-523 | Transforming twice multiplies by the length |
| Walsh.TransformEnergy | analysis/streamframe_domain_audit.cpp:512-523 | The sum of squares grows by exactly the length |
| Walsh.PassesAreTransform | analysis/streamframe_domain_audit.cpp:513-522 | The passes of doubling span compute the transform by halves |
| Walsh.PassesWithin | analysis/streamframe_domain_audit.cpp:513-522 | After j passes no entry exceeds 2^j times the largest input |
| Fwht.TransformBlock | analysis/streamframe_domain_audit.cpp:515-520 | The innermost loop performs the butterflies of one block in place and touches nothing else |
| Fwht.TransformPass | analysis/streamframe_domain_audit.cpp:514-521 | The middle loop performs one pass over all blocks |
| Fwht.Fwht | analysis/streamframe_domain_audit.cpp:512-523 | The three loops leave the transform in the array, and no sum leaves the range of int while length times bound fits |
| Nonlinearity.AffineIsTable | analysis/streamframe_domain_audit.cpp:607-611 | Every function affine over the two-element field is x -> <k, x> + c for some k and c |
| Nonlinearity.TableIsAffine | analysis/streamframe_domain_audit.cpp:607-611 | Every such function is affine |
| Nonlinearity.CoefficientIsDistance | analysis/streamframe_domain_audit.cpp:599-606 | Each coefficient is the number of points minus twice a Hamming distance to an affine function |
| Nonlinearity.PeakIsEven | analysis/streamframe_domain_audit.cpp:607-608 | With at least one variable the peak is even and at most the number of points, so the halving is exact |
| Nonlinearity.PeakGivesNonlinearity | analysis/streamframe_domain_audit.cpp:607-608 | count/2 - peak/2 is the least Hamming distance to any affine function, and is reached |
| Nonlinearity.PeakIsFullIffAffine | analysis/streamframe_domain_audit.cpp:610 | The peak equals count exactly when the bit is an affine function |
| Nonlinearity.PeakIsLarge | analysis/streamframe_domain_audit.cpp:603-606 | The square of the peak is at least the number of points |
| WalshTrial.LargestMagnitude | analysis/streamframe_domain_audit.cpp:603-606 | The running maximum is the largest magnitude of the spectrum |
| WalshTrial.MeasureBit | analysis/streamframe_domain_audit.cpp:598-611 | One output bit: fill, transform, take the peak and add the observation to the aggregate |
| WalshTrial.MeasureTrial | analysis/streamframe_domain_audit.cpp:587-634 | 256 bits of both output lists give exactly these aggregates, maxima and means, and the collision count is the number of repeated outputs |
| WalshTrial.CountCollisions | analysis/streamframe_domain_audit.cpp:594-597 | The collision count is the number of outputs minus the number of different ones |
| WalshTrial.AffineCountMeaning | analysis/streamframe_domain_audit.cpp:610 | The affine count grows by exactly the number of output bits that are affine functions of the mask |
| WalshTrial.MinimumMeaning | analysis/streamframe_domain_audit.cpp:525-535 | No output bit is nearer to an affine function than the recorded minimum, and a new minimum is reached by some bit |
| WalshTrial.LargestPeakMeaning | analysis/streamframe_domain_audit.cpp:611-613 | The largest correlation of a trial bounds the peak of every output bit and is attained by one |
| MaskEnumeration.ChooseVariables | analysis/streamframe_domain_audit.cpp:537-563 | The loops choose the variables of each family; an unknown family is an error |
| MaskEnumeration.ChosenAreDifferent | analysis/streamframe_domain_audit.cpp:537-563 | Up to 59 variables of any family are different and name valid nonce or payload-counter bits |
| Families.CounterLowPoints | analysis/streamframe_domain_audit.cpp:548-551 | For "counter-low" the nonce is the drawn one and mask m reaches counter m of the aligned block of 2^count counters that holds the drawn one |
| Families.NonceSpreadPoints | analysis/streamframe_domain_audit.cpp:544-547 | For "nonce-spread" the counter is the drawn one for every mask, mask bit i flips exactly the i-th chosen nonce bit, the first is bit 0 and neighbours are floor(192/count) or one more apart |
| Families.MixedPoints | analysis/streamframe_domain_audit.cpp:552-560 | For "mixed" the low count/2 mask bits move the nonce only, as "nonce-spread" does, and the others the counter only, through its aligned block |
| MaskEnumeration.ClearCounterVariables | analysis/streamframe_domain_audit.cpp:565-571 | The loop clears the counter bits of the variables |
| MaskEnumeration.ClearedBits | analysis/streamframe_domain_audit.cpp:565-571 | Exactly the counter bits named by the variables are cleared |
| MaskEnumeration.ApplyWalshMask | analysis/streamframe_domain_audit.cpp:573-585 | The loop toggles nonce bytes in place and the counter as specified |
| MaskEnumeration.AppliedFlips | analysis/streamframe_domain_audit.cpp:573-585 | A mask flips exactly the input bits it selects and no others |
| MaskEnumeration.MaskXorIsInputXor | analysis/streamframe_domain_audit.cpp:573-585 | On every input bit, the difference from the base made by a XOR of masks is the XOR of their differences |
| MaskEnumeration.MasksReachDifferentPoints | analysis/streamframe_domain_audit.cpp:573-585 | Different masks give different (nonce, counter) pairs |
| MaskEnumeration.CounterStaysPayload | analysis/streamframe_domain_audit.cpp:651-659 | Every enumerated counter stays at most 2^59 - 1 |
| WalshStratum.FramesAreDistinct | analysis/streamframe_domain_audit.cpp:654-660 | Different masks give different stream frames |
| WalshStratum.EvaluateMasks | analysis/streamframe_domain_audit.cpp:654-660 | The mask loop evaluates every frame once, starting again from the base point |
| WalshStratum.AlarmMeaning | analysis/streamframe_domain_audit.cpp:594-610 | A trial is unclean exactly when two of its masks give different stream frames with one output, or an output bit is an affine function of the mask |
| WalshStratum.RunStratum | analysis/streamframe_domain_audit.cpp:636-710 | The alarms returned are exactly the repeated outputs and affine output bits of all trials |
| WalshStratum.TotalAlarmsMeaning | analysis/streamframe_domain_audit.cpp:636-710 | They are zero exactly when every trial has distinct outputs and no affine output bit |
| Frames.StreamRoundTrip | external/pvc_aead0_a1/src/aead.cpp:113-133 | A parser recovers nonce, counter and tag size of a stream frame |
| Frames.StreamParsesOnlyFrames | external/pvc_aead0_a1/src/aead.cpp:113-133 | It accepts nothing but stream frames |
| Frames.AuthRoundTrip | external/pvc_aead0_a1/src/aead.cpp:135-159 | A parser recovers every field of an authentication context |
| Frames.AuthParsesOnlyFrames | external/pvc_aead0_a1/src/aead.cpp:135-159 | It accepts nothing but authentication contexts |
| Frames.MacRoundTrip | external/pvc_aead0_a1/external/pvc_mac0_m1/src/mac.cpp:55-81 | A parser recovers context, message and tag size of an M1 frame |
| Frames.MacParsesOnlyFrames | external/pvc_aead0_a1/external/pvc_mac0_m1/src/mac.cpp:55-81 | It accepts nothing but M1 frames |
| Frames.ReadU64 | external/pvc_aead0_a1/src/aead.cpp:30-35 | The eight big-endian bytes of a 64-bit number read back as that number |
| Frames.WriteU64 | external/pvc_aead0_a1/src/aead.cpp:30-35 | Any eight bytes are the encoding of the number they hold |
| Frames.StreamFrameIsInjective | external/pvc_aead0_a1/src/aead.cpp:113-133 | Equal stream frames have equal nonce, counter and tag size |
| Frames.AuthenticatedInputIsInjective | external/pvc_aead0_a1/src/aead.cpp:135-175 | The M1 frame over the authentication context determines nonce, associated data, ciphertext and tag size |
| Frames.StreamIsNeverMac | external/pvc_aead0_a1/src/aead.cpp:113-133 | No stream input is ever a MAC input |
| Frames.StreamIsNeverContext | external/pvc_aead0_a1/src/aead.cpp:113-159 | No stream frame is an authentication context |
| Mac.AppendU64 | external/pvc_aead0_a1/external/pvc_mac0_m1/src/mac.cpp:22-27 | The shifting loop appends the eight big-endian bytes |
| Mac.FrameMessage | external/pvc_aead0_a1/external/pvc_mac0_m1/src/mac.cpp:55-81 | The appended frame, or the error for an unsupported tag size or a frame longer than a size_t |
| Mac.ComputeTag | external/pvc_aead0_a1/external/pvc_mac0_m1/src/mac.cpp:83-98 | The tag is the leading bytes of C1 on the frame |
| Mac.SameBytes | external/pvc_aead0_a1/external/pvc_mac0_m1/src/mac.cpp:108-112 | The accumulated difference is zero exactly when all supplied bytes agree |
| Mac.VerifyTag | external/pvc_aead0_a1/external/pvc_mac0_m1/src/mac.cpp:100-113 | Verification accepts exactly the recomputed tag and rejects unsupported lengths |
| Aead.FrameStreamBlock | external/pvc_aead0_a1/src/aead.cpp:113-133 | The appended stream frame, or the tag-size error |
| Aead.FrameAuthenticationContext | external/pvc_aead0_a1/src/aead.cpp:135-159 | The appended context, or the tag-size or length error |
| Aead.BlocksBound | external/pvc_aead0_a1/src/aead.cpp:73 | 1 + (n - 1) / 32 is n / 32 rounded up, at most 2^59, and 2^59 for the greatest length |
| Aead.ApplyKeystream | external/pvc_aead0_a1/src/aead.cpp:68-94 | The block loops compute the bytewise XOR with the concatenated stream, evaluating C1 once on each block frame in order |
| Aead.MaskedTwice | external/pvc_aead0_a1/src/aead.cpp:68-94 | Masking twice gives the input back |
| Aead.Seal | external/pvc_aead0_a1/src/aead.cpp:161-175 | Sealing encrypts, frames and authenticates in this order, with the first error, and evaluates C1 on exactly the stream frames and then the M1 frame |
| Aead.Open | external/pvc_aead0_a1/src/aead.cpp:177-193 | Opening checks the tag length, the lengths and the tag before it decrypts, and evaluates C1 on exactly the listed inputs |
| Aead.RejectedOpenDerivesNothing | external/pvc_aead0_a1/src/aead.cpp:188-192 | Unless the tuple is accepted, open evaluates C1 at most once, on the authenticated input, and derives no stream block |
| Aead.OpenSealed | external/pvc_aead0_a1/src/aead.cpp:161-193 | For any C1, opening a sealed message returns its plaintext |
| Aead.SealOpened | external/pvc_aead0_a1/src/aead.cpp:161-193 | Sealing what was opened under that tag size reproduces ciphertext and tag |
| Aead.OpenAcceptsExactly | external/pvc_aead0_a1/src/aead.cpp:177-193 | Open succeeds exactly for a supported tag length, lengths that fit, and the recomputed tag, and fails with an error exactly when the lengths do not fit |
| Aead.SealFailsExactly | external/pvc_aead0_a1/src/aead.cpp:161-175 | Sealing fails exactly for an unsupported tag size or lengths that do not fit an M1 frame |
| Aead.SealReturnsExpectedTag | external/pvc_aead0_a1/src/aead.cpp:161-175 | A successful seal returns the leading bytes of C1 on the encoding of nonce, associated data, ciphertext and tag size |
| Aead.AcceptedForgeryIsFresh | external/pvc_aead0_a1/docs/SECURITY_REDUCTION.md:50-60 | When open accepts a tuple that no listed seal returned, the C1 input it checked is one that none of these seals authenticated and no stream input |
| Aead.StreamInputsNeverRepeat | external/pvc_aead0_a1/src/aead.cpp:82-85 | Under different nonces no two stream blocks of any messages have the same C1 input |
| Composition.AllocatedStreamInputsNeverRepeat | analysis/nonce_management/nonce_management.cpp:238-268 | Messages sealed under allocated nonces, in any interleaving with any deaths, never repeat a stream input |
| Candidate.ResearchKeyedReturnOutput | external/pvc_aead0_a1/external/pvc_mac0_m1/external/pvc_prf1_c1/src/key_schedule.cpp:208-218 | With the default profile the evaluation on the object never fails and returns 32 bytes, a function of key and message |
| Candidate.C1OpensSealed | external/pvc_aead0_a1/src/aead.cpp:161-193 | With Candidate C1 itself, over any starting cube, opening a sealed message returns its plaintext |
| Candidate.C1AcceptsExactly | external/pvc_aead0_a1/src/aead.cpp:177-193 | With Candidate C1 itself, open accepts exactly the beginning of what the machine returns for the authenticated input |
| Candidate.StreamWork | external/pvc_aead0_a1/src/aead.cpp:82-85 | The evaluations made for n stream blocks turn the cube exactly 1472n times |
| Candidate.SealWork | external/pvc_aead0_a1/src/aead.cpp:161-175 | The evaluations made by a successful seal of n bytes with a bytes of associated data turn the cube exactly 1472*ceil(n/32) + 1968 + 16(a + n) times |
| Candidate.OpenWork | external/pvc_aead0_a1/src/aead.cpp:177-193 | Those of an open cost as much when it accepts, and only the 1968 + 16(a + n) of the tag when it rejects |
| IndependentMac.WritesMakeFrame | external/pvc_aead0_a1/external/pvc_mac0_m1/independent/cpp_spec/src/mac.cpp:69-81 | The writes at offsets, in their order, leave the canonical M1 frame |
| IndependentMac.StoreU64 | external/pvc_aead0_a1/external/pvc_mac0_m1/independent/cpp_spec/src/mac.cpp:22-27 | The store loop writes the eight big-endian bytes and nothing else |
| IndependentMac.FrameMessage | external/pvc_aead0_a1/external/pvc_mac0_m1/independent/cpp_spec/src/mac.cpp:55-82 | The offset-based frame and its errors equal the canonical ones on every input |
| IndependentMac.ComputeTag | external/pvc_aead0_a1/external/pvc_mac0_m1/independent/cpp_spec/src/mac.cpp:92-99 | The tag equals the canonical one |
| IndependentMac.VerifyTag | external/pvc_aead0_a1/external/pvc_mac0_m1/independent/cpp_spec/src/mac.cpp:101-113 | Verification equals the canonical one |
| IndependentAead.FrameStreamBlock | external/pvc_aead0_a1/independent/cpp_spec/src/aead.cpp:103-114 | The offset-based stream frame equals the canonical one |
| IndependentAead.FrameAuthenticationContext | external/pvc_aead0_a1/independent/cpp_spec/src/aead.cpp:116-132 | The offset-based context and its errors equal the canonical ones |
| IndependentAead.BlockCountsAgreeExactly | external/pvc_aead0_a1/independent/cpp_spec/src/aead.cpp:75 | (n + 31) / 32 in a size_t equals the canonical block count exactly while n + 31 does not wrap |
| IndependentAead.XorKeystream | external/pvc_aead0_a1/independent/cpp_spec/src/aead.cpp:70-86 | The loops mask the blocks they count and leave later bytes zero |
| IndependentAead.KeystreamsAgreeExactly | external/pvc_aead0_a1/independent/cpp_spec/src/aead.cpp:75-84 | As arithmetic, the two loops mask an input alike for every C1 exactly while its length plus 31 fits a size_t |
| IndependentAead.SealsAgree | external/pvc_aead0_a1/independent/cpp_spec/src/aead.cpp:134-148 | The two implementations seal alike on every input: lengths that wrap do not fit a frame |
| IndependentAead.OpensAgree | external/pvc_aead0_a1/independent/cpp_spec/src/aead.cpp:150-167 | The two implementations open alike on every input |
| IndependentAead.Seal | external/pvc_aead0_a1/independent/cpp_spec/src/aead.cpp:134-148 | The composed calls compute the independent sealing, with the same evaluations of C1 while the length plus 31 fits |
| IndependentAead.Open | external/pvc_aead0_a1/independent/cpp_spec/src/aead.cpp:150-167 | The composed calls compute the independent opening, with the same evaluations of C1 on every input |

## Left out

- Cryptographic strength (pseudorandomness, unforgeability, diffusion) is not a property of the text of the program and is not claimed; the AEAD and MAC layers treat C1 as an arbitrary function.
- Operating-system calls in the allocator are steps with assumed effects: an exclusive lock is released when its process dies or returns, a rename is atomic, reads and writes may be short or interrupted. Power loss, snapshot rollback, deletion of the file and ownership checks on it are not modelled.
- What the return pass reads from the cube to form its symbols is not recorded in the read set; the locality theorems concern the finalizer.
- The 512-entry table of the perfect cube is not entered: every theorem holds for any starting cube, so that the table itself has the double-byte histogram and balanced lines is not stated.
- `Cube::at` and `rotate_line` on coordinates above 7: coordinates are typed 0..7, so their out_of_range errors cannot occur in the model.
- The line-sum array, `is_balanced` and `print_layers`: only the sum of a single line is modelled.
- The word arithmetic of the controllers is defined concretely, and `Separation` states which changes of its inputs it shows; apart from the amount mapper and the kernel of controller B's mixing word no property singles out its constants.
- AmountChoice.EachAmountIsChosen: bounds nothing in phases 3 and 4 of eight, where the lane does not reach every seed (`LaneReachesEverySeed`), nor in phases 5 and 6 when a raw slot of 7 is folded from a byte of the lane.
- Controller B has no object of its own: `WorkingState` takes the controller as a parameter.
- `common_move_prefix`, `controller_bit_distance`, `output_bit_distance`, the nonce reuse detector, `flip_c1_state_bit`, `working_state_distance`, `remains_single_bit_until_output` and the fault classification: members with easy contracts only.
- WalshTrial.MeasureTrial: does not model rounding of the floating-point sums and means, which are reals; the 64-bit observation and affine counters are unbounded naturals.
- Random generation in the campaign (`splitmix64`, `random_array`): the draws are inputs of a trial.
- The differential, census and timing campaigns, statistics and all printing.
- Command-line programs, hex parsing, corpora, vectors, fuzz drivers and the public wrapper with its tag-size converters: forwarding and input/output.
- Allocation failure and the maximum size of vectors, and platforms whose `size_t` is not 64 bits wide.
