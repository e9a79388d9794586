# Verified models of xboxrecomp's hard parts

Dafny models of the parts of xboxrecomp where a wrong step is hard to see, with proofs of
what those parts are for. `dafny verify dfyconfig.toml` checks all of it.

| part of the program | modules |
|---|---|
| voice processor: one frame mixed by many threads | `MixBins`, `FrameSchedule`, `VoiceWorkers`, `MultipassLimits`, `FrameBarrier`, `FrameMix`, `VoiceLock` |
| voice processor: a voice's registers, envelopes, lists and samples | `VoiceRegisters`, `VoiceMemory`, `VoiceEnvelope`, `VoiceLists`, `VoiceFetch` |
| register combiners to HLSL | `CombinerState`, `CombinerParse`, `Colors`, `RegisterCombiners`, `CombinerLaws`, `Hlsl`, `CombinerHlsl`, `CombinerCorrect`, `CombinerDeclared` |
| combiner shader cache, and drawing with it | `ShaderCache`, `CombinerDraw` |
| software mixer | `SoftwareMixer` |
| decoders of trapped loads and stores | `StoreDecoder` |
| settings file | `SettingsText`, `SettingsFile`, `SettingsRoundTrip` |
| seen-set of shader sources | `SeenSet` |
| GDB packet reader | `PacketReader` |
| picture fit and resolve | `DisplayFit` |

How the models are built:

- Code that updates something in place is a class or a method with loops, proved against a
  function of its inputs or of the old state; the properties are proved about that function.
- Threads are sequences of atomic events. A run is any sequence of enabled events, so a
  statement about a run is about every interleaving.
- Samples, levels and colours are exact reals. Machine widths are written out wherever a value
  can be cut (16-bit counts, register fields, 32-bit words, 16.16 positions).
- What the program takes from outside is a parameter: what a voice plays, the release curve,
  the hash of a cache key, whether a compile succeeds, how the host prints and reads a factor,
  the texels behind a texture register, what the socket gives.
- The combiners' meaning is `RegisterCombiners`, written after section 3.8.12 of the
  NV_register_combiners extension with the Xbox's differences: each stage updates all registers
  at once from the registers before it. The shader's meaning is `Hlsl`, statement by statement.
- An assertion that aborts the program is a result (`ok` false, `Unknown`), not a precondition.

Where the program does not do what it is meant to, the model does what the program does, and the
exact condition is proved, or an input that shows it:

- `ValueInRange`, `VoiceOnIntoDecayOverflows`: VOICE_ON straight into DECAY sets no count, so the
  level can be above 1.
- `ReturnsIffNotRunaway`: the resampler's callback never returns on a looping buffer whose loop
  starts past its end, once less than a frame's worth is left.
- `LastSampleSkippedIff`: a chunk that ends just before the last sample of a segment, a loop or a
  one-shot buffer skips it.
- `GoesInIffUnlisted`: VOICE_ON of a voice that is already on a list breaks the lists.
- `InOrderIffAligned`, `FramesInOrderIffAligned`: the scheduler's assertions let through queues
  that mix differently on several workers, where a voice that takes the multipass bin is dealt to
  another worker than one that fed it; `UndrainedMultipassDiffers` has two.
- `SafeIffOneGuest`, `TwoGuestsOverlap`: with two guest threads a voice can be played while its
  VOICE_ON runs.
- `WritesUpdateIff`, `ReservedDestinationDiffers`, `UndeclaredIff`: destination registers 6 and 7
  print as the register of zeros; registers 14 and 15 are used before they are declared.
- `StateRoundTripIff`: a final combiner of all zeros is read as one that was never set.
- `RefusedShaderLosesOld`: a compile that fails during an eviction leaves the old key without a shader.
- `LeastDrawnIff`, `EvictsLaterDrawn`: the shader evicted is the one least recently looked up, which
  can be drawn with later than the other variant of its state.
- `LengthIsRightIff`: with both 0x66 and REX.W an immediate store is stepped over two bytes short.
- `SurvivesIff`: which settings do not come back from the file as they were.

Where comments and code differ the code is followed. `src/d3d/d3d8_combiners.h` and a comment
in `d3d8_combiners_from_render_states` describe the order of packed inputs and of the output
nibbles the other way round from `parse_four_inputs` and `parse_output`, which are modelled.

## Model

| member | source | states |
|---|---|---|
| FrameSchedule.GetVoiceBinSrcDst | src/apu/apu_vp_xemu.c:1558-1616 | the bins a voice reads, writes and clears, as sets, 3D voices sending to the HRTF submixes |
| FrameSchedule.DestinationsIff | src/apu/apu_vp_xemu.c:1575-1606 | the bins counted as written are exactly those some block of the voice goes to |
| FrameSchedule.VoiceWorkDispatch.Schedule | src/apu/apu_vp_xemu.c:1691-1738 | deals the queue to the workers' queues and the pending mask, and stops exactly where one of the three scheduling assumptions fails |
| FrameSchedule.PlanOwners | src/apu/apu_vp_xemu.c:1719-1722 | no voice of a queue without repeats is dealt to two workers or twice to one |
| FrameSchedule.RoundRobin | src/apu/apu_vp_xemu.c:1712-1736 | a queue that leaves the multipass bin alone is dealt round and round the workers |
| FrameSchedule.BusyIffDealt | src/apu/apu_vp_xemu.c:1719-1728 | a worker's pending bit is set exactly when it was dealt a voice |
| FrameSchedule.RunsAgree | src/apu/apu_vp_xemu.c:1636-1645 | any two interleavings that play every dealt voice end with the same voices and the same worker mixes |
| FrameSchedule.VoiceMixAt | src/apu/apu_vp_xemu.c:1321-1515 | the mix of a voice sample by sample: the first four blocks of a 3D voice to the HRTF submixes, every other to its own bin, after the multipass bin is taken and cleared |
| FrameSchedule.DrainedIsAligned | src/apu/apu_vp_xemu.c:1691-1738 | a queue the assertions let through, whose multipass voices are neither paused nor send to the multipass bin, is aligned: a voice that takes the multipass bin is on the worker of each voice whose sends are still in it |
| FrameSchedule.ParallelMixIsInOrder | src/apu/apu_vp_xemu.c:1691-1738 | for every accepted and aligned queue, worker count and interleaving, the worker mixes add up to what one thread playing the queue in order mixes, multipass reads and clears included |
| FrameSchedule.DispatchMixIsInOrder | src/apu/apu_vp_xemu.c:1776-1792 | added one by one in any order of completion, the worker mixes still give the in-order mix |
| VoiceWorkers.VoiceWorker.GetMultipassSamples | src/apu/apu_vp_xemu.c:1294-1319 | takes the multipass bin and clears it if the voice says so, leaving every other bin |
| VoiceWorkers.VoiceWorker.VoiceProcess | src/apu/apu_vp_xemu.c:1321-1515 | a paused voice leaves state and mix alone; another plays what its multipass bin held, or silence, and every sample of every bin is then what it was, or zero in a bin it clears, plus the blocks that go to that bin |
| VoiceWorkers.AddSends | src/apu/apu_vp_xemu.c:1502-1515 | adds block n into the bin send n names, in place: each sample gains the sum over the sends to its bin |
| VoiceWorkers.AddMix | src/apu/apu_vp_xemu.c:1649-1654 | adds one mix array to another point by point |
| VoiceWorkers.VoiceWorker.ProcessQueue | src/apu/apu_vp_xemu.c:1636-1645 | a worker's loop over its queue leaves the mix array and the voices the schedule's model gives it |
| MultipassLimits.InOrderIffAligned | src/apu/apu_vp_xemu.c:1691-1738 | an accepted queue mixes in order, for all voices, start states and interleavings, exactly when it is aligned |
| MultipassLimits.UndrainedMultipassDiffers | src/apu/apu_vp_xemu.c:1338-1340 | without that, two workers can mix differently from one: a paused multipass voice, and one sending to the bin it reads, each in a queue that passes the scheduler's assertions |
| FrameBarrier.NumbersAreDistinct | src/apu/apu_vp_xemu.c:1800-1826 | in every interleaving of start-up each worker gets its own number in range, and all have one when the creator's wait returns |
| FrameBarrier.ReturnsWhenDone | src/apu/apu_vp_xemu.c:1779-1792 | when the dispatcher's wait returns nothing is pending, every dealt voice has been played, and each scheduled worker has added its mix exactly once and no other has |
| FrameBarrier.SomeoneCanMove | src/apu/apu_vp_xemu.c:1618-1678 | while the dispatcher waits some worker can move, and once it is signalled it can return or the worker that has the mutex can move: no wake-up is lost |
| FrameBarrier.WaitCanEnd | src/apu/apu_vp_xemu.c:1779-1792 | from every reachable state of a wait there are steps that bring the dispatcher back, with what it dealt |
| FrameBarrier.WaitIsBounded | src/apu/apu_vp_xemu.c:1618-1678 | the worker steps of a wait are bounded, spurious wake-ups counted |
| FrameBarrier.DispatchIsBounded | src/apu/apu_vp_xemu.c:1779-1783 | a dispatch wakes its dispatcher within six steps a worker, one a voice and six a spurious wake-up |
| FrameMix.FrameMixIsInOrder | src/apu/apu_vp_xemu.c:1753-1798 | schedule, handshake and playing together, for an aligned queue: whatever interleaving led there, the mix and the voices the dispatcher comes back to are those of one thread playing the queue in order |
| FrameMix.FramesInOrderIffAligned | src/apu/apu_vp_xemu.c:1753-1798 | every frame of an accepted queue comes out in order exactly when the queue is aligned |
| FrameMix.FrameCanRun | src/apu/apu_vp_xemu.c:1776-1792 | an idle dispatcher can deal any queue that is not empty, and there is a run in which it comes back |
| VoiceLock.LockedVoiceIsNotPlayed | src/apu/apu_vp_xemu.c:1740-1772 | with any number of guest threads no worker ever plays a locked voice, nor, while no two guests are in a method on the same voice, the voice whose VOICE_ON or VOICE_RELEASE body is running |
| VoiceLock.VoiceOnRestoresLocks | src/apu/apu_vp_xemu.c:167-188 | VOICE_ON and VOICE_RELEASE leave the lock bit of their voice as they found it, under the same condition |
| VoiceLock.TwoGuestsOverlap | src/apu/apu_vp_xemu.c:215-222 | with two guest threads or more a run exists where a voice is played during its own VOICE_ON |
| VoiceLock.SafeIffOneGuest | src/apu/apu_vp_xemu.c:167-222 | every run keeps the workers off locked and edited voices exactly when there is at most one guest thread |
| VoiceRegisters.GetOfSet | src/apu/apu_vp_xemu.c:133-149 | reading a field just written gives the value cut to the field's width |
| VoiceRegisters.GetOfOther | src/apu/apu_vp_xemu.c:141-149 | a write leaves every disjoint field of the word as it was |
| VoiceMemory.ReadOfWrite | src/apu/apu_vp_xemu.c:133-149 | the same in guest memory, for any two voices and any two fields |
| VoiceMemory.FieldsAreMapped | src/apu/apu_regs.h:251-312 | the envelope fields of both envelopes are at the offsets and under the masks of the register map |
| VoiceMemory.EnvelopesApart | src/apu/apu_vp_xemu.c:1342-1360 | a step of one envelope leaves the other's phase, count and level, CBO, EBO and the pause bit as they were, though they share words |
| VoiceMemory.VoiceProcessor.VoiceGetMask | src/apu/apu_vp_xemu.c:133-139 | reads a field of a voice structure |
| VoiceMemory.VoiceProcessor.VoiceSetMask | src/apu/apu_vp_xemu.c:141-149 | writes one and changes nothing else |
| VoiceMemory.VoiceProcessor.StepEnvelope | src/apu/apu_vp_xemu.c:712-868 | one step in guest memory is the step of the envelope that stands there, returns its value, switches the voice off when that says so, and changes no other field |
| VoiceMemory.VoiceProcessor.StartEnvelope | src/apu/apu_vp_xemu.c:255-273 | VOICE_ON's writes start the envelope in the asked phase with that phase's count and change no other field |
| VoiceMemory.VoiceProcessor.ReleaseEnvelope | src/apu/apu_vp_xemu.c:318-325 | VOICE_RELEASE's writes start the release and change no other field |
| VoiceEnvelope.StepMovesForward | src/apu/apu_vp_xemu.c:712-868 | a step stays in its phase or goes to the next, and aborts exactly on the phases that do not exist |
| VoiceEnvelope.RunMovesForward | src/apu/apu_vp_xemu.c:712-868 | over any number of steps the phase never goes back |
| VoiceEnvelope.ValueInRange | src/apu/apu_vp_xemu.c:712-868 | the level is in 0 to 1, except exactly in a decay whose count is above sixteen times its rate |
| VoiceEnvelope.VoiceOnIntoDecayOverflows | src/apu/apu_vp_xemu.c:255-274 | VOICE_ON into DECAY can produce such a level |
| VoiceEnvelope.DecayReachesFloor | src/apu/apu_vp_xemu.c:790-818 | 255 times 0.99988799 to the 65536th is at most 0.2, so the decay curve reaches its threshold |
| VoiceEnvelope.DelayLasts | src/apu/apu_vp_xemu.c:723-737 | a delay takes its count and one step more |
| VoiceEnvelope.AttackLasts | src/apu/apu_vp_xemu.c:738-772 | an attack takes the steps from its count to sixteen times its rate, around 16 bits, and one more |
| VoiceEnvelope.HoldLasts | src/apu/apu_vp_xemu.c:773-789 | a hold takes its count and one step more |
| VoiceEnvelope.DecayLasts | src/apu/apu_vp_xemu.c:790-818 | a decay ends within its count and one step; one entered above its range ends at once |
| VoiceEnvelope.DecayCounts | src/apu/apu_vp_xemu.c:790-818 | its 16-bit count never goes below zero |
| VoiceEnvelope.DecayFalls | src/apu/apu_vp_xemu.c:790-818 | within its range a decay never gets louder |
| VoiceEnvelope.DecayEndsIff | src/apu/apu_vp_xemu.c:806-817 | a decay ends exactly on the step within 0.2 of its sustain level or above full |
| VoiceEnvelope.DecayAboveRange | src/apu/apu_vp_xemu.c:790-805 | the value of a decay entered above its range, exactly |
| VoiceEnvelope.ReleaseLasts | src/apu/apu_vp_xemu.c:828-857 | a release takes its count and one step more, or a single step with a rate of zero |
| VoiceEnvelope.VoiceOnReachesAttack | src/apu/apu_vp_xemu.c:258-263 | after VOICE_ON with a delay, the attack starts after exactly 16 * delay + 1 steps |
| VoiceEnvelope.VoiceOnReachesHold | src/apu/apu_vp_xemu.c:738-772 | and the hold after exactly 16 * attack + 1 more |
| VoiceEnvelope.VoiceOnReachesDecay | src/apu/apu_vp_xemu.c:773-789 | and the decay after exactly 16 * hold + 1 more |
| VoiceEnvelope.VoiceOnReachesSustain | src/apu/apu_vp_xemu.c:790-818 | and the sustain after at most 16 * decay + 1 more |
| VoiceEnvelope.ReleaseEndsVoice | src/apu/apu_vp_xemu.c:828-862 | a released amplitude envelope switches the voice off from step 16 * release + 1 on and not before; a filter envelope never does |
| VoiceEnvelope.NoteSounds | src/apu/apu_vp_xemu.c:712-857 | the value of every step of a note: silent for the delay, n * 255 / (16 * rate) rounded down through the attack, full for the hold, powers of 0.99988799 through the decay, the sustain level |
| VoiceEnvelope.LateStartSounds | src/apu/apu_vp_xemu.c:264-273 | VOICE_ON straight into an attack or a hold starts that phase from its beginning, with its values and its length |
| VoiceEnvelope.RestSounds | src/apu/apu_vp_xemu.c:719-722 | an envelope that is off leaves its voice as it is, one that was cut off is silent |
| VoiceEnvelope.LevelFollows | src/apu/apu_vp_xemu.c:712-857 | the level register holds what was last heard in whole parts of 255, where a release takes over |
| VoiceEnvelope.AttackRises | src/apu/apu_vp_xemu.c:738-772 | an attack never falls, starts at zero and ends full |
| VoiceEnvelope.ReleaseSounds | src/apu/apu_vp_xemu.c:828-857 | step n of a release is curve(n / (16 * rate)) of the level the voice had, and then silence |
| VoiceEnvelope.ReleaseFades | src/apu/apu_vp_xemu.c:828-857 | with a curve that falls from 1 a release starts at the voice's level and never gets louder |
| VoiceLists.ListRegisters.LinkVoice | src/apu/apu_vp_xemu.c:224-247 | the stores of VOICE_ON into tops and next handles, and its abort |
| VoiceLists.ListRegisters.WalkLists | src/apu/apu_vp_xemu.c:1847-1875 | the frame's walk queues the active handles it reads in order, with the bound, the full queue and the untrapped idle voice |
| VoiceLists.UnlistedGoesIn | src/apu/apu_vp_xemu.c:224-247 | VOICE_ON of an unlisted voice puts it at the chosen top or right after its antecedent in three lists that still end and share nothing; between its stores the lists are as before |
| VoiceLists.GoesInIffUnlisted | src/apu/apu_vp_xemu.c:224-247 | that holds exactly when the voice was on no list |
| VoiceLists.WalkSeesLists | src/apu/apu_vp_xemu.c:1857-1874 | on such lists the walk sees every listed voice once, in order, and never meets its bound of 256 |
| VoiceLists.FrameQueue | src/apu/apu_vp_xemu.c:1847-1875 | the frame's queue holds each active listed voice exactly once and nothing else, and fits |
| VoiceLists.WalkAcrossStores | src/apu/apu_vp_xemu.c:224-247 | a walk whose reads fall anywhere between the two stores sees the old list or the new one, whole |
| VoiceFetch.VoiceFilter.VoiceGetSamples | src/apu/apu_vp_xemu.c:870-1154 | the frames one fetch copies and the place it leaves the voice at, in a buffer, a loop or a stream |
| VoiceFetch.VoiceFilter.FetchSamples | src/apu/apu_vp_xemu.c:1163-1177 | the callback's loop of fetches gets the frames of the model, in place |
| VoiceFetch.VoiceFilter.VoiceResampleCallback | src/apu/apu_vp_xemu.c:1156-1188 | returns exactly 32 frames: those fetched, then silence |
| VoiceFetch.VoiceFilter.PadWithSilence | src/apu/apu_vp_xemu.c:1179-1184 | silence from the first missing frame on, the others untouched |
| VoiceFetch.ReturnsIffNotRunaway | src/apu/apu_vp_xemu.c:1164-1177 | the callback returns for every voice but a looping buffer whose loop start is past its end with less than a frame's worth left |
| VoiceFetch.FetchedOrderly | src/apu/apu_vp_xemu.c:1044-1149 | no sample past the end is read; samples of a segment come one after the other with at most the last left out; list A's segments come in turn, then list B's |
| VoiceFetch.CallbackInOrder | src/apu/apu_vp_xemu.c:1156-1188 | that order holds within a callback, and the next one goes on where it stopped |
| VoiceFetch.LastSampleSkippedIff | src/apu/apu_vp_xemu.c:1126-1149 | the last sample of a segment, a pass of a loop or a one-shot buffer is left out exactly when a chunk ends just before it; the stream then goes on with the next segment, the loop at its start, and the one-shot is off for good |
| VoiceFetch.DryStreamResumes | src/apu/apu_vp_xemu.c:946-992 | a stream that may run dry goes on with the first sample of its list's first segment once there is one; another is off |
| VoiceFetch.StreamEnds | src/apu/apu_vp_xemu.c:946-992 | a stream ends exactly before its release if it may not run dry, or else when its list is empty, and where that leaves it |
| VoiceFetch.ListsInTurn | src/apu/apu_vp_xemu.c:1126-1139 | all segments of one list from the first to the last, then the other's, then the first list again |
| CombinerState.InputRoundTrip | src/d3d/d3d8_combiners.c:202-207 | every input comes back from its packed byte |
| CombinerState.ByteRoundTrip | src/d3d/d3d8_combiners.c:202-207 | and every byte from its input, so no bit is dropped |
| CombinerState.FourInputsRoundTrip | src/d3d/d3d8_combiners.c:222-228 | A, B, C and D come back in order from a word with A in its top byte |
| CombinerState.OutputRoundTrip | src/d3d/d3d8_combiners.c:244-259 | every output comes back from its word: destinations, dots, mux, mapping, blue-to-alpha |
| CombinerParse.ParseToken | src/d3d/d3d8_combiners.c:265-450 | the loops over the render states give the state of the token and the words: stages, final combiner with its default, flags, texture modes from the token or the render state |
| CombinerParse.ReadStages | src/d3d/d3d8_combiners.c:331-345 | the two loops leave every stage with the inputs and outputs of its own four words |
| CombinerParse.ReadTextures | src/d3d/d3d8_combiners.c:415-449 | a token without modes takes those of the render state, and what each stage then samples follows from its Xbox mode |
| CombinerParse.TokenRoundTrip | src/d3d/d3d8_combiners.c:265-307 | a token's own texture modes, flags and number of stages come back |
| CombinerParse.PlainModesRoundTrip | src/d3d/d3d8_combiners.c:443-448 | without them the render state's four fields do |
| CombinerParse.XboxRoundTrip | src/d3d/d3d8_combiners.c:424-442 | and a title's own modes, stage by stage from the lowest bits, with what each samples, the dot mappings and the stages read from |
| CombinerParse.StateRoundTripIff | src/d3d/d3d8_combiners.c:265-399 | the words a title sets for a whole state are read back as that state exactly when it has no alpha test, its count was given or has no flags, and its final combiner's words are not both zero |
| CombinerParse.ParseReadsRange | src/d3d/d3d8_xbox.h:348-352 | nothing outside render states 198 to 253 is read, so nothing else need mark the state dirty |
| CombinerHlsl.GenerateHlsl | src/d3d/d3d8_combiners.c:949-1201 | the statements appended one by one are the shader's program: inputs into their registers, stages, specials, final reads, result, test |
| CombinerHlsl.EmitPrelude | src/d3d/d3d8_combiners.c:949-1019 | the statements that put zero, the constants, fog, the two colours, the textures and the starting R0 and R1 into their variables |
| CombinerHlsl.EmitStage | src/d3d/d3d8_combiners.c:1040-1111 | one stage appends its constants, eight reads, products, mappings and writes, in that order |
| CombinerHlsl.EmitWrites | src/d3d/d3d8_combiners.c:1092-1109 | the writes of a stage in emitted order, those to destination zero left out |
| CombinerCorrect.StageDoes | src/d3d/d3d8_combiners.c:1040-1111 | running a stage's statements gives the simultaneous update of the registers: both portions read the registers before it; mapping, dot or product, sum or mux of raw products, scale, bias and clamp, blue to alpha, write order |
| CombinerCorrect.StagesDo | src/d3d/d3d8_combiners.c:1040-1111 | and so do all stages in turn |
| CombinerCorrect.FinalDoes | src/d3d/d3d8_combiners.c:1113-1176 | the final combiner's statements give D + AB + (1-A)C with V1+R0 and EF, and G's alpha |
| CombinerCorrect.PreludeDoes | src/d3d/d3d8_combiners.c:949-1019 | the shader's first statements leave every register as the NV2A starts it |
| CombinerLaws.RegistersShow | src/d3d/d3d8_combiners.c:949-1019 | a state that passes one register on shows what it is named after: a constant, fog, V0, V1, a texture, R0 with texture 0's alpha or 1, R1 and zero black |
| CombinerLaws.InputChannels | src/d3d/d3d8_combiners.c:527-578 | a mapping works channel by channel; alpha replicated, or blue for the alpha portion |
| CombinerLaws.InputMappings | src/d3d/d3d8_combiners.c:580-622 | the eight input mappings as formulas of the value |
| CombinerLaws.OutputMappings | src/d3d/d3d8_combiners.c:629-657 | the eight output mappings as formulas of the value, held between -1 and 1 |
| CombinerLaws.StageChannels | src/d3d/d3d8_combiners.c:1070-1079 | AB and CD are products by channel or dot products, the third result their sum or the mux's choice |
| CombinerLaws.SpecialChannels | src/d3d/d3d8_combiners.c:1127-1138 | V1 + R0 with its complements and clamp, the other registers as they were |
| CombinerLaws.FinalChannels | src/d3d/d3d8_combiners.c:1145-1176 | each channel of the colour is D + AB + (1 - A)C between 0 and 1 |
| CombinerCorrect.ShaderIsCombiners | src/d3d/d3d8_combiners.c:814-1201 | for every state whose active stages write to neither register 6 nor 7 and name neither 14 nor 15, all inputs and constants, and whatever the variables held before, running the whole shader gives the NV2A's colour, and discards exactly when the tested variant's test rejects it |
| CombinerCorrect.CanRejectIff | src/d3d/d3d8_internal.h:394-398 | the test is said to be able to reject exactly when some alpha is rejected |
| CombinerCorrect.VariantsAgree | src/d3d/d3d8_combiners.c:1184-1201 | when it cannot, the variant without the test gives the same pixel as the one with it |
| CombinerCorrect.WritesUpdateIff | src/d3d/d3d8_combiners.c:1092-1109 | running a stage's writes is the combiners' update, for all results and registers, exactly when neither output writes to register 6 or 7 |
| CombinerCorrect.ReservedDestinationDiffers | src/d3d/d3d8_combiners.c:491-525 | such a stage can show in the picture: one that writes to register 6 makes the shader white where the combiners give black |
| CombinerDeclared.UndeclaredIff | src/d3d/d3d8_combiners.c:1124-1128 | the stages mention a variable that is declared only after them exactly when some stage names register 14 or 15 |
| ShaderCache.PresentIsPassed | src/d3d/d3d8_combiners.c:1352-1375 | a probe comes to a present key's slot before it comes to a free one |
| ShaderCache.NotPresent | src/d3d/d3d8_combiners.c:1352-1375 | so a probe that saw only other keys up to a free slot, or all around, shows the key absent |
| ShaderCache.InsertKeeps | src/d3d/d3d8_combiners.c:1357-1368 | inserting a key that is absent keeps the table: no key twice, every key reachable, every shader generated from its entry's key |
| ShaderCache.DestroyKeeps | src/d3d/d3d8_combiners.c:1394-1402 | and so does taking an entry's shader away |
| ShaderCache.ReplaceKeeps | src/d3d/d3d8_combiners.c:1404-1411 | and giving a full table's entry a new key |
| ShaderCache.RefusedShaderLosesOld | src/d3d/d3d8_combiners.c:1404-1405 | a compile refused in a full table leaves the evicted state present without a shader: its next lookup finds that entry, whatever the compiler would say |
| ShaderCache.Cache.constructor | src/d3d/d3d8_combiners.c:141-147 | the empty cache is valid and ready for its first draw |
| ShaderCache.Cache.Probe | src/d3d/d3d8_combiners.c:1352-1375 | finds the key's entry exactly when the key is present, else the free slot or a full table |
| ShaderCache.Cache.LeastRecentlyUsed | src/d3d/d3d8_combiners.c:1381-1392 | the slot with the smallest frame |
| ShaderCache.Cache.LookUp | src/d3d/d3d8_combiners.c:1346-1413 | the probe, the hit, the insertion and the eviction, as one table before and one after |
| ShaderCache.Cache.GetShader | src/d3d/d3d8_combiners.c:1346-1413 | the shader returned was generated from a state with the same key and is live; a present key is found, an absent one fills a free slot, or in a full table that of the state least recently looked up; every entry keeps a shader unless a compile is refused in a full table, and then one does not |
| ShaderCache.Cache.Evict | src/d3d/d3d8_combiners.c:1377-1412 | only the entry of the smallest frame changes, its shader is forgotten by the memo before it is destroyed, also when the compile is refused |
| ShaderCache.Cache.Destroy | src/d3d/d3d8_combiners.c:1394-1402 | destroys the shader of one entry and removes it from the memo |
| ShaderCache.Cache.MarkDirty | src/d3d/d3d8_combiners.c:1490-1493 | keeps the cache valid |
| ShaderCache.Cache.TakeState | src/d3d/d3d8_combiners.c:1511-1543 | the memo is kept for a draw just if the words and the shadow stages are those it was filled for |
| ShaderCache.Cache.PrepareDraw | src/d3d/d3d8_combiners.c:1495-1692 | the shader bound through memo, table and eviction is live and was generated from the current key; each bound draw is counted, and slots are drawn with in the order they were looked up, but for the two variants of one state; all this over any sequence of draws and state changes from a new cache on |
| ShaderCache.Cache.TakeShadows | src/d3d/d3d8_combiners.c:1528-1537 | a changed shadow stage forgets both remembered shaders, an unchanged one keeps what they are for |
| ShaderCache.LeastDrawnIff | src/d3d/d3d8_combiners.c:1377-1392 | the slot least recently looked up is the one least recently drawn with exactly when the other alpha-test variant of its state was not drawn with before it |
| ShaderCache.EvictsLaterDrawn | src/d3d/d3d8_combiners.c:1539-1549 | draws of a new cache after which the shader evicted is not the one least recently drawn with, because draws from the memo are no lookups |
| CombinerDraw.VariantDraws | src/d3d/d3d8_internal.h:388-398 | the variant chosen by what the alpha test can reject draws the state for every pixel: its colour where the test passes, nothing where it rejects |
| CombinerDraw.UniformsUploaded | src/d3d/d3d8_combiners.c:1591-1607 | each stage's two constants, the final combiner's two and the alpha test are those of their own render states |
| CombinerDraw.FinalConstantShows | src/d3d/d3d8_combiners.c:155-161 | a final constant passed on is drawn with the red, green, blue and alpha bytes of its word |
| CombinerDraw.Combiners.constructor | src/d3d/d3d8_combiners.c:1419-1428 | at first no pixel shader is set, the cache is empty and the state is to be parsed |
| CombinerDraw.Combiners.SetRenderState | src/d3d/d3d8_device.c:1146-1158 | sets one word; while the state is not marked dirty it stays what the token and the words say |
| CombinerDraw.Combiners.SetPixelShader | src/d3d/d3d8_combiners.c:1472-1478 | the same for the token |
| CombinerDraw.Combiners.PrepareDraw | src/d3d/d3d8_combiners.c:1495-1692 | over any sequence of settings and draws, the shader bound has a program that, with the constants uploaded, draws for every pixel what the NV2A draws in the state the words say at that draw |
| SoftwareMixer.FrameInRange | src/apu/apu_core.c:1071-1091 | every frame played is inside the voice's data, for one and two channels |
| SoftwareMixer.AfterSplits | src/apu/apu_core.c:1103-1116 | a voice's position and activity after a render do not depend on where the render is split |
| SoftwareMixer.GoesOn | src/apu/apu_core.c:1103-1116 | a voice still on goes on from the frame it was at; one that ended starts over when it is played again |
| SoftwareMixer.AddVoiceSplits | src/apu/apu_core.c:1070-1104 | nor do the samples it adds |
| SoftwareMixer.RenderSplits | src/apu/apu_core.c:1050-1119 | for any set of voices, rendering in two parts gives the same frames and voices as at once |
| SoftwareMixer.AddVoiceAdds | src/apu/apu_core.c:1081-1101 | a voice that plays adds sample 2k on the left and 2k + 1 on the right, or sample k on both sides, by its volume without the fraction, k being ((p0 + i * inc) mod end) >> 16; a sum out of range gives the bound it is beyond |
| SoftwareMixer.RenderAdds | src/apu/apu_core.c:1050-1119 | frame i of a render is the frame before and those sums, one voice after the other |
| SoftwareMixer.Mixer.PlayFrames | src/apu/apu_core.c:1070-1104 | the inner loop adds to each frame what the voice plays there, the nearer bound where a sum leaves 16 bits; it goes around a looping buffer, and at the first position past the end stops a one-shot and counts it out |
| SoftwareMixer.Mixer.RenderVoice | src/apu/apu_core.c:1055-1117 | one voice's frames in place and its new position; an ending inside the loop and one with the last frame are each counted once, in the loop or in the check after it |
| SoftwareMixer.Mixer.Render | src/apu/apu_core.c:1050-1119 | all voices one after the other: where no partial sum leaves 16 bits every frame is what it was plus the sum of what the voices bring |
| SoftwareMixer.Mixer.MonitorFrame | src/apu/apu_core.c:443-473 | the loop over chunks of 256 frames gives what one render of the whole gives |
| SoftwareMixer.Mixer.RenderChunk | src/apu/apu_core.c:402-423 | one chunk over its part of the test tone, or the tone alone when muted |
| SoftwareMixer.Mixer.AllocVoice | src/apu/apu_core.c:941-956 | a slot neither active nor holding data, or -1 when there is none; keeps the count |
| SoftwareMixer.Mixer.FreeVoice | src/apu/apu_core.c:958-967 | stops and empties the slot; the count stays the number of active voices |
| SoftwareMixer.Mixer.SetBufferData | src/audio/dsound_device.c:72-97 | new data stops the voice, and gives it the samples and format from its start if they are of 16 bits; the count stays the number of active voices |
| SoftwareMixer.Mixer.SetPosition | src/apu/apu_core.c:975-987 | accepts exactly the offsets inside the buffer and moves there |
| SoftwareMixer.CanSeekIff | src/apu/apu_core.c:975-987 | those are exactly the offsets in one of its whole frames |
| SoftwareMixer.SeekGoesToFrame | src/apu/apu_core.c:975-1002 | the position then reported is the start of the frame the offset is in |
| SoftwareMixer.Mixer.GetState | src/apu/apu_core.c:989-1002 | the byte offset reported is inside the buffer |
| SoftwareMixer.Mixer.Play | src/apu/apu_core.c:1004-1035 | starts a slot that can play and counts it in unless it was playing; the count stays the number of active voices |
| SoftwareMixer.PlayableIffFrame | src/apu/apu_core.c:1010-1017 | what can be started is data of one or two channels with a whole frame, and it is heard from the first frame on |
| SoftwareMixer.Mixer.Stop | src/apu/apu_core.c:1037-1046 | stops a slot and counts it out if it was playing; the count stays the number of active voices |
| StoreDecoder.ModrmLenIsOperand | src/apu/apu_mmio_hook.c:78-97 | the length of every ModRM operand: SIB, SIB without base, displacements |
| StoreDecoder.LengthIsRightIff | src/apu/apu_mmio_hook.c:492-500 | the decoders step over the encoded length exactly when the instruction is not an immediate store with both 0x66 and REX.W |
| StoreDecoder.RexIsEncoded | src/apu/apu_mmio_hook.c:467-478 | the bytes taken for a REX prefix are exactly those that encode one |
| StoreDecoder.AccessWidth | src/apu/apu_mmio_hook.c:480-500 | the width of every form: eight bytes with REX.W, else its immediate's; one for the byte forms, two for MOVZX of a word |
| StoreDecoder.Context.ScanPrefixes | src/apu/apu_mmio_hook.c:467-478 | the prefix loop finds operand size and REX bits of any encoding and stops at the opcode |
| StoreDecoder.Context.DecodeWriteValue | src/apu/apu_mmio_hook.c:460-509 | accepts exactly the MOV stores, with their width, and moves RIP by the decoded length |
| StoreDecoder.Context.Ac97HandleWrite | src/apu/apu_mmio_hook.c:511-601 | the same for MOV stores and the byte group with an immediate but ADC, SBB and CMP; RIP stays when the store fails |
| StoreDecoder.Context.ApuDecodeAndHandle | src/apu/apu_mmio_hook.c:103-281 | the same for stores, loads, MOVZX and the read-modify-write forms |
| SettingsText.Trim | src/config/recomp_config.c:84-96 | trimming from both ends is the trimmed text |
| SettingsText.TrimmedIff | src/config/recomp_config.c:84-96 | a text is left alone exactly when it has nothing to trim |
| SettingsText.LinesOfJoined | src/config/recomp_config.c:114-118 | lines that fit the buffer are read back as they were written |
| SettingsText.SettingLine | src/config/recomp_config.c:119-127 | a line written as a setting is read as that key with the value trimmed; an equals sign in the value stays |
| SettingsText.CommentLine | src/config/recomp_config.c:119-121 | no blank or comment line is a setting |
| SettingsText.IntRoundTrip | src/config/recomp_config.c:343-344 | every 32-bit integer printed is read back |
| SettingsText.OffWords | src/config/recomp_config.c:79-82 | 0, off, no and false in any case switch a flag off, other words on |
| SettingsFile.ConfigTable.Store | src/config/recomp_config.c:98-112 | replaces a key's value or appends it, cut to the buffers, while there is room |
| SettingsFile.StoredIsUpdate | src/config/recomp_config.c:98-112 | storing sets one key and leaves every other as it was, except in a full table |
| SettingsFile.ConfigTable.Parse | src/config/recomp_config.c:114-128 | the loop over lines stores each setting in turn |
| SettingsFile.ConfigTable.Lookup | src/config/recomp_config.c:692-702 | a key's value, none if it is empty or absent |
| SettingsFile.ConfigTable.ReadSettings | src/config/recomp_config.c:314-399 | the settings the file's table holds over the defaults, clamped and cut; the lookup table is put back |
| SettingsRoundTrip.FileFillsTable | src/config/recomp_config.c:423-590 | reading the written file fills the table with the settings that have a value, in order, whatever comments stand between |
| SettingsRoundTrip.FoundIsWritten | src/config/recomp_config.c:692-702 | each key is then found with the value written for it |
| SettingsRoundTrip.ReadOfWritten | src/config/recomp_config.c:314-590 | for every record, writing and reading gives its normal form; values left to the title survive as comments |
| SettingsRoundTrip.SurvivesIff | src/config/recomp_config.c:314-590 | the record comes back as it was exactly when its numbers are in range, its texts trimmed, its three words there and its factor prints exactly |
| SeenSet.StoredOnce | src/d3d/d3d8_compile.c:65-82 | no hash is in the table twice |
| SeenSet.SeenTable.FirstSighting | src/d3d/d3d8_compile.c:65-82 | by itself the loop answers yes exactly for zero, or for a hash that is absent while there is room |
| SeenSet.AtMostOneFirst | src/d3d/d3d8_compile.c:65-82 | in every interleaving at most one call is first for a non-zero hash |
| SeenSet.ExactlyOneFirst | src/d3d/d3d8_compile.c:65-82 | exactly one is, once a call for it is done and the table is not full |
| SeenSet.StoredIffWon | src/d3d/d3d8_compile.c:65-82 | a hash is stored exactly when a call was first for it |
| SeenSet.StoredStays | src/d3d/d3d8_compile.c:65-82 | a stored hash stays in its slot, reachable from its home slot |
| SeenSet.StoredIsFound | src/d3d/d3d8_compile.c:72-80 | a call for a stored hash goes on slot by slot to where it is and answers no there |
| SeenSet.EveryProbeCounts | src/d3d/d3d8_compile.c:72-81 | every call is done after at most 4097 of its own steps |
| PacketReader.Gdb.ReadPacket | scripts/xemu_probe.py:58-83 | the loop of receives and searches is the read of the model, its buffer kept across calls |
| PacketReader.FirstOfStream | scripts/xemu_probe.py:62-67 | the packet found first is the one sent first, acknowledgements before it skipped |
| PacketReader.ReadIsFirst | scripts/xemu_probe.py:58-83 | a read depends only on the bytes still to come, not on how they are cut; one that fails keeps every byte and says why |
| PacketReader.PayloadsInOrder | scripts/xemu_probe.py:44-83 | reads of a stream of packets give exactly the payloads in order, one acknowledgement each, and leave what follows |
| PacketReader.ThenFails | scripts/xemu_probe.py:75-83 | and the next read then fails for the socket's reason |
| DisplayFit.FitIsPlaced | src/d3d/d3d8_display.c:217-240 | the picture is inside the back buffer, fills one axis and is centred within a pixel; without a shape or a window it is the whole back buffer |
| DisplayFit.FitIsLargest | src/d3d/d3d8_display.c:217-240 | no rectangle of exactly the shape that fits is larger |
| DisplayFit.FitKeepsShape | src/d3d/d3d8_display.c:229-238 | the cut-down axis is right to less than a pixel |
| DisplayFit.TapsAreNearest | src/d3d/d3d8_display.c:418-420 | within 1 to 8 the taps are the whole number nearest the ratio |
| DisplayFit.TapsAtBounds | src/d3d/d3d8_display.c:418-420 | beyond that the nearer bound: one tap for a picture as large as the scene, eight from an eightfold scene on |
| DisplayFit.SampleAtCentre | src/d3d/d3d8_display.c:280-287 | at a whole-number ratio every tap is at the centre of a texel of the pixel's own block |
| DisplayFit.ResolvedIsBlock | src/d3d/d3d8_display.c:276-289 | and every output pixel is the average of its block, wherever the picture stands in the window |
| DisplayFit.TapsPartition | src/d3d/d3d8_display.c:280-287 | every texel is the sample of exactly one tap of exactly one pixel |
| DisplayFit.SceneIsBlocks | src/d3d/d3d8_display.c:280-287 | the blocks of all pixels sum to the scene: nothing is lost or counted twice |
| DisplayFit.SamplesDivideEvenly | src/d3d/d3d8_display.c:280-287 | at any ratio the taps of all pixels divide the scene evenly, each in the middle of its part |
| DisplayFit.ResolvedBetween | src/d3d/d3d8_display.c:276-289 | at any ratio a pixel is between the darkest and the brightest texel: a flat scene stays flat |
| DisplayFit.SlopeIsSampled | src/d3d/d3d8_display.c:285-287 | an even slope is sampled exactly between the centres of the outer texels |
| DisplayFit.EdgeIsHeld | src/d3d/d3d8_display.c:285-287 | and beyond them the edge is |
| DisplayFit.GuestSizedWindow | src/d3d/d3d8_display.c:179-186 | at scale N with the window at the guest's size the picture fills it and there are N taps an axis |
| DisplayFit.GuestSizedPixel | src/d3d/d3d8_display.c:401-437 | and every pixel is the average of the N by N texels rendered for it |

## Left out

- Floating-point rounding everywhere, and the rounding of `%g`: exact reals; printing a factor exactly is one of the conditions of `SurvivesIff`.
- What a voice plays (resampling, filter, HRTF, ADPCM, volume curves): a function of the voice's state and of what it reads from its multipass bin.
- ParallelMixIsInOrder: asks that the queue is aligned, which `InOrderIffAligned` shows is needed, and that no voice is queued twice, which `FrameQueue` proves of every frame's queue.
- SomeoneCanMove: does not cover a spurious wake-up of the dispatcher, whose wait is not in a loop; the workers' spurious wake-ups are covered.
- FrameBarrier: shutdown is not modelled; a worker leaves its loop with the mutex held.
- LockedVoiceIsNotPlayed: for running bodies, asks that no two guests have been in a method on the same voice at once; `TwoGuestsOverlap` shows why. SET_VOICE_LOCK as a method of its own is modelled, the other front-end methods are not.
- UnlistedGoesIn: asks for an antecedent that is on a list, as a guest that inherits one has.
- FetchedOrderly: a stream's segment counts are taken as fixed during a callback, and the notifier writes are not modelled.
- WalkLists: does not model what the idle-voice trap does to the front end beyond its abort.
- VoiceOnReachesSustain: a bound, not an exact count, because the decay curve meets the sustain level early.
- ShaderIsCombiners: no active stage writes to registers 6 or 7 or names 14 or 15, which are not declared there; `WritesUpdateIff` and `UndeclaredIff` say what happens otherwise. Texture registers hold any values; sampling modes, shadow comparison, debug switches and the generator's buffer running full are not modelled.
- GetShader: a shader's code is stood for by the key it was generated from. That the slot given up is the one least recently looked up is said up to the wrap of the 32-bit frame counter, after which the smallest frame is no longer the oldest.
- PrepareDraw: its exits without a device or a constant buffer are left out, a shader the host refuses is a given, and of the uploaded constants those for fog and texture scale.
- AllocVoice: uniqueness of the slots it gives is not claimed, since it does not mark a slot as taken.
- PlayFrames: the volume is an exact real and the sample times the volume is taken to fit 32 bits before it is clamped; the test tone's phase is a given sequence of frames.
- ApuDecodeAndHandle: the decoders' values, registers and flags are not modelled, only length, width and acceptance; neither are register operands (mod 3), address-size and segment prefixes, and legacy high-byte registers.
- LengthIsRightIff: says it of the distance `Advance` that each decoder's contract ties RIP to.
- ReadOfWritten: texts are on one line and without NUL bytes, as the launcher's fields are, and flags are 0 or 1. Files in directories, the environment and the lookup of single settings are not modelled.
- ExactlyOneFirst: a compare-and-swap and the answer drawn from it are one step.
- PayloadsInOrder: payloads are bytes, their decoding to text is left out; so are checksums, which the program does not check, and draining and halting.
- GuestSizedPixel: the scene's size in texels is below 2^32 on each axis with half the picture's height to spare, where the sum in the tap count would wrap; sampling is bilinear with clamping, in texels rather than in normalised coordinates.
- Directory and environment lookup, windows, swap chains, host audio, and the other scripts: plumbing, or single branches.
