# jitLLM benchmarks: a verified model

jitLLM runs large language models on one GPU out of a store on disk. Its benchmarks drive the engine the way a client would,
and check that what is fast is also exact: speculation gives plain decoding's tokens, a swapped model goes on as if it had
never left, weights loaded through two small buffers are the artifact's. This project models the algorithms of those
benchmarks in Dafny, with the parts of the engine they lean on, and proves what they promise.

`dafny verify dfyconfig.toml` checks everything.

## What is modelled

**Speculation** (`LiveState`, `Speculation`, `Lossless`, `LockStep`, `CutResume`, `Harness`, `Checks`, `AcceptanceByPosition`). A
drafter proposes tokens, one verify judges them, the agreeing prefix is kept. The target is any function of a prefix: a row
of a verify is the target's on the tokens up to it. This is the hypothesis the model rests on (`Speculation.Engine`,
`LiveState.Model`); the benchmark's tolerance for rows that a faster graph rounds otherwise is not modelled. The drafter, the
adaptive window and the positions forced wrong are arbitrary. `Lossless` proves that speculation is plain decoding, for
greedy choice and for any sampler whose verdict on a draft is whether it would itself have chosen it. `LockStep` proves that
a forced run and its control keep the same rows at every step, `CutResume` that a run cut after any step and resumed is the
uncut run. `LiveState` is the runner below: what a verify saves, what an accept owes back, and that the device then holds
exactly the state of the tokens kept, through every failure; and what room those saves need. `Harness` puts the loop on that
runner, and `Checks` the greedy and the forced check: plain decoding and speculation, and a forced run and its control, leave
the same tokens and the same device state.

**Sampling a draft's verdict** (`SpeculativeSampling`, `SampledSpeculation`). Weights and uniform numbers are reals. A verdict
gives each token exactly as often as a plain draw does, and `SampledSpeculation` carries this through the judging of whole
runs: each token of a sampled generation is given by the two uniform numbers of its own position, any one candidate by pairs
of them whose area is the candidate's part of the weight, whatever was drafted there.

**Loading weights** (`ReadPlan`, `StagedLoading`, `Divisors`, `Placement`, `PlacedAndLoaded`, `TokenTable`). The stream is a
queue of copies and event records that the device executes at any time: two staging buffers are never rewritten while a
queued copy reads them, and at the end the device holds the artifact's bytes. Placement is an allocator with
least-common-multiple strides. `PlacedAndLoaded` joins the two: what is placed and then loaded is found at every tensor's
address and at every expert's stride.

**Captured graphs and names** (`GraphChain`, `Normalization`, `ScriptNormalization`, `OperandRing`). A captured graph is
linearized if and only if it is one path. Mangled names are rewritten by a scan whose numbers are 64 bits and wrap.

**Plans and chunks** (`PlanCache`, `Chunking`).

**Step machines** (`Alternation`, `SlotPool`, `TaskPrograms`, `PatternCheck`, `SwapContinuation`, `Spans`, `Relocation`).
What the environment does inside and between the steps is left open: storage that refuses and completes at will, a scheduler
that is busy at any point, a node that refuses any source.

**Measures** (`TotalVariation`, `Npy`).

## Where the code and what is said of it differ

- `Plain` always gives one token, `Speculate` none when none is asked for: they agree exactly when at least one is
  (`Lossless.LosslessIffAsked`).
- `benchmarks/qwen38_spec.cc:826` allows for a last verify that gives more tokens than were asked for. For a count of one
  or more none does, and the final resize cuts nothing (`Lossless.RunLength`).
- The control of a run that was cut near the end of the context fails where the run did not, exactly when its next drafts
  would pass the context (`LockStep.ControlLocked`; such a run: `LockStep.ControlFails`).
- The wrong token a control puts in place of a forced one is another token exactly when the vocabulary has three
  (`LockStep.WrongDifferently`).
- An expert's slice is taken to lie at its layer's stride from the array's address. The artifact's reader lets two layers
  share all of their expert groups or none (`src/artifact/artifact.cc:1228-1234`: each group of an array has its own number
  in it), and arrays are bound by name. The last layer with the groups places them, so a slice lies at its layer's stride
  exactly when that last layer's stride is the same or the slice is the first (`Placement.SlicesStrided`; a model that can be
  placed and has a slice elsewhere: `Placement.NotStrided`). With disjoint expert ranges every layer is the last with its
  groups (`Placement.ApartLast`).
- `Normalize` adds a 64-bit length to a place without looking for a carry: a name whose number is close to 2^64 is changed
  when it should be left alone (`Normalization.Overlong`, `Normalization.AcceptsIff`). For the same reason a name may
  normalize otherwise behind a tagged name than alone (`Normalization.CarriedOver`): exactly when, at some tag
  of its scan, a number longer than the one taken there has a sum with its place that stays below 2^64 in the name alone and
  wraps behind the text (`Normalization.ComposesIff`). And two names that differ only in a tagged name may come out
  differently: exactly when, along the scan of the rest behind the two texts, numbers are taken from different cuts, or a sum
  that wraps behind both sends the scan back into ends of the texts that differ (`Normalization.AlikeButTag`; names of both
  kinds: `Normalization.BothDisplaced`).
- `Normalize` says it does what `bpf1_cases.py` does. It does, exactly when at no tag of the scan digits that begin inside a
  name already replaced still give a length after it, and no number that is no length is taken for one because its sum with
  its place wraps (`ScriptNormalization.AgreeIff`; names that fail either way: `ScriptNormalization.RowDiffers`,
  `ScriptNormalization.OverlongDiffers`).
- A mode whose histogram has no counts gives a distance that is no number, which passes every bound
  (`TotalVariation.DistanceBounded`; such histograms: `TotalVariation.OneModeCounted`).
- A `.npy` header of 65,536 bytes or more loses its length's high bits, and its data is then not found
  (`Npy.RoundTrip`; such a file: `Npy.Lost`).

## Model

| member | source | states |
|---|---|---|
| LiveState.Saves | src/engine/qwen38_runner.cc:1087-1117 | the ranges saved before a verify are exactly the cells and block keys its rows write, each with the row that writes it, in an order and a number given by what is past and the rows |
| LiveState.BlocksCompleted | src/engine/qwen38_runner.cc:1103-1117 | the block keys saved are those whose completing row is one of the verify's |
| LiveState.FitsIff | src/engine/live_state.cc:210-225 | no save of a sequence is refused if and only if the last is not: there is a descriptor for it, and its range fits behind the others and their padding |
| LiveState.VerifyFits | src/engine/live_state.cc:210-225 | whether a verify's saves fit depends on its rows and the blocks they end alone: descriptors for all, and bytes for all and the padding of all but the last |
| LiveState.VerifyRoom | src/engine/qwen38_runner.cc:345-358 | whatever is past, a verify needs no more descriptors and bytes than the most rows it may have and the most blocks so many rows can end |
| LiveState.SnapshotSuffices | src/engine/qwen38_runner.cc:345-367 | the bytes the runner maps hold every verify it can be asked for, if the padding of the ranges is within the page added and there are descriptors for them |
| LiveState.SnapshotShortIff | src/engine/qwen38_runner.cc:345-367 | a snapshot of any size is short for some verify if and only if it is for one of the most rows there may be, with the most blocks that those can end within the context |
| LiveState.Restores | src/engine/live_state.cc:238-255 | an accept puts back the ranges of the rows it does not keep, and of no row, and no others |
| LiveState.RestoredCache | src/engine/live_state.cc:238-272 | whatever the rejected rows wrote, putting those ranges back leaves the cache of the kept rows alone |
| LiveState.ReplayedRecurrent | src/kernels/ggml/qwen38_commit.h:4-25 | replaying the kept rows' saved inputs gives the recurrent state of decoding them |
| LiveState.RowsWritten | src/engine/qwen38_runner.cc:791-946 | the rows of a chunk written onto the state of what is past give the state of the whole history |
| LiveState.Accepted | src/engine/live_state.cc:238-272 | accepting any number of rows of a verify that awaits it leaves the state of exactly those rows owed |
| LiveState.UndoneVerify | src/engine/live_state.cc:303-325 | a verify that failed after its saves is undone by putting all of them back, whatever it wrote |
| LiveState.VerifyAwaits | src/engine/qwen38_runner.cc:1044-1176 | a verify's rows on the state of what is held await their accept with every range it wrote saved |
| LiveState.Runner.Clear | src/engine/live_state.cc:113-143 | succeeds exactly when the job ran; then nothing is owed, held or quarantined, and otherwise the state is quarantined |
| LiveState.Runner.QueueOwed | src/engine/live_state.cc:257-272 | what is owed leaves the device with exactly the state of the tokens held |
| LiveState.Runner.Rollback | src/engine/live_state.cc:274-301 | after it the device holds exactly the state of decoding the held tokens one by one; only a launch of unknown effect quarantines, and any other failure leaves what is owed owed, or done |
| LiveState.Runner.Chunk | src/engine/qwen38_runner.cc:791-946 | succeeds exactly when the state is usable, no verify awaits, the rows are some and within the context and the job ran; its row is the target's; a chunk refused before its own run wrote leaves the state usable, and any other failure quarantines |
| LiveState.Runner.Verify | src/engine/qwen38_runner.cc:1044-1176 | its rows are the target's, what is held does not change, a failure is owed back whole or quarantines, and it runs exactly when the saves of its rows fit the snapshot's descriptors and bytes |
| LiveState.Runner.Accept | src/engine/qwen38_runner.cc:1178-1187 | succeeds for one row to all of the verify's, and the state then stands for the held tokens and those rows |
| Speculation.Argmax | benchmarks/qwen38_spec.cc:211-219 | the highest logit, the lowest index among equals |
| Speculation.Verified | benchmarks/qwen38_spec.cc:783-796 | the drafts verified stay within the tokens left and the context, and a forced position within the drafts |
| Speculation.JudgementIs | benchmarks/qwen38_spec.cc:646-691 | a judgement accepts the drafts before the first that does not pass; its token is then the verdict's, or where that gives none and behind the last draft one chosen afresh; it fails only where a verdict or a sample is refused |
| Speculation.JudgesOnce | benchmarks/qwen38_spec.cc:646-691 | only one number and token can be so, and then nothing was refused |
| Speculation.WindowedIs | benchmarks/qwen38_spec.cc:743-759 | the window keeps the longest row of drafts whose probabilities reach it, beyond those kept anyway |
| Speculation.Advance | benchmarks/qwen38_spec.cc:734-819 | a turn keeps the history one longer than the position and adds tokens, never past the count |
| Lossless.DecodingUnique | benchmarks/qwen38_spec.cc:503-523 | one-token decoding determines its tokens |
| Lossless.JudgedLongest | benchmarks/qwen38_spec.cc:646-691 | a judgement accepts exactly the longest prefix of drafts the chooser would have chosen, and gives its own choice after them |
| Lossless.KeptFaithful | benchmarks/qwen38_spec.cc:697-708 | whatever drafts were verified, what is kept of them extends the one-token decoding |
| Lossless.RunFaithful | benchmarks/qwen38_spec.cc:734-819 | the whole loop keeps the history a one-token decoding, for any drafter, window and forcing |
| Lossless.RunLength | benchmarks/qwen38_spec.cc:734-833 | a run never gives more tokens than asked for, and exactly as many unless it is stopped |
| Lossless.SpeculationLossless | benchmarks/qwen38_spec.cc:712-835 | a speculative generation is a prefix of the plain one, and all of it unless the run was stopped |
| Lossless.LosslessIffAsked | benchmarks/qwen38_spec.cc:503-523 | the two agree if and only if at least one token is asked for |
| Lossless.RunAccounted | benchmarks/qwen38_spec.cc:705-708 | through every run: position and tokens agree, drafted and accepted are the steps' sums, each token but the first was kept by one verify, each step follows the one before, and none passes the context |
| Lossless.RunFits | benchmarks/qwen38_spec.cc:735-737 | with room for the drafts of the last anchor a run never fails |
| LockStep.SameJudgement | benchmarks/qwen38_spec.cc:661-691 | drafts that agree up to a verdict and are still wrong there get the same verdict |
| LockStep.WrongDifferently | benchmarks/qwen38_spec.cc:768-781 | the token put in place of a rejected forced draft is never the verify's own, and is another token exactly when the vocabulary has three |
| LockStep.AdvanceLocked | benchmarks/qwen38_spec.cc:760-819 | a turn of a control keeps step with the run's turn: same position, rows, kept and next |
| LockStep.ControlLocked | benchmarks/qwen38_spec.cc:760-819 | a control stays in step to the end, and succeeds if and only if the run reached its count or its next drafts fit the context |
| LockStep.ControlFails | benchmarks/qwen38_spec.cc:735-737 | a run cut after its one step ends, and its control, asked for another, fails |
| LockStep.ForcedRunsMatch | benchmarks/qwen38_spec.cc:988-1058 | a forced run and its control give the same tokens and steps alike in position, rows, kept and next |
| CutResume.AdvanceJoined | benchmarks/qwen38_spec.cc:1226-1259 | a turn of the resumed run is the uncut run's turn from the joined state |
| CutResume.RunCut | benchmarks/qwen38_spec.cc:734-734 | going on from where a run was stopped by its steps gives the uncut run |
| CutResume.RunAligned | benchmarks/qwen38_spec.cc:697-704 | every token of a run that keeps its logits stands beside the row it was chosen from |
| CutResume.CutAndResumed | benchmarks/qwen38_spec.cc:1190-1259 | a run cut after any number of steps and resumed from its anchor, both with limits on steps they do not reach or limits that agree, joins to the uncut run's tokens, logits, steps and counters, or fails as it does |
| Harness.Prefill | benchmarks/qwen38_spec.cc:489-501 | the prompt's chunks leave the runner holding the prompt, with its last row; it succeeds if and only if the prompt fits the context and its clear and each of its chunks run |
| Harness.Plain | benchmarks/qwen38_spec.cc:503-523 | plain decoding on the runner is the one-token decoding, each logits row the target's; it succeeds if and only if the prefill does, the tokens fit the context and each of its steps runs |
| Harness.Judge | benchmarks/qwen38_spec.cc:649-691 | the drafts accepted all pass, the first that does not gives the verdict's token or a fresh sample, and behind the last draft the token is chosen afresh; refused if and only if a verdict or sample on the way is |
| Harness.Window | benchmarks/qwen38_spec.cc:749-759 | the longest row of drafts whose probabilities reach the window, at least one if there are any, and all of them without a window |
| Harness.Replace | benchmarks/qwen38_spec.cc:760-782 | a control takes the drafts on record, but for a forced one that was rejected; that one is the token after it, or the one after that where the verify chose it |
| Harness.Propose | benchmarks/qwen38_spec.cc:743-782 | the drafts are those within the window, or a control's with another token in place of the rejected forced one and of no other |
| Harness.Record | benchmarks/qwen38_spec.cc:697-708 | the tokens pushed one by one are the state the model keeps |
| Harness.VerifyAndAccept | benchmarks/qwen38_spec.cc:797-807 | after a verify, its judgement and its accept the runner stands for exactly the rows kept, and only the failures listed stop it |
| Harness.Turn | benchmarks/qwen38_spec.cc:734-819 | a turn on the runner is the model's, the runner stands for the history before the new anchor, and only the failures listed stop it |
| Harness.ReadState | src/engine/qwen38_runner.cc:1197-1206 | what is read is the state that decoding the held tokens one by one leaves, whatever was owed |
| Harness.Proceed | benchmarks/qwen38_spec.cc:734-819 | a turn and the reading after it: the state read is that of the tokens held; the last step's is read exactly if the run is to be settled |
| Harness.Loop | benchmarks/qwen38_spec.cc:734-819 | the whole loop is the model's run, each state read is that of the tokens its step left held, and it fails only if the model's does, one of its own jobs does, the snapshot is short or a control has more drafts than the drafter makes |
| Harness.Speculate | benchmarks/qwen38_spec.cc:712-835 | the loop on the runner gives the model's generation and each step's state; settled, the device holds exactly the state of its tokens; it fails only if the model's does, one of its own jobs does, the snapshot is short or a control has more drafts than the drafter makes |
| Checks.Respond | benchmarks/qwen38_spec.cc:1017-1030 | a request, its prefill and its speculation: the generation and the device state it leaves |
| Checks.PlainAndSpeculative | benchmarks/qwen38_spec.cc:850-874 | a plain and a speculative request on one runner: the second gives the first's tokens, all of them unless it was stopped, and then leaves the same device state |
| Checks.Repeatable | benchmarks/qwen38_spec.cc:764-770 | the steps of a run that drafts for itself can always be repeated by a control on the same runner |
| Checks.ForcedAndControl | benchmarks/qwen38_spec.cc:1012-1082 | a forced run and its control on one runner: the same tokens, steps alike, and the same device state after every step; the control fails only if a job of its own does |
| AcceptanceByPosition.StepsFit | benchmarks/qwen38_spec.cc:743-787 | every step of a run that drafts for itself has no more drafts than the drafter makes |
| AcceptanceByPosition.AddStep | benchmarks/qwen38_spec.cc:914-921 | a step raises by one exactly the positions it offered, and those it accepted, and no other |
| AcceptanceByPosition.ByPosition | benchmarks/qwen38_spec.cc:911-921 | each entry is the number of steps that offered or accepted that position; the columns add up to the drafts offered and accepted in all, and no later position was offered or accepted more often than an earlier one |
| SpeculativeSampling.Draw | src/execution/sampling.cc:277-294 | the loop gives the candidate the cumulative weight first passes the target at |
| SpeculativeSampling.DrawnIff | src/execution/sampling.cc:277-294 | a draw gives a candidate if and only if the target lies in its share |
| SpeculativeSampling.DrawnPast | src/execution/sampling.cc:277-294 | past the total a draw gives the last candidate with weight |
| SpeculativeSampling.DrawInterval | src/execution/sampling.cc:277-294 | the uniform numbers that draw a candidate are an interval as long as its part of the total |
| SpeculativeSampling.SharesTile | src/execution/sampling.cc:277-294 | the shares lie one after another and cover the unit interval |
| SpeculativeSampling.VerifyDraft | src/execution/sampling.cc:315-356 | accepted if and only if the accepting number is below the draft's part of the total weight, and if and only if the token is the draft; the token is a candidate with weight; a draft that is no candidate is never accepted |
| SpeculativeSampling.WeightOfIs | src/execution/sampling.cc:332-340 | the weight looked up is the draft's own, and none for one that is no candidate |
| SpeculativeSampling.VerdictGives | src/execution/sampling.cc:315-356 | which pairs of uniform numbers give a token: the accepting ones for the draft, the rejecting ones in its share of the rest for another |
| SpeculativeSampling.VerdictDistribution | src/execution/sampling.cc:315-356 | whatever the draft, the area of the pairs that give a token is the length of the interval that draws it |
| SampledSpeculation.ZeroCoherent | src/execution/sampling.cc:319-328 | at temperature 0 the sampler accepts exactly what it would choose, which is the argmax, so that `Lossless` holds of it |
| SampledSpeculation.GivingArea | src/execution/sampling.cc:341-356 | whatever was drafted, the pairs of uniform numbers that give a candidate are as large a part of all pairs as its weight is of the total |
| SampledSpeculation.StepGiven | benchmarks/qwen38_spec.cc:649-691 | each token a step keeps is a candidate of the row of the tokens before it, and is any one candidate exactly if the two numbers of its position are among the pairs that give that one |
| SampledSpeculation.SampledLossless | benchmarks/qwen38_spec.cc:712-835 | the same of every token of a whole sampled generation, for any target, drafter, window and forcing |
| ReadPlan.ByteInChunk | src/artifact/layout.cc:27-51 | a chunk's range holds exactly the stored bytes of its group whose place in the group is the chunk's, in the group's shard: each stored byte is in one chunk |
| ReadPlan.AddChunk | src/artifact/layout.cc:87-106 | one more chunk keeps the runs tiling, within their limits and as long as they can be |
| ReadPlan.PlanReads | src/artifact/layout.cc:70-109 | refused if and only if a chunk is resident or outside the layout; each chunk asked for is read once, in order of shard and place, each run's segments tile it, and no two neighbours could have been one run within the limits |
| StagedLoading.ExecutedArrives | benchmarks/dsv4_exec.cc:480-492 | executing the head of the queue keeps every issued chunk on the device or still to come |
| StagedLoading.WaitFrees | benchmarks/dsv4_exec.cc:457-462 | once a buffer's event has no record left in the queue no copy left there reads the buffer |
| StagedLoading.SegmentBytes | benchmarks/dsv4_exec.cc:474-490 | the bytes of a run where a segment lies are its chunk's |
| StagedLoading.Loader.Synchronize | benchmarks/dsv4_exec.cc:458-462 | after waiting for an event the queue is what is left and holds no record of it, whatever the device did when |
| StagedLoading.Loader.Fill | benchmarks/dsv4_exec.cc:463-473 | however the reads are split, the buffer holds the run's bytes, and no queued copy read it meanwhile; it succeeds if and only if no read on the way through the run fails |
| StagedLoading.Loader.IssueRun | benchmarks/dsv4_exec.cc:474-494 | each segment is in the host's table or queued, before the record of the buffer's event |
| StagedLoading.Loader.LoadRun | benchmarks/dsv4_exec.cc:453-496 | a run through one buffer leaves the other buffer as free as it was; it fails if and only if the run is not read through |
| StagedLoading.Loader.Load | benchmarks/dsv4_exec.cc:451-499 | under every interleaving, each chunk of the runs is where it belongs at the end, if and only if every run is read through; no run exceeds its buffer |
| StagedLoading.GroupLoaded | benchmarks/dsv4_exec.cc:479-488 | with every chunk of a group issued and the queue empty the device holds the group's bytes |
| StagedLoading.TableLoaded | benchmarks/dsv4_exec.cc:477-478 | with every chunk of the table issued the host's table is the group's bytes |
| StagedLoading.AllChunks | benchmarks/dsv4_exec.cc:415-420 | the chunks listed are every chunk of every group |
| StagedLoading.PlanAll | benchmarks/dsv4_exec.cc:421-425 | the reads of a whole artifact are never refused and hold every chunk and nothing else |
| StagedLoading.LoadWeights | benchmarks/dsv4_exec.cc:412-499 | at the end every group on the device and the host's table hold exactly the artifact's bytes, if and only if the planned runs of all its chunks are read through; also benchmarks/qwen38_exec.cc:376-457, with no table |
| Divisors.RoundLeast | benchmarks/dsv4_exec.cc:142-142 | rounding up gives the least multiple that is no smaller |
| Divisors.GcdDivides | benchmarks/dsv4_exec.cc:273-273 | the greatest common divisor divides both |
| Divisors.Bezout | benchmarks/dsv4_exec.cc:273-273 | and is a combination of the two |
| Divisors.LcmLeast | benchmarks/dsv4_exec.cc:273-273 | the quotient times the other number is a multiple of both, and divides every common multiple |
| Placement.LayerSlots | benchmarks/dsv4_exec.cc:321-350 | refused if and only if the layer is not uniform; its stride is the least multiple of 16 and of every block size that holds a group |
| Placement.AllSlots | benchmarks/dsv4_exec.cc:321-350 | refused if and only if some layer is not uniform; the padding is what the strides add |
| Placement.SlabConserved | benchmarks/dsv4_exec.cc:349-389 | the slabs' bytes are the experts' stored bytes and the padding |
| Placement.MarkExperts | benchmarks/dsv4_exec.cc:351-357 | the groups marked are exactly those of some layer's experts |
| Placement.LayDense | benchmarks/dsv4_exec.cc:361-371 | refused if and only if an expert group belongs to no layer; the dense groups lie one after another at multiples of 256, no 256 bytes are wasted, and the bytes are theirs |
| Placement.PlaceExperts | benchmarks/dsv4_exec.cc:390-392 | a layer's groups at its stride, and no other address changed |
| Placement.PlaceSlabs | benchmarks/dsv4_exec.cc:382-403 | refused if and only if the allocator refuses a layer's slab; each group is where the last layer that has it placed it, and the slabs' bytes are the layers' |
| Placement.GroupsApart | benchmarks/dsv4_exec.cc:372-403 | no two device groups overlap, whatever groups the layers share |
| Placement.GroupInRegion | benchmarks/dsv4_exec.cc:372-403 | every device group lies in its region or slab |
| Placement.DenseAligned | benchmarks/dsv4_exec.cc:361-381 | every dense group's address is a multiple of 256 |
| Placement.SharedWhole | src/artifact/artifact.cc:1228-1234 | two layers that share an expert group share all of theirs |
| Placement.LastPlaced | benchmarks/dsv4_exec.cc:382-392 | each expert's group is in its slot of the slab of the last layer with the same groups |
| Placement.SlicesStrided | benchmarks/dsv4_exec.cc:298-302 | expert e's slice lies at the array's address and e strides, if and only if the last layer with the same groups has the same stride or e is 0 |
| Placement.NotStrided | benchmarks/dsv4_exec.cc:298-302 | a model that can be placed and whose second slice is then never at its layer's stride |
| Placement.ApartLast | benchmarks/dsv4_exec.cc:382-392 | with disjoint expert ranges every layer is the last with its groups |
| Placement.TableAlone | benchmarks/dsv4_exec.cc:309-315 | passes if and only if no other tensor is in the table's group |
| Placement.Arrange | benchmarks/dsv4_exec.cc:304-371 | refused if and only if the model cannot be placed |
| Placement.PlaceWeights | benchmarks/dsv4_exec.cc:304-410 | every group but the token table's own has its own place inside its region, aligned, with the slabs' bytes accounted for; refused if and only if the model cannot be placed or the allocator refuses the dense region or a slab it is asked for; also benchmarks/qwen38_exec.cc:289-375, with no table |
| PlacedAndLoaded.PlaceAndLoad | benchmarks/dsv4_exec.cc:304-499 | placed and then loaded, under every interleaving every group but the table's is on the device at its own place and the table on the host; refused if and only if the model cannot be placed, the allocator refuses or a planned run is not read through |
| PlacedAndLoaded.ResourceLoaded | benchmarks/dsv4_exec.cc:292-296 | a tensor's bytes are at the address computed for it |
| PlacedAndLoaded.SliceLoaded | benchmarks/dsv4_exec.cc:298-302 | an expert's bytes of an array are at the array's address and its strides, wherever the last layer with the groups has the same stride |
| TokenTable.CopyPart | benchmarks/fp16_exec.cc:609-617 | exactly the table's bytes that a segment holds are copied, from their place in it |
| TokenTable.Load | benchmarks/fp16_exec.cc:570-629 | refused if and only if a digest does not match or the segments are not as many as the groups' numbered chunks and the digests; the table then holds the artifact's bytes wherever a segment held them, in any order, and is as it was elsewhere |
| GraphChain.Tables | benchmarks/ggml_vmm_bench.cc:837-844 | refused if and only if two edges leave one node; the tables are the edges' |
| GraphChain.Root | benchmarks/ggml_vmm_bench.cc:845-853 | refused if and only if two nodes have no edge to them |
| GraphChain.NeverTwice | benchmarks/ggml_vmm_bench.cc:854-862 | a node the walk accepts it has not accepted before, cycles and all |
| GraphChain.Walk | benchmarks/ggml_vmm_bench.cc:854-862 | ends on every graph; refused only at a node with two edges to it |
| GraphChain.WalkIsChain | benchmarks/ggml_vmm_bench.cc:854-865 | a walk that covers the nodes is a path through all of them, and every edge is on it |
| GraphChain.ChainIsWalked | benchmarks/ggml_vmm_bench.cc:854-865 | where there is such a path the walk is it |
| GraphChain.GraphOrder | benchmarks/ggml_vmm_bench.cc:837-865 | an order is given if and only if the graph is one path of two nodes or more through all its nodes, and it is that path |
| GraphChain.OnlyOrder | benchmarks/ggml_vmm_bench.cc:812-813 | that order is the only one in which every edge leads forward |
| Normalization.CutBefore | benchmarks/ggml_vmm_bench.cc:306-314 | the two inner loops find the first cut, in the digits back to the place done, that is taken for a length |
| Normalization.Normalize | benchmarks/ggml_vmm_bench.cc:300-324 | the scan gives the rewriting the next rows are about |
| Normalization.Composes | benchmarks/ggml_vmm_bench.cc:297-324 | plain text, a length, a tagged name of that length and more text come out as the text, the tag and the rest normalized alone, whatever the tagged name holds, where no number in the rest could pass 2^64 with a place |
| Normalization.ComposesIff | benchmarks/ggml_vmm_bench.cc:297-324 | and in general if and only if at no tag of the rest's scan a number longer than the one taken alone is carried past 2^64 by the text before it |
| Normalization.CarriedOver | benchmarks/ggml_vmm_bench.cc:312-314 | a name whose parts do not come out as they would alone |
| Normalization.AlikeButTag | benchmarks/ggml_vmm_bench.cc:297-299 | two names that differ only in a tagged name come out alike if and only if, along the scan of the rest behind the two texts, no number is taken from different cuts and none that wraps behind both puts out again ends of the texts that differ; so alike if neither displaces a number of the rest, and differently if one alone does |
| Normalization.RestBehind | benchmarks/ggml_vmm_bench.cc:300-324 | what is left of a name from any place of its scan comes out alike behind two texts if and only if they do not differ along it |
| Normalization.BothDisplaced | benchmarks/ggml_vmm_bench.cc:312-314 | of names that differ only in a tagged name and all displace a number of the rest, two come out differently and two alike |
| Normalization.AcceptsIff | benchmarks/ggml_vmm_bench.cc:312-314 | a number is taken for a length if and only if the name it gives fits, or the sum of place and length wraps |
| Normalization.UnchangedIff | benchmarks/ggml_vmm_bench.cc:300-324 | a name comes out as it went in if and only if no number before a tag is taken for a length |
| Normalization.Overlong | benchmarks/ggml_vmm_bench.cc:314-314 | a name with a length no name can have is changed |
| ScriptNormalization.AgreeIff | docs/experiments/backend-proof-p1/bpf1_cases.py:53-72 | bench and script give the same name if and only if at no tag of the scan digits straddle the end of a replaced name and still give a length, or a number is taken only because its sum wraps |
| ScriptNormalization.RowDiffers | docs/experiments/backend-proof-p1/bpf1_cases.py:57-58 | on two tagged names in a row, the first ending in a digit, they differ |
| ScriptNormalization.RowExample | docs/experiments/backend-proof-p1/bpf1_cases.py:57-58 | there is such a name |
| ScriptNormalization.OverlongDiffers | docs/experiments/backend-proof-p1/bpf1_cases.py:53-72 | a number close to 2^64 before a tag is a name on which they differ, with nothing straddled |
| OperandRing.RingExceeds | benchmarks/ggml_vmm_bench.cc:1014-1015 | the ring holds more than four times L2, and no smaller ring of two sets or more does |
| OperandRing.MadeIff | benchmarks/ggml_vmm_bench.cc:1111-1121 | the invocations made are exactly the first 720 numbers |
| OperandRing.SetBuilt | benchmarks/ggml_vmm_bench.cc:1055-1057 | the second remainder changes nothing for any invocation made, and its set is built |
| OperandRing.NextDiffers | benchmarks/ggml_vmm_bench.cc:1055-1057 | consecutive invocations run on different sets |
| OperandRing.RecursAfterOthers | benchmarks/ggml_vmm_bench.cc:1055-1057 | a set recurs only after every other set of the ring |
| OperandRing.Extend | benchmarks/ggml_vmm_bench.cc:1030-1036 | a copy from the ring's start to behind what is filled, between ranges that do not overlap, fills that many sets more |
| OperandRing.Fill | benchmarks/ggml_vmm_bench.cc:1025-1038 | every set comes out equal to the one uploaded, in as few copies as doubling takes |
| PlanCache.Runner.constructor | benchmarks/dsv4_exec.cc:690-700 | a new runner holds no plan |
| PlanCache.Runner.Chunk | benchmarks/dsv4_exec.cc:718-751 | the search, the plan made on a miss, the oldest dropped and the count are the model's step |
| PlanCache.Runner.SetExact | benchmarks/dsv4_exec.cc:882-887 | the mode is set, every plan dropped, the count kept |
| PlanCache.Runner.Serve | benchmarks/dsv4_exec.cc:718-887 | any sequence of calls is the model's run |
| PlanCache.ServedAgrees | benchmarks/dsv4_exec.cc:727-751 | a chunk runs on the plan that would be made afresh, found if and only if its shape is one of the last eight planned since the mode was set |
| PlanCache.Transparent | benchmarks/dsv4_exec.cc:727-751 | over any calls: the plans are those made afresh, what is held is the last eight shapes planned, each once with its current plan, and the count is of the misses that planned; also benchmarks/qwen38_exec.cc:580-605 |
| Chunking.RowsMost | benchmarks/dsv4_exec.cc:149-155 | a chunk has the most rows it may have: no more than left or allowed, whole tiles from 1,024; also benchmarks/qwen38_exec.cc:754-760 |
| Chunking.ChunksTile | benchmarks/dsv4_exec.cc:1577-1579 | the chunks end, add up to the text, and each has rows, no more than allowed, whole tiles if long |
| Chunking.ChunksMost | benchmarks/dsv4_exec.cc:1577-1579 | and each has the most rows it may have of those left |
| Chunking.Perplexity | benchmarks/dsv4_exec.cc:1565-1592 | the scores are each token's after the first, once, on its true prefix, whatever the chunks allowed; refused if and only if the text does not fit or one of its chunks fails; also benchmarks/qwen38_exec.cc:1881-1906 |
| Alternation.BudgetIs | benchmarks/alternate_paged.cc:340-350 | the budget is what stays, the larger model and half the smaller rounded up, in whole extents |
| Alternation.EvictsOther | benchmarks/alternate_paged.cc:382-419 | for any planner that keeps the budget, evicts nothing asked for and makes it resident, whatever else of the two models it loads, every acquisition after the first evicts at least half the smaller model, all of it the other's |
| Alternation.SelectVictims | src/memory/victims.cc:18-51 | the victims are evictable and unprotected, in order: those given up first, then the longest unused, then by content and number; they are the fewest that free what is needed, or all there are; no candidate that stays comes before a victim; sufficient if and only if all together are |
| Alternation.Candidates | src/memory/victims.cc:20-37 | the catalog's evictable and unprotected extents, each once; given up before kept, then by last use, content and number |
| Alternation.Node.constructor | benchmarks/alternate_paged.cc:340-351 | nothing of either model is resident at first |
| Alternation.Node.Acquire | src/scheduler/programs.h:467-524 | refused, with nothing evicted, if and only if the model does not fit; the second plan finds room; as few extents go as the shortfall takes |
| Alternation.Take | benchmarks/alternate_paged.cc:382-419 | a turn after the first evicts exactly half the smaller model, all of it the other's |
| Alternation.Alternate | benchmarks/alternate_paged.cc:382-419 | over any number of rounds the first acquisition evicts nothing and every later one exactly half the smaller model, however candidates are ordered |
| SlotPool.SlotsApart | benchmarks/storage_bench.cc:101-109 | two slots share no byte, and each lies within the buffer |
| SlotPool.Pool.constructor | benchmarks/storage_bench.cc:86-98 | every slot is free at first |
| SlotPool.Pool.Start | benchmarks/storage_bench.cc:101-116 | a request goes to a slot nothing in flight uses, for the next block |
| SlotPool.Pool.Submit | benchmarks/storage_bench.cc:100-117 | requests are made until no slot is free, the file is requested or the storage refuses |
| SlotPool.Pool.Complete | benchmarks/storage_bench.cc:120-130 | a whole read frees its slot and counts its block; any other result fails the measurement and gives its slot up |
| SlotPool.Pool.Harvest | benchmarks/storage_bench.cc:118-131 | each completion is one block read or a failure |
| SlotPool.Pool.InStep | benchmarks/storage_bench.cc:99-133 | while no read failed the next offset is what is done and what is in flight, and the slots free and in flight are the slots |
| SlotPool.Pool.Measure | benchmarks/storage_bench.cc:99-144 | success means each block of the file was read once, nothing is in flight and every slot is free; a storage that makes progress ends it within as many rounds as blocks |
| SlotPool.Pool.Drain | benchmarks/storage_bench.cc:133-135 | nothing is left in flight |
| TaskPrograms.World.Pass | benchmarks/pagein_bench.cc:314-414 | what passes between steps: any stages of the same extents, nothing outstanding, a clock that has moved on |
| TaskPrograms.EvictProgram.constructor | benchmarks/pagein_bench.cc:333-335 | it starts at the first extent |
| TaskPrograms.EvictProgram.Advance | benchmarks/pagein_bench.cc:336-362 | every extent passed is no longer resident; it fails exactly on a failure taken or refused, yields only put off and with nothing outstanding, and succeeds only with all of them gone and nothing outstanding |
| TaskPrograms.RunEvict | benchmarks/pagein_bench.cc:336-362 | over a whole run, whatever happens short of a load, success means no extent listed is resident, and a run that ends otherwise took a failure or was refused |
| TaskPrograms.AdvanceLoad | benchmarks/pagein_bench.cc:314-326 | it succeeds only with the whole closure resident, and fails exactly on a failure taken or refused |
| TaskPrograms.RunLoad | benchmarks/pagein_bench.cc:314-326 | over a whole run, whatever is loaded, evicted or refused between its steps, success means the whole closure is resident and no failure came up, and a run that ends otherwise took a failure or was refused |
| TaskPrograms.DecodeProgram.constructor | benchmarks/pagein_bench.cc:374-382 | it starts with nothing submitted |
| TaskPrograms.DecodeProgram.Advance | benchmarks/pagein_bench.cc:383-414 | a step begins only with every weight resident; starts and ends alternate in time, never more than one job outstanding; it fails exactly on a failure taken or refused, and success means as many of each as steps |
| TaskPrograms.RunDecode | benchmarks/pagein_bench.cc:383-414 | over a whole run, whatever is loaded or evicted between its steps, no step overlaps another, success means exactly the steps asked for, and a run that ends otherwise took a failure or was refused |
| PatternCheck.Count | benchmarks/pagein_bench.cc:259-266 | a worker's count is the number of places from its eighth's start to its end where the word is off the pattern |
| PatternCheck.Check | benchmarks/pagein_bench.cc:253-272 | the sum is the number of places where the word is off the pattern, in whatever order the workers end |
| SwapContinuation.DecodedSplits | benchmarks/swap_runner.cc:474-488 | a run of steps cut anywhere is the uncut run, rows, tokens and state |
| SwapContinuation.DecodedFed | benchmarks/swap_runner.cc:474-488 | a run of steps feeds each token by itself at the next position to the state the step before left, and picks the next from its row; one that fails made some steps and was refused the next |
| SwapContinuation.PrefilledAtOnce | benchmarks/swap_runner.cc:461-472 | for an engine that chunks do not matter to, the prefill leaves the state and the row of the context at once, whatever rows a chunk may have |
| SwapContinuation.PrefilledPoured | benchmarks/swap_runner.cc:461-472 | the prefill pours the context in chunks of so many rows, the last one short, each at its place; one that fails was refused the next chunk |
| SwapContinuation.Swapper.constructor | benchmarks/swap_runner.cc:390-391 | the state is cleared at first |
| SwapContinuation.Swapper.Prefill | benchmarks/swap_runner.cc:461-472 | the chunks poured reach the context's end, and leave the last one's state and row |
| SwapContinuation.Swapper.Decode | benchmarks/swap_runner.cc:474-488 | the rows and tokens given are of steps fed one after another from the state there was to the state left |
| SwapContinuation.Swapper.Compare | benchmarks/swap_runner.cc:588-630 | the continuation after a swap, in its two parts, is found exact if and only if the whole of it, from the state brought back, is the control's rows and tokens |
| Spans.InOrderGood | src/engine/paged_node.cc:319-319 | sorting keeps the spans and orders them by base, apart if they were |
| Spans.ErasedApart | src/engine/paged_node.h:305-306 | erasing keeps the rest apart |
| Spans.Find | src/engine/paged_node.cc:329-333 | the last span that begins by an address |
| Spans.Covered | src/engine/paged_node.cc:321-349 | a class is given if and only if the range is not empty and every address of it lies in memory of that class the owner may use now |
| Relocation.ReserveWeights | benchmarks/exl3_runner.cc:123-162 | the groups lie one after another in whole chunks, and each chunk has an extent of its own |
| Relocation.Runner.constructor | benchmarks/exl3_runner.cc:123-162 | before any placement the spans are the others', apart, and the ranges that are not the weights' lie in resident memory of their class |
| Relocation.Runner.Place | benchmarks/exl3_runner.cc:174-215 | the spans are the others' and the weights' at the new place, apart and in order; refused, the place stays and the others' spans survive |
| Relocation.Runner.MapWeights | benchmarks/exl3_runner.cc:90-121 | each tensor's address is its group's region at the current place and its offset in the group |
| Relocation.Runner.ReadsOwn | benchmarks/exl3_runner.cc:90-121 | a byte of a tensor, read at the tensor's address, lies in the one span that holds the chunk its group has that byte in, as far into it as into the chunk |
| Relocation.Runner.NotStale | benchmarks/exl3_runner.cc:90-121 | before a phase each tensor's range lies in resident memory of the weights' class, within the current place |
| Relocation.Runner.Restore | benchmarks/exl3_runner.cc:995-1019 | a restore that succeeds leaves every weight resident and every address rewritten, at the other place exactly at every second evaluation asked to move; the other ranges stay where they are, resident |
| Relocation.Runner.CheckPhase | benchmarks/exl3_runner.cc:217-273 | the check by the spans finds no tensor and none of the program's other ranges out of place |
| Relocation.Runner.Run | benchmarks/exl3_runner.cc:995-1044 | through any sequence of restores and refusals no phase runs on a stale address, and the spans that are not the weights' stay |
| Relocation.PlacesAre | benchmarks/exl3_runner.cc:995-1019 | after any restores the weights are at the second place if an odd number of those were of even evaluations, and always at the first if they are not to move |
| Relocation.MovesEverySecond | benchmarks/exl3_runner.cc:640-665 | with one restore for each evaluation from the third on, the weights change place at every second one |
| TotalVariation.SameTotal | benchmarks/qwen38_spec.cc:1400-1409 | the totals do not depend on the order the tokens are gone through |
| TotalVariation.OneOrder | benchmarks/qwen38_spec.cc:1410-1417 | the order by frequency is one |
| TotalVariation.Frequent | benchmarks/qwen38_spec.cc:1400-1417 | the tokens of both modes, each once, the more frequent of the two counts together first, then the lower |
| TotalVariation.TopBounded | benchmarks/qwen38_spec.cc:1418-1431 | taking the others as one never adds to the distance, and no distance is below zero or over one |
| TotalVariation.TopMerged | benchmarks/qwen38_spec.cc:1418-1431 | the distance taken is the full total variation of the histograms with the others as one bin |
| TotalVariation.FullGreatest | benchmarks/qwen38_spec.cc:1418-1431 | the full total variation is the greatest difference the two make on any set of bins |
| TotalVariation.DistanceBounded | benchmarks/qwen38_spec.cc:1418-1437 | the distance reported is a number if and only if both modes have counts or neither lists a token; then it is between zero and one and never more than the full total variation, and otherwise passes every bound |
| TotalVariation.DistanceIs | benchmarks/qwen38_spec.cc:1400-1431 | so the distance reported is the greatest difference the two modes make on any set of the sixteen most frequent tokens and the rest |
| TotalVariation.ReportedIff | benchmarks/qwen38_spec.cc:1432-1437 | a bound is reported if and only if on some set of those bins the modes differ by more |
| TotalVariation.OneModeCounted | benchmarks/qwen38_spec.cc:1418-1437 | one token counted in one mode alone gives no number, and no bound is reported |
| TotalVariation.DistanceSymmetric | benchmarks/qwen38_spec.cc:1380-1431 | it is the same whichever mode's counts are the stored ones |
| TotalVariation.Variation | benchmarks/qwen38_spec.cc:1400-1431 | the loops order the tokens and give the total variation of the modes' shares in at most sixteen bins and one for the rest; a number if and only if both modes have counts or neither lists a token |
| Npy.Aligned | benchmarks/exl3_common.cc:66-70 | the data starts at a multiple of 64 bytes, the least that holds the text |
| Npy.RoundTrip | benchmarks/exl3_common.cc:66-79 | the data written is the data found (benchmarks/alternate_paged.cc:190-209), if and only if the header is shorter than 65,536 bytes |
| Npy.Lost | benchmarks/exl3_common.cc:71-79 | a dictionary of 65,536 bytes is written so that its data is not found again |
| Npy.VersionTwo | benchmarks/alternate_paged.cc:190-209 | the data of a file of version 2.0 is found, whatever the length of its header |

## Left out

- Device kernels, streams and graph capture beyond a queue of copies and events: foreign code.
- Logits, NLL values, near-tie margins and rates as floating point: a row is any value, a score any function of it, sampling
  weights and shares are reals. `NearTies` and `Teacher`, which only measure margins, are not modelled.
- A drafter or planner that fails is a run that fails; why it did is not modelled.
- Argument parsing, reports, file writing, timing, percentiles and memory samplers.
- `CancelInFlight`: what decides it is in the scheduler.
- Overflow of 64-bit sizes and offsets, except where `Normalization` and `Npy` state it: four times L2, ring bytes, file
  offsets and region sizes are taken as unbounded.
- LiveState.Runner.Chunk: the plan's own refusals and input staging are part of the outcome given.
- ScriptNormalization.AgreeIff: the script's digits are taken as ASCII.
- LiveState.SnapshotSuffices: a condition on the padding alone, and one way; `LiveState.SnapshotShortIff` is exact for any number
  of bytes, these among them.
- Checks.ForcedAndControl: the states compared are the target's; the drafter's caches, which are compared too, are not modelled.
- StagedLoading.LoadWeights: opening shards, allocating staging and event creation are taken to succeed.
- Alternation.Node.Acquire: its evictions and loads are one step each, so its second plan is its last and the limit of eight
  is not reached; the scheduler's busy and waiting turns are in `TaskPrograms`. The candidates' order is any.
- SlotPool.Pool.Measure: what a read leaves in its slot is not modelled, only that no other request writes there.
- TaskPrograms.RunEvict: no load runs beside an eviction, and an eviction that failed is the task's to take.
- Relocation.Runner.Restore: the count of released backings and the derived norms and tables are not modelled; the pinned
  norms' spans are among the others.
- Npy.RoundTrip: the header's dictionary is any bytes; its text is not parsed.
- TokenTable.Load: a digest is taken to tell right bytes from wrong ones. Uploads to the device are as in `StagedLoading`.
- SwapContinuation.Swapper.Compare: the swap itself is the state it brings back.
- Tokenizing, prompts, the image models and the serving runtime.
