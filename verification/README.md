# Verified model of Spexis

Spexis is a fork of vLLM that speculates inside a pipeline-parallel decoder: an
exit layer drafts the next token at once, the pipeline goes on with the draft,
and the target model's own result, N steps later, confirms or corrects it. This
project models the protocol that keeps the speculation invisible to the user,
and the request, sequence and output layer around it, and proves what they
promise over every run. `dafny verify dfyconfig.toml` checks all of it.

## What is modelled

**The speculative pipeline.** `SpeculativeRequest` is the bookkeeping of one
request: drafts, the verdict of the last verification, results still to be
flushed, and drops. `SpeculativePipeline` puts the request into the engine loop
with its N slots, the worker's record of the output tokens and the key/value
cache (one token per position). The target model is an arbitrary function from a
context to its greedy next token; drafts and scheduling decisions are arbitrary
inputs. `LosslessSpeculation` proves that the tokens sent to the user are those
of plain greedy decoding, ended by the same stop rule, whatever is drafted,
skipped, dropped, chunked or preempted, as long as no step is one of five harmful
ones; each is a condition on the state before the step, and each is proved to be
exactly when the invariant of the pipeline is lost. `SpeculationLimits` proves
progress, and what each of the five does to a request, with a reachable run.
`WorkerRecord` is the content of the worker's record of the output.
`ConfidenceDrop`, on the bucket sort of `BucketRanking`, is lookahead scheduling:
which requests stop speculating, and which of those the length-aware boost keeps.

**Sequences and outputs.** `SequenceData` is the token record and its replication
to a worker by deltas; `StopStrings` the text that is held back until a stop
string is ruled out; `RequestOutput` the deltas read from sequences and their
merge; `CachedOutput` the same reads into objects that are kept and overwritten;
`ParallelSampling` a request for n completions as n child requests.

**Containers, tables and algorithms.** `LruCache` is the pinned LRU cache,
`LruInclusion` its inclusion property, `LruStrayKeys` what a key without an entry
does to it; `AsyncMerge` the merge of asynchronous
iterators; `ScalarType` the largest finite value of a small float as the bits of
a double, and the packed type id; `GreedyBatching` the batcher of the throughput
benchmark; `BadWords` the bad-word mask; `CudaGraphTable` the padding table;
`HiddenStates` the scorer's hidden states beside their sequence ids.

Objects that the source updates in place are classes whose methods are proved
against functions on values; the theorems over whole runs are about these
functions.

## What is assumed of the surroundings

- The pipeline has at least two stages, and a result is ready when its slot is
  popped, as `step_with_spexis` assumes.
- A worker's sampled token is the target model's greedy token for the tokens in
  the key/value cache up to the last position of the batch.
- `SequenceData`: the scheduler sends a full copy when nothing is computed and a
  delta otherwise, computes only what it sent, appends a token only when nothing
  is uncomputed, and prompts are not empty; messages arrive in order.
- `LruCache`: cachetools.LRUCache is not part of this model. It is taken to keep
  one recency order over its keys, to move a key to the recent end when it is
  read or written, and to make room in `__setitem__` by calling `popitem`.
- `HiddenStates`: one sequence per group, so one id per row.
- `BadWords`: logits are reals or minus infinity, and the vocabulary has one
  size on all calls.
- `ConfidenceDrop`: the exit layer's confidences are reals from 0 to 1, and so are their products (`FurtherDraftsLowerConfidence`).

## Where the code does not do what its documentation says

- The speculation is documented as exact. Five steps break the invariant behind
  that, and no other does (`VerifyKeepsInvariant`, `ScheduleKeepsInvariant`). The
  runs given for the first three pass through a step in which a running request
  got no budget; such a step by itself is never harmful.
  1. The only draft of a request that is not dropped is corrected: the count of
     results to flush starts at 0, is only compared with 0 after it was
     decremented, and the request sends nothing any more; preempted, it counts
     drafts that were never answered as verified (`StuckExactlyOnLastDraft`,
     `StuckForever`, `OneSkippedStepSticks`, `PreemptionVerifiesUnansweredDrafts`).
  2. A rejected result is flushed before the correction was sent to the worker,
     whose record is longer than the output: flushing clears just_fixed, the
     correction is never sent, the next batch is taken for a partial one, and then
     the scheduler's assertion that there is a token to run fails
     (`LostCorrectionSilences`, `SilencedForever`, `SilencedRunsDry`,
     `SkippedCorrectionIsLost`).
  3. A correction is sent again, before any result was flushed, although a draft
     has been made since: the corrected token takes the place of the draft in the
     key/value cache, and a user receives a token that greedy decoding does not
     produce (`CorrectionSentTwiceSendsAnotherToken`).
  4. A resumed prefill ends short of the request's tokens, at or behind the end of
     the worker's record: the worker takes it for complete, and a token is sent
     twice (`MiscountedExactlyWhenShort`, `OneShortPrefillRepeatsAToken`).
  5. `drop_end` survives a preemption that is not at the request's own turn, so
     that the resumed request may be launched in the middle of a later drop, and a
     rejected token stays in its context (`RelaunchMiscountsTheDrop`,
     `LeftoverDropEndKeepsARejectedToken`).

  A request that is dropped when it has no draft in flight loses no token but
  waits for ever, unless it is preempted (`DropWaitsInVainExactlyWhen`,
  `InVainForever`, `OneSkippedStepAndADrop`).
- `_length_aware_boost` (spexis/spec_parallel/scheduler.py:677-688) is documented
  to resume where the drop selection stopped. The bucket index has already moved
  on by then, so it skips the rest of the bucket that was cut and the front of
  the next one; when the lowest bucket was cut, index -1 makes it look at requests
  that passed already. For every quota the flags are those of resuming exactly
  when none of the skipped requests qualifies (`BoostResumesExactlyWhen`). The
  drop is documented as lowest confidence first (spexis/config.py:2050-2052); that
  holds up to the width of a bucket, and exactly when it holds inside the bucket
  that is cut (`ChosenWithinOneWidth`, `LowestFirstExactlyWhen`).
- Returned text is documented never to contain a stop string
  (spexis/sampling_params.py:148-149). Below min_tokens nothing is searched, and a
  stop string that is completed there is returned (`UnsearchedStopIsDelivered`).
  Over the runs that complete none there it holds exactly when the first stop
  string of the list occurs in every other one (`StopFreeExactlyWhenNested`); and
  with such a list a run shows a stop string exactly when it completes one below
  min_tokens (`StopFreeExactlyWhenSearched`).
- An IEEE type with a single exponent bit has no finite value as large as the
  maximum that is reported (`MaxIsTheLargestFiniteValue`).
- Merging deltas duplicates logprobs when a sequence is first read before it has
  a token, because its own empty list is handed out (`ReadTwiceAndMerge`).
- Streaming with n > 1 may report up to n outputs as finished
  (`AsManyFinishedOutputs`). It reports one exactly when the first that is so
  marked belongs to the only child still pending (`OneFinishedOutputExactlyWhen`).
- `touch` of a key that is not cached puts a key without an entry into the order.
  From then on a put loops for ever whenever evicting the unpinned keys older than
  that key leaves too little room, also where younger keys could be evicted; and
  clear loops for ever while such a key is older than an entry
  (`PutHangsExactlyWhen`, `ClearEndsExactlyWhen`, `OrdinaryPutHangs`).
- Adding hidden states for an id that is still there makes pruning keep the old
  row (`PruneKeepsTheLatestExactlyWhenUnique`).

## Model

| member | source | states |
|---|---|---|
| SpeculativeRequest.Request.constructor | spexis/v1/request.py:20-107 | a fresh request has no output, no drafts, no verdict and no drop |
| SpeculativeRequest.Request.AppendDraft | spexis/spec_parallel/scheduler.py:871-877 | a draft and its confidence join the per-token lists, which stay aligned; a draft that would stop the request starts a drop that waits for every outstanding draft |
| SpeculativeRequest.Request.SpecConfidence | spexis/v1/request.py:130-136 | the loop multiplies the confidences of exactly the drafts not yet verified |
| SpeculativeRequest.FurtherDraftsLowerConfidence | spexis/v1/request.py:130-136 | the joint confidence is a probability, and a further draft can only lower it |
| SpeculativeRequest.Request.ReplaceLast | spexis/v1/request.py:184-186 | the last k entries of the output, of all tokens and of the confidences give way to one target token of confidence 1 |
| SpeculativeRequest.Request.VerifyOutputTokenId | spexis/v1/request.py:159-245 | the whole new state and the outcome code of verifying one target-model token: confirm, correct, flush, flush in a drop, end of a drop |
| LosslessSpeculation.GreedyTokens | spexis/v1/sample/sampler.py:82-83 | the reference: every token of plain greedy decoding is the model's choice for the prompt and the tokens before it |
| LosslessSpeculation.VerifyKeepsInvariant | spexis/spec_parallel/scheduler.py:969-1039 | verifying the oldest slot never fails, and keeps the pipeline invariant (stale results first, then one answer per draft, computed on exactly the tokens before it) if and only if it does not flush a correction that the worker still needs |
| LosslessSpeculation.LiveResultIsGreedy | spexis/spec_parallel/scheduler.py:1000-1021 | a live result is the greedy continuation of what the user has received, and it is sent and becomes verified whether the draft was right, wrong or the end of a drop |
| LosslessSpeculation.VerifyCorrected | spexis/v1/request.py:208-234 | after a correction the results of the rejected drafts, and no others, are flushed, and the position is taken back to right behind the verified tokens |
| LosslessSpeculation.SampledExactly | spexis/spec_parallel/gpu_model_runner.py:692-705 | the worker samples exactly for the batches that reach the end of its record, which is never longer than the output once a batch has arrived |
| LosslessSpeculation.LaunchedContext | spexis/spec_parallel/handle_inputbatch.py:165-190 | the key/value cache holds the request's own tokens after a batch if and only if the batch does not send a correction again in the place of a newer draft |
| LosslessSpeculation.LaunchedKeepsInvariant | spexis/v1/engine/core.py:345-370 | a harmless launch and its draft add exactly one answer, computed on all tokens of the request |
| LosslessSpeculation.HarmfulLosesInvariant | spexis/v1/engine/core.py:345-370 | each of the four harmful launches loses the invariant |
| LosslessSpeculation.PreemptKeepsInvariant | spexis/spec_parallel/scheduler.py:1095-1133 | a preemption, also in the middle of a correction, loses no verified token and leaves the correction to be sent later |
| LosslessSpeculation.AllowedCanSchedule | spexis/spec_parallel/scheduler.py:263-369 | no decision open to the scheduler fails on an index |
| LosslessSpeculation.SomeTokenIsOpen | spexis/spec_parallel/scheduler.py:288-343 | the scheduler's assertion that there is a token to run holds in every state of a harmless run: a running request has one and may run it unless it waits for its drop, a waiting one may run all of its tokens |
| LosslessSpeculation.ScheduleKeepsInvariant | spexis/spec_parallel/scheduler.py:388-465 | a decision (run, drop, skip, preempt) keeps the pipeline invariant if and only if it is not one of the four harmful launches |
| LosslessSpeculation.StepKeepsInvariant | spexis/v1/engine/core.py:315-374 | one harmless engine step raises no exception and keeps the invariant |
| LosslessSpeculation.SpeculationIsLossless | spexis/v1/engine/core.py:315-374 | over every run without a harmful step: no failure, the user has received exactly the greedy tokens, no stop was passed over, and the request is finished exactly at its first stop |
| LosslessSpeculation.EndsExactlyAtTheLimits | spexis/spec_parallel/stop_check.py:38-60 | over every harmless run: no token is sent beyond max_tokens or the model's length (the first is always sent) or behind EOS or a stop token, and the request is finished exactly when it has reached one of these |
| LosslessSpeculation.RunDropsEndingDrafts | spexis/spec_parallel/stop_check.py:21-35 | over every run: while a draft that would end the request is not verified, the request waits for a drop |
| LosslessSpeculation.FirstStopIsUnique | spexis/spec_parallel/stop_check.py:38-60 | greedy decoding has one first stop |
| LosslessSpeculation.OutputDoesNotDependOnSpeculation | spexis/v1/engine/core.py:315-374 | two finished harmless runs of one request send the same tokens, whatever their drafts, decisions and pipeline depths |
| SpeculationLimits.OldestDraftAdvances | spexis/v1/engine/core.py:330-343 | the answer to the oldest draft moves one slot per step, and the step that verifies it sends one greedy token |
| SpeculationLimits.DraftsWait | spexis/v1/engine/core.py:173-176 | in every state of a harmless run a request with drafts in flight has a result in flight that answers the oldest |
| SpeculationLimits.OldestDraftIsAnswered | spexis/v1/engine/core.py:173-176 | the oldest draft in flight turns into exactly one token for the user within N steps (later ones may be flushed) |
| SpeculationLimits.StuckExactlyOnLastDraft | spexis/v1/request.py:208-229 | a verification leaves the flush count past zero if and only if it corrects the only draft of a request that is not dropped |
| SpeculationLimits.StuckForever | spexis/v1/request.py:237-242 | a stuck request sends nothing and never finishes over any run without preemption |
| SpeculationLimits.PreemptionVerifiesUnansweredDrafts | spexis/spec_parallel/scheduler.py:1095-1133 | preempting a stuck request turns its unanswered drafts into verified tokens, unless it has none |
| SpeculationLimits.OneSkippedStepSticks | spexis/spec_parallel/scheduler.py:263-275 | for every target model and every draft that it rejects there is a run with one step without budget that gets stuck |
| SpeculationLimits.LostCorrectionSilences | spexis/v1/request.py:237-242 | flushing a correction that the worker still needs leaves its record longer than the output with nothing to cut it |
| SpeculationLimits.SilencedForever | spexis/spec_parallel/gpu_model_runner.py:692-705 | from then on nothing is sent and the request never finishes, whatever the scheduler does, preemptions included |
| SpeculationLimits.SilencedRunsDry | spexis/spec_parallel/scheduler.py:332-336 | and once it ran its last token no decision to run it is open: the scheduler's assertion fails |
| SpeculationLimits.SkippedCorrectionIsLost | spexis/v1/request.py:237-242 | for every target model, in three stages, a run with one skipped step right after a correction in which that happens |
| SpeculationLimits.CorrectionSentTwiceSendsAnotherToken | spexis/spec_parallel/scheduler.py:790-812 | for every target model that tells the contexts apart, in three stages, a run in which the user receives a token that greedy decoding does not produce |
| SpeculationLimits.DropWaitsInVainExactlyWhen | spexis/spec_parallel/scheduler.py:358-369 | a dropped request is left waiting for a result that will never come if and only if it has no draft in flight |
| SpeculationLimits.InVainForever | spexis/v1/request.py:188-206 | such a request sends nothing and never finishes over any run without preemption |
| SpeculationLimits.OneSkippedStepAndADrop | spexis/spec_parallel/scheduler.py:279-290 | for every target model a run with one step without budget that comes to it |
| SpeculationLimits.MiscountedExactlyWhenShort | spexis/spec_parallel/gpu_model_runner.py:692-705 | the worker takes a partial batch for a complete one, or the reverse, if and only if the batch ends short of the last token at or behind the end of its record |
| SpeculationLimits.OneShortPrefillRepeatsAToken | spexis/spec_parallel/gpu_model_runner.py:191-251 | for every target model that does not repeat its first token there is such a run in which the user receives it twice |
| SpeculationLimits.RelaunchMiscountsTheDrop | spexis/spec_parallel/scheduler.py:279-290 | relaunching a request in a drop leaves the drop count right if and only if the new draft is itself a stop |
| SpeculationLimits.LeftoverDropEndKeepsARejectedToken | spexis/spec_parallel/scheduler.py:1109-1131 | a run in which a drop_end left over by a preemption leaves a rejected stop token among the verified tokens, and the result behind it is taken for live |
| WorkerRecord.VerifyKeepsRecord | spexis/v1/request.py:188-245 | verifying keeps the worker's record equal to the output up to its newest token and a correction on its way, unless it flushes a correction that was not sent |
| WorkerRecord.UnsentCorrectionStays | spexis/v1/request.py:237-242 | a correction flushed unsent leaves a rejected token in a record of the right length, unless the two tokens are the same |
| WorkerRecord.ScheduleKeepsRecord | spexis/spec_parallel/gpu_model_runner.py:191-251 | every harmless decision that does not send a correction twice keeps it, whichever of the rules for the record applies |
| WorkerRecord.RecordFollowsTheOutput | spexis/spec_parallel/gpu_model_runner.py:191-251 | over every run that sends each correction once and before the next flush, the record is the output, but for its newest token and a correction on its way |
| ConfidenceDrop.Scheduler.FillBuckets | spexis/spec_parallel/scheduler.py:619-646 | the histogram holds, in batch order, exactly the requests that may be dropped, each in the bucket of its confidence |
| ConfidenceDrop.Scheduler.PassBest | spexis/spec_parallel/scheduler.py:648-669 | exactly the best-ranked requests pass, as many as the budget allows, and where the scan stopped |
| ConfidenceDrop.Scheduler.LengthAwareBoost | spexis/spec_parallel/scheduler.py:677-722 | exactly the first qualifying requests of the scan pass in addition |
| ConfidenceDrop.Scheduler.ApplyConfidenceDrop | spexis/spec_parallel/scheduler.py:606-675 | afterwards exactly the chosen and the boosted requests have confidence_passed set; without the boost, eligible ones only, as many as the drop ratio leaves |
| ConfidenceDrop.ChosenCount | spexis/spec_parallel/scheduler.py:619-634 | as many pass as the drop ratio leaves of the batch less the requests that must run a target token, or all eligible ones if they are fewer |
| BucketRanking.RankedMembers | spexis/spec_parallel/scheduler.py:624-646 | the ranking holds every eligible request and nothing else |
| BucketRanking.RankedOrder | spexis/spec_parallel/scheduler.py:648-669 | it is strictly ordered by bucket, high confidence first, and by batch position |
| ConfidenceDrop.ChosenAreTheBest | spexis/spec_parallel/scheduler.py:648-669 | if any eligible request is dropped, the number that the drop ratio leaves is used up and every request that passes ranks before it |
| ConfidenceDrop.ChosenWithinOneWidth | spexis/config.py:2050-2052 | no request passes that is more than one bucket width below one that is dropped |
| ConfidenceDrop.LowestFirstExactlyWhen | spexis/config.py:2050-2052 | the lowest confidences are dropped first if and only if that holds inside the bucket that is cut |
| BucketRanking.CutSplitsTheRanking | spexis/spec_parallel/scheduler.py:648-669 | tmp_idx and tmp_req_idx describe exactly the requests below the cut |
| BucketRanking.ScanMissesTheSkipped | spexis/spec_parallel/scheduler.py:690-703 | a dropped request is looked at by the boost exactly when it is not in the rest of the bucket that was cut or the front of the next one |
| ConfidenceDrop.BoostIsBounded | spexis/spec_parallel/scheduler.py:689-722 | the boost keeps at most its quota, and only qualifying requests |
| ConfidenceDrop.BoostResumesExactlyWhen | spexis/spec_parallel/scheduler.py:677-722 | for every quota the flags are those of a boost that resumes where the selection stopped if and only if the quota is zero or none of the requests it skips qualifies |
| ConfidenceDrop.ResumingKeepsAll | spexis/spec_parallel/scheduler.py:677-688 | with quota for all requests below the cut, resuming would keep every dropped request that qualifies |
| BucketRanking.ScanFromTheTopHasPassed | spexis/spec_parallel/scheduler.py:690-703 | when the lowest bucket was cut, the requests the boost looks at have all passed |
| SequenceData.SequenceRecord.AppendTokenId | spexis/sequence.py:291-295 | the token joins the output, the all-token cache and the unsent buffer, and its logprob the sum |
| SequenceData.SequenceRecord.UpdateNumComputedTokens | spexis/sequence.py:324-332 | fails exactly when more is reported than there is; the stage becomes decode exactly when all is computed |
| SequenceData.SequenceRecord.ResetStateForRecompute | spexis/sequence.py:341-348 | recompute forgets what was computed and what was unsent, and keeps every token |
| SequenceData.SequenceRecord.GetDeltaAndReset | spexis/sequence.py:368-374 | the delta carries exactly the unsent tokens, which are then sent |
| SequenceData.SequenceRecord.ApplyDelta | spexis/sequence.py:376-381 | the copy grows by the delta's tokens and takes over counts and stage |
| SequenceData.StepKeepsInvariant | spexis/core/scheduler.py:1555-1617 | every event of the link keeps accounting and replication |
| SequenceData.RecordHoldsTheHistory | spexis/sequence.py:291-348 | over every run: the output is exactly the tokens that were appended, in order, with the sum of their logprobs, and what is computed is the chunks since the last preemption |
| SequenceData.RunAccounts | spexis/sequence.py:597-606 | over every run: the cache is the prompt and all tokens appended, the chunks since the last reset sum to the computed count, and in decode the two ways to count new tokens agree at every step boundary |
| SequenceData.DeltasOnly | spexis/sequence.py:376-381 | a copy that receives deltas only ends with its output and their tokens, in order |
| SequenceData.RunReplicates | spexis/worker/worker.py:397-431 | over every run with preemptions: no delta meets a worker without a copy, and what the worker will have plus what is unsent is exactly what was appended |
| SequenceData.SendSynchronizes | spexis/core/scheduler.py:1555-1617 | after a send, the drained copy equals the scheduler's record in every field, and holds everything appended and computed so far |
| SequenceData.FullCopyThenDelta | spexis/sequence.py:341-348 | a full copy followed by a delta repeats no token if and only if the unsent buffer was empty |
| StopStrings.CheckStopStrings | spexis/engine/output_processor/stop_checker.py:93-130 | the loop reports the first match of the list in the window of the new text |
| StopStrings.FindInWindow | spexis/engine/output_processor/stop_checker.py:108-114 | the search window covers exactly the occurrences that end in the new text |
| StopStrings.NoMatch | spexis/engine/output_processor/stop_checker.py:93-130 | without a report no stop string ends in the new text |
| StopStrings.MatchFound | spexis/engine/output_processor/stop_checker.py:93-130 | a report is the first such occurrence of the first stop string that has one, with the cut right before or right behind it |
| StopStrings.StreamedText.GetOutputTextToReturn | spexis/sequence.py:486-503 | a delta continues the delivered text up to what may be shown; a cumulative read shows the same |
| StopStrings.StreamedText.MaybeStop | spexis/engine/output_processor/stop_checker.py:30-91 | a sequence below min_tokens is left alone; a stop token ends it and takes its text along unless asked not to; else it ends exactly on a stop string in the new text or a length limit, and only a stop string shortens the text |
| StopStrings.CutKeepsDelivered | spexis/sampling_params.py:359-362 | with the longest stop string less one character held back, no match reaches back into delivered text |
| StopStrings.BufferLength | spexis/sampling_params.py:359-362 | the hold-back is exactly one character less than the longest stop string, and nothing without stop strings or when they are kept |
| StopStrings.ShorterHoldBackRetracts | spexis/sampling_params.py:359-362 | with a shorter hold-back a reader would see a character of a stop string that is then taken back |
| StopStrings.UnfinishedTextIsEveryChunk | spexis/sequence.py:486-503 | over every run, the text of a sequence that has not finished is every chunk of it |
| StopStrings.DeltasAddUpToTheText | spexis/sequence.py:486-503 | over every run of chunks and polls the delivered text is a prefix of the text, never retracted, and is all of it after the final poll |
| StopStrings.StopEndsTheTextAtTheMatch | spexis/engine/output_processor/stop_checker.py:72-86 | a match ends the text exactly before its first (or behind its last) character and never short of what was delivered |
| StopStrings.NestedStopsKeepStopFree | spexis/engine/output_processor/stop_checker.py:93-130 | when the first stop string occurs in every other, a searched chunk leaves none of them in the text |
| StopStrings.CrossedStopsLeak | spexis/engine/output_processor/stop_checker.py:93-130 | when it does not occur in one of them, a run of one searched chunk ends with that one in the text |
| StopStrings.StopFreeExactlyWhenSearched | spexis/engine/output_processor/stop_checker.py:43-46 | with such a list, a run shows a stop string at some point if and only if one is completed while the sequence is below min_tokens |
| StopStrings.StopFreeExactlyWhenNested | spexis/sampling_params.py:148-149 | over all runs that complete no stop string below min_tokens, the documented promise holds if and only if the first stop string occurs in every other |
| StopStrings.UnsearchedStopIsDelivered | spexis/engine/output_processor/stop_checker.py:43-46 | for every single stop string a run that completes it below min_tokens, ends at its length and delivers it |
| RequestOutput.Output.Add | spexis/outputs.py:137-159 | the nested loops compute the merge, field by field, and fail where the source does |
| RequestOutput.MergeKeepsIndicesDistinct | spexis/outputs.py:137-159 | merging keeps completion indices distinct |
| RequestOutput.MergeNumbered | spexis/outputs.py:142-159 | merging completions numbered alike extends each by its counterpart |
| RequestOutput.SequenceGroup.FromSeqGroup | spexis/outputs.py:161-310 | nothing exactly while a FINAL_ONLY request has an unfinished sequence; else one numbered completion for each sequence, marked finished exactly when all are, which unless deltas are asked for carries all tokens, logprobs and reasons, and all text once finished; and every cursor advances |
| RequestOutput.SequencesHoldWhatWasGenerated | spexis/sequence.py:559-563 | over every run each sequence holds exactly the tokens, logprobs and text generated for it until it finished, and the reasons of what finished it |
| RequestOutput.ReadKeepsInvariant | spexis/sequence.py:486-527 | reading and merging keeps, per sequence, the merge equal to what the cursors have passed |
| RequestOutput.MergedDeltasAreTheCumulativeOutput | spexis/outputs.py:137-159 | over every interleaving of generated tokens and delta reads, the merge of all deltas is field by field what one cumulative read gives |
| CachedOutput.CachedCompletion.Refill | spexis/outputs.py:237-266 | rewriting the cached completion in place gives what a fresh one would hold, and never touches the sequence's own token list |
| CachedOutput.ReadAll | spexis/outputs.py:208-277 | the loop over the sequences grows the cached list, finds completion i at index i, refills it, and keeps all token lists apart |
| CachedOutput.CachedGroup.FromSeqGroup | spexis/outputs.py:189-312 | the same through the cache: the one cached object with what fresh objects would hold, its completions reused, and no list of a sequence changed; None, under the same condition, leaves everything as it was |
| CachedOutput.ServeBoth | spexis/outputs.py:161-312 | over any run of growing sequences and reads with one output kind, every cached read is field by field the uncached one |
| RequestOutput.DeltaLogprobs | spexis/outputs.py:221-231 | an empty list of logprobs is handed out itself, not copied |
| RequestOutput.ReadTwiceAndMerge | spexis/outputs.py:221-231 | merged logprobs are right if and only if the first delta found a token or nothing came later |
| ParallelSampling.SamplingParams.PostInit | spexis/sampling_params.py:316-330 | best_of becomes the number generated and n the number returned, once; fails exactly when best_of is smaller |
| ParallelSampling.SortByLogprob | spexis/sequence.py:1488-1495 | sorting by cumulative logprob permutes the sequences |
| ParallelSampling.SortIsRanked | spexis/sequence.py:1488-1495 | it ranks them best first, stably |
| ParallelSampling.TopNAreTheBest | spexis/sequence.py:1488-1495 | exactly min(n, k) are kept, each at least as good as every dropped one |
| ParallelSampling.ParallelSampleGroup.FinishSeq | spexis/sequence.py:1407-1411 | a finished child moves from one dict to the other |
| ParallelSampling.ParallelSampleGroup.MaybeAssembleGroup | spexis/sequence.py:1465-1499 | when the group is returned, streaming or not |
| ParallelSampling.ParallelSampleGroup.FromSeqGroup | spexis/outputs.py:165-187 | one read of a child: the dicts, the cursors and the output |
| ParallelSampling.PollKeepsPartition | spexis/sequence.py:1407-1411 | to_be_finished and finished_reqs always partition the children |
| ParallelSampling.ChildrenHoldWhatWasGenerated | spexis/sequence.py:559-563 | over every run each child holds exactly the tokens generated for it, and the sum of their logprobs |
| ParallelSampling.StreamingDeliversEverything | spexis/sequence.py:1471-1475 | for every interleaving each token generated for a child is delivered once, in order, and all by the last child's final read |
| ParallelSampling.OneOutputWhenAllAreFinished | spexis/sequence.py:1480-1499 | without streaming, for every order of finishing, exactly one output, at the last child, finished: with _real_n that many children, each once with all its tokens, best first, none left out being better; else all of them in order |
| ParallelSampling.OneFinishedOutputExactlyWhen | spexis/outputs.py:165-177 | over every streaming run that reads all children to their end some output is marked finished, and exactly one if and only if the first so marked is put out for the only child still pending |
| ParallelSampling.AsManyFinishedOutputs | spexis/outputs.py:165-177 | n children that finish before any is read yield n outputs marked finished, from the start of the request |
| LruCache.LRUCache.constructor | spexis/utils.py:242-250 | a new cache is empty and consistent |
| LruCache.LRUCache.DelItem | spexis/utils.py:252-260 | removing a key unpins it and calls the hook once with its value; a missing key changes nothing |
| LruCache.LRUCache.Touch | spexis/utils.py:277-278 | the key moves to the recent end |
| LruCache.LRUCache.Get | spexis/utils.py:288-302 | a hit returns the value, moves the key and counts; a miss only counts |
| LruCache.LRUCache.Pop | spexis/utils.py:312-322 | returns and removes, or changes nothing |
| LruCache.LRUCache.Put | spexis/utils.py:324-325 | the loop of evictions and the store compute the insertion, and consistency is kept |
| LruCache.LRUCache.Pin | spexis/utils.py:327-334 | pins exactly the resident keys |
| LruCache.LRUCache.RemoveOldest | spexis/utils.py:346-350 | removes what popitem removes, if anything is there |
| LruCache.LRUCache.Clear | spexis/utils.py:356-358 | the loop ends with every key removed, oldest first |
| LruCache.LRUCache.PopItem | spexis/utils.py:360-373 | removes and returns the oldest key, or the oldest unpinned one |
| LruCache.RemoveKeepsValid | spexis/utils.py:252-260 | removing keeps the cache consistent and unpins |
| LruCache.RemoveAllMeaning | spexis/utils.py:252-260 | removing several keys hands exactly these to the hook, once each and in order, and touches no other |
| LruCache.MakeRoomEvictsOldestUnpinned | spexis/utils.py:360-373 | making room removes the oldest unpinned keys and no other |
| LruCache.MakeRoomEvictsNoMoreThanNeeded | spexis/utils.py:360-373 | and stops as soon as there is room |
| LruCache.MakeRoomFailsOnPins | spexis/utils.py:363-369 | it ends, and fails if and only if the pinned keys alone leave too little room |
| LruCache.InsertFailsExactlyWhen | spexis/utils.py:324-325 | put fails exactly when the value is too large or room is needed and pins leave too little; it never evicts a pinned key |
| LruCache.InsertEvictsTheOldestUnpinned | spexis/utils.py:324-325 | put evicts the least number of oldest unpinned keys, each handed to the hook once; every other entry keeps its value and place |
| LruCache.RunIsConsistent | spexis/utils.py:252-373 | over every run: size within capacity, pins resident, one order over the keys, and one call of the hook for each time a key left |
| LruCache.ResidentValueIsTheLastStored | spexis/utils.py:288-325 | over every run the value of a resident key is that of the last put that stored it |
| LruCache.ClearEmpties | spexis/utils.py:356-358 | clear hands every entry to the hook, oldest first, and leaves neither keys nor pins |
| LruStrayKeys.MakeRoomEndsExactly | spexis/utils.py:360-373 | for every cache, also with keys that have no entry: making room ends with room, with the RuntimeError, or not at all, by what evicting the unpinned keys older than the first such key leaves |
| LruStrayKeys.PutHangsExactlyWhen | spexis/utils.py:324-325 | put never ends exactly when it needs room and those evictions leave too little |
| LruStrayKeys.ClearEndsExactlyWhen | spexis/utils.py:356-358 | clear ends exactly when no key without an entry is older than an entry |
| LruStrayKeys.HangsInAnyRun | spexis/utils.py:252-373 | both conditions after any run of operations, touches of missing keys included |
| LruStrayKeys.OrdinaryPutHangs | spexis/utils.py:277-278 | two puts, a touch of a missing key and two more puts, after which a put of a value that could be stored never ends, nor does clear; without the touch both end |
| LruStrayKeys.TouchOfMissingKeyHangs | spexis/utils.py:277-278 | right after the touch, making room runs for ever exactly where it would have failed before |
| LruInclusion.InsertNewKeepsOrdered | spexis/utils.py:324-325 | inserting a key that both lack evicts so that the smaller order stays part of the larger |
| LruInclusion.UseKeepsOrdered | spexis/utils.py:288-302 | a hit in the larger cache keeps the inclusion, also when it is a miss in the smaller |
| LruInclusion.StepKeepsIncluded | spexis/utils.py:288-325 | one put, get, pop or touch keeps the smaller cache inside the larger |
| LruInclusion.SmallerCacheIsIncluded | spexis/utils.py:288-325 | on every trace with unit sizes and no pins, the smaller cache holds a subset of the larger, with the same values and relative order |
| AsyncMerge.HandleKeepsInvariant | spexis/utils.py:484-490 | handling one completed task keeps one outstanding task per live iterator and every yielded projection a prefix |
| AsyncMerge.HandleMakesProgress | spexis/utils.py:484-490 | it uses up one item or one end, and no other outstanding task |
| AsyncMerge.HandleAllKeepsInvariant | spexis/utils.py:479-490 | so does handling all tasks of one wait, in any order |
| AsyncMerge.MergeIsFaithful | spexis/utils.py:479-490 | for every choice of completed tasks: per iterator the items in order, none lost or repeated, and the loop ends |
| AsyncMerge.FastPathAgrees | spexis/utils.py:469-473 | the single-iterator path yields what the general path yields |
| AsyncMerge.Merger.HandleDone | spexis/utils.py:484-490 | the body of the loop over the dict of outstanding tasks |
| AsyncMerge.Merger.Merge | spexis/utils.py:479-490 | the whole loop, with arbitrary waits, ends with every item yielded |
| ScalarType.OrDisjoint | spexis/scalar_type.py:99-102 | joining fields by shift and or is their sum |
| ScalarType.MaxIntFields | spexis/scalar_type.py:69-102 | the fields of the double that is built |
| ScalarType.MaxIsTheLargestFiniteValue | spexis/scalar_type.py:69-106 | for every format the bits decode to a value at least every finite encoding, which is attained unless the type is IEEE with one exponent bit (section 3.4 of IEEE 754-2019) |
| ScalarType.OneExponentBit | spexis/scalar_type.py:69-102 | that exception, with the value nothing attains |
| ScalarType.MinIsTheNegation | spexis/scalar_type.py:116-124 | setting the sign bit negates the value and keeps it finite |
| ScalarType.DoubleMaxAndMin | spexis/scalar_type.py:104-124 | both, for the double format |
| ScalarType.IntegerRange | spexis/scalar_type.py:108-179 | an integer lies between min and max exactly when some stored value stands for it |
| ScalarType.IdBuilder.OrAndAdvance | spexis/scalar_type.py:144-148 | one field is appended above the others |
| ScalarType.Id | spexis/scalar_type.py:134-161 | the id packs the six members and is below 2^58 |
| ScalarType.PackBelow | spexis/scalar_type.py:144-161 | packed fields stay below the sum of their widths |
| ScalarType.PackField | spexis/scalar_type.py:144-161 | every field can be read back from the packed number |
| ScalarType.IdLayout | spexis/scalar_type.py:134-161 | where each of the six members is in the id, and in how many bits |
| ScalarType.IdIsInjective | spexis/scalar_type.py:134-161 | two types with members in range have the same id only if they are the same, signed bias included |
| GreedyBatching.RunHf | benchmarks/benchmark_throughput.py:212-252 | the loop computes the greedy batches |
| GreedyBatching.FeasibleMeaning | benchmarks/benchmark_throughput.py:221-228 | a batch is within the limits exactly when it is small enough and every prompt with every output of it fits into 2048 tokens, or it is a single request |
| GreedyBatching.GreedyFromIsPacking | benchmarks/benchmark_throughput.py:212-252 | the batches are the requests in order, each within the limits |
| GreedyBatching.GreedyFromIsOptimal | benchmarks/benchmark_throughput.py:221-228 | from any open batch, no packing of the rest needs fewer batches |
| GreedyBatching.GreedyBatchingIsOptimal | benchmarks/benchmark_throughput.py:212-252 | no in-order packing within the limits uses fewer batches |
| BadWords.BadWordsIds | spexis/logits_process.py:19-47 | the forbidden token sequences are exactly the plain encodings and the spaced ones that are other words of the same length; fails exactly on an empty encoding |
| BadWords.NoBadWordsLogitsProcessor.CheckTokenIdsBounds | spexis/logits_process.py:107-121 | accepts exactly the words within the vocabulary |
| BadWords.NoBadWordsLogitsProcessor.InitWordBias | spexis/logits_process.py:90-105 | the bias marks exactly the one-token words |
| BadWords.NoBadWordsLogitsProcessor.LastTokenBias | spexis/logits_process.py:66-84 | marks exactly the tokens that complete a longer word |
| BadWords.NoBadWordsLogitsProcessor.Call | spexis/logits_process.py:58-88 | minus infinity exactly for the tokens that would end a bad word, every other logit unchanged; and exactly when it fails |
| BadWords.EndsBadlyByParts | spexis/logits_process.py:58-88 | the two biases together are the one rule |
| BadWords.GenerationsAreSafe | spexis/sampling_params.py:153-156 | no generation that picks unmasked tokens contains a bad word as a block |
| BadWords.ExactlySafeSequencesAreGenerated | spexis/sampling_params.py:153-156 | with finite logits the sequences that can be generated are exactly those without a bad word |
| BadWords.BadWordsAreNeverGenerated | spexis/logits_process.py:19-47 | from the words of the request: their encodings never occur in the output |
| CudaGraphTable.SortMeaning | spexis/config.py:3652-3653 | the list is sorted in descending order with the same members |
| CudaGraphTable.CompilationConfig.InitWithCudagraphSizes | spexis/config.py:3622-3669 | whichever list is used, entry b is the least capture size at least b |
| CudaGraphTable.FillTable | spexis/config.py:3657-3669 | the nested loops fill the array so |
| CudaGraphTable.CompilationConfig.PadForCudagraph | spexis/config.py:3808-3813 | the padded size is the least capture size that fits; an IndexError exactly when none does |
| CudaGraphTable.PaddingIsMonotoneAndIdempotent | spexis/config.py:3657-3669 | padding grows with the batch and is idempotent |
| CudaGraphTable.DefaultPaddingIsSmall | spexis/config.py:3997-4025 | with the default sizes padding adds at most 7 and less than doubles the batch |
| CudaGraphTable.V0TableCoversTheScheduler | spexis/config.py:3989-4014 | every batch up to max_num_seqs has an entry if and only if max_num_seqs is at most 8192 |
| CudaGraphTable.V1TableCoversTheBudget | spexis/config.py:4015-4025 | every batch up to the token budget has an entry if and only if the budget is a default size; the table falls short by at most 7, or ends at 512 |
| HiddenStates.HiddenStates.constructor | spexis/sequence.py:1232-1235 | one id per row |
| HiddenStates.HiddenStates.Update | spexis/sequence.py:1241-1258 | rows and ids are appended, zeros where no second-last row is given |
| HiddenStates.HiddenStates.Prune | spexis/sequence.py:1260-1276 | the rows of exactly the given ids, in their order; fails on an unknown id |
| HiddenStates.HiddenStates.ExpandWithBonusTokens | spexis/sequence.py:1278-1294 | the loop picks the rows of the expansion |
| HiddenStates.RowsStayAligned | spexis/sequence.py:1241-1276 | after every run of updates and prunes row k is the latest recorded for id k |
| HiddenStates.PruneKeepsTheLatestExactlyWhenUnique | spexis/sequence.py:1260-1276 | pruning keeps the latest row of an id if and only if the id occurs once |
| HiddenStates.ExpansionInterleaves | spexis/sequence.py:1278-1294 | in the order of the ids the latest row of each, right before it the second-last row for exactly the bonus ids, and nothing else |

## Left out

- SpeculationIsLossless: stated for runs without one of the five harmful steps; SpeculationLimits has, for each of them, a run in which a request then sends a wrong token, sends one twice, keeps a rejected one or sends nothing more.
- RelaunchMiscountsTheDrop: what a relaunch in a drop does to the count; the run that keeps a rejected token is LeftoverDropEndKeepsARejectedToken.
- RecordFollowsTheOutput: the content of the worker's record is stated for runs that send each correction once and before the next flush; losslessness needs only its length.
- RequestOutput.DeltaLogprobs: shows the aliasing of an empty list on objects; the theorems on runs are on values and assume that the first delta carries a token when logprobs are wanted.
- The scheduler's choice of which requests to run, its token budget and its order: any choice it can take is an input of a step.
- Several requests at once, except in the confidence drop: requests share the pipeline slots but no state that is modelled.
- The value that the confidence drop returns for the iteration log, and floating-point rounding of confidences and bucket bounds.
- The projection of future memory use that delays prefills, the length predictor and the exit-layer models.
- KV blocks, prefix caching, encoder inputs, multimodal data, LoRA, structured output, and aborting a request from outside.
- The scheduler without speculation (update_from_output in spexis/v1/core/sched/scheduler.py).
- The setter of output_token_ids in SequenceData, which bypasses the unsent buffer.
- Prompt tokens and prompt logprobs in outputs, cached-token counts, metrics and timing.
- Cancelling the remaining tasks when the merge of iterators is abandoned, and exceptions of the iterators.
- `_remove_old_if_needed` and the read-only views of the cache; put, remove_oldest and clear as methods on a cache whose order holds keys without an entry, where they may not end (LruStrayKeys says when).
- ScalarType.is_ieee_754, has_nans and the text form of a type; converting the bits to a Python float.
- The compile sizes of the compilation config, and negative batch sizes, which Python counts from the end of the table.
- Generation itself in the throughput benchmark.
- Tokenizers, which are arbitrary functions in BadWords; the prompt, which is not part of the tokens the mask looks at.
- Sampling parameters other than n, best_of, stop and its hold-back; validation of parameters, environment variables and logging.
- Hidden states built without sequence metadata, which have rows but no ids.
- Embedding, classification and scoring outputs.
