/**
 The worker's record of a request's output tokens (req_state.output_token_ids in
 spexis/spec_parallel/gpu_model_runner.py): what the corrections sent to it keep
 equal to the scheduler's own tokens.
 */
module WorkerRecord {
  import opened Options
  import opened SpeculativeRequest
  import opened SpeculativePipeline
  import opened LosslessSpeculation

  predicate AgreesBefore(mirror: seq<Token>, output: seq<Token>, i: int) {
    0 <= i <= |mirror| && i <= |output| && mirror[..i] == output[..i]
  }

  /** The record is the output, but for at most its newest token; where a correction
      is still to be sent, it is the output up to the corrected token. */
  ghost predicate RecordOk(e: Engine) {
    var r := e.request;
    e.phase.Finished? || (
      if e.isNew then e.mirror == []
      else if e.postFix.Some? then
        r.spLen == 0 && e.postFix.value == |r.output| - 1 && AgreesBefore(e.mirror, r.output, e.postFix.value)
      else if FixPending(r) then AgreesBefore(e.mirror, r.output, |r.output| - 1)
      else
        && |r.output| - 1 <= |e.mirror| <= |r.output| && e.mirror == r.output[..|e.mirror|]
        && (r.spLen > 0 ==> |e.mirror| == |r.output| - 1))
  }

  /** A stale result is about to be flushed before the correction was sent. */
  predicate FlushesUnsent(e: Engine) {
    && !e.phase.Finished? && e.slots != [] && e.slots[0].HasToken()
    && FixPending(e.request) && e.postFix.None?
  }

  /** A decision that would send, or remember, a correction that was sent already. */
  predicate RepeatsCorrection(e: Engine, choice: Choice) {
    var r := e.request;
    && (choice.Run? || choice.Preempt? || e.phase.Draining?) && !e.phase.Finished?
    && r.Wrong() && r.check.justFixed && r.spLen > 0
  }

  lemma ConfirmedRecord(g: Model, rule: StopRule, stages: nat, e: Engine)
    requires stages >= 2 && Inv(g, rule, stages, e) && RecordOk(e) && CanVerify(e)
    requires !e.phase.Finished? && e.slots[0].HasToken() && !e.request.Wrong() && e.request.spLen > 0
    requires Verify(e.request, e.slots[0].result.value).1.Confirmed?
    ensures RecordOk(VerifyOldest(rule, e))
  {
  }

  lemma ReplacedTail(output: seq<Token>, mirror: seq<Token>, k: nat, x: Token)
    requires 1 <= k <= |output| && |mirror| == |output| - 1 && mirror == output[..|mirror|]
    ensures AgreesBefore(mirror, ReplaceTail(output, k, x), |output| - k)
    ensures |ReplaceTail(output, k, x)| == |output| - k + 1
  {
  }

  lemma ReplacedRecord(g: Model, rule: StopRule, stages: nat, e: Engine)
    requires stages >= 2 && Inv(g, rule, stages, e) && RecordOk(e) && CanVerify(e)
    requires !e.phase.Finished? && e.slots[0].HasToken() && !e.request.Wrong() && e.request.spLen > 0
    requires !Verify(e.request, e.slots[0].result.value).1.Confirmed?
    ensures RecordOk(VerifyOldest(rule, e))
  {
    ReplacedTail(e.request.output, e.mirror, e.request.spLen, e.slots[0].result.value);
  }

  /** Verifying keeps the record, unless it flushes a correction that was not sent. */
  lemma VerifyKeepsRecord(g: Model, rule: StopRule, stages: nat, e: Engine)
    requires stages >= 2 && Inv(g, rule, stages, e) && RecordOk(e) && !FlushesUnsent(e)
    ensures CanVerify(e) && RecordOk(VerifyOldest(rule, e))
  {
    VerifyKeepsInvariant(g, rule, stages, e);
    if !e.phase.Finished? && e.slots[0].HasToken() && !e.request.Wrong() {
      LiveResultIsGreedy(g, rule, stages, e);
      if Verify(e.request, e.slots[0].result.value).1.Confirmed? {
        ConfirmedRecord(g, rule, stages, e);
      } else {
        ReplacedRecord(g, rule, stages, e);
      }
    }
  }

  /** A correction that is flushed unsent, though its record has the right length,
      leaves the rejected draft in it. */
  lemma UnsentCorrectionStays(g: Model, rule: StopRule, stages: nat, e: Engine)
    requires stages >= 2 && Inv(g, rule, stages, e) && RecordOk(e) && FlushesUnsent(e) && !LosesCorrection(e)
    ensures CanVerify(e)
    ensures var m := VerifyOldest(rule, e); var last := |e.request.output| - 1;
      RecordOk(m) <==> |e.mirror| == last || e.mirror[last] == e.request.output[last]
  {
    VerifyKeepsInvariant(g, rule, stages, e);
    ResultInFront(g, e);
    var last := |e.request.output| - 1;
    if |e.mirror| > last {
      assert e.mirror == e.mirror[..last] + [e.mirror[last]];
      assert e.request.output == e.request.output[..last] + [e.request.output[last]];
    }
  }

  lemma OverwriteCompletes(mirror: seq<Token>, output: seq<Token>)
    requires output != [] && AgreesBefore(mirror, output, |output| - 1)
    ensures Overwrite(mirror, output, |output| - 1) == output
  {
    assert output == output[..|output| - 1] + [output[|output| - 1]];
  }

  /** The worker's own rule: append what the record lacks. */
  function Appended(prompt: seq<Token>, output: seq<Token>, mirror: seq<Token>, from: nat, n: nat): seq<Token>
    requires from + n <= |prompt + output|
  {
    var sent := (prompt + output)[from..from + n];
    var missing := from + n - (|prompt| + |mirror|);
    if missing <= 0 then mirror else mirror + (if missing < n then sent[n - missing..] else sent)
  }

  lemma AppendCompletes(prompt: seq<Token>, output: seq<Token>, mirror: seq<Token>, from: nat, n: nat)
    requires |output| - 1 <= |mirror| <= |output| && mirror == output[..|mirror|]
    requires n >= 1 && from + n <= |prompt + output|
    ensures var m := Appended(prompt, output, mirror, from, n);
      && |mirror| <= |m| <= |output| && m == output[..|m|]
      && (from + n == |prompt + output| ==> m == output)
  {
    var missing, sent := from + n - (|prompt| + |mirror|), (prompt + output)[from..from + n];
    if missing > 0 {
      var last := output[|output| - 1];
      assert missing == 1 && sent[n - 1] == last && sent[n - 1..] == [last];
      assert mirror + [last] == output;
    }
    assert output[..|output|] == output;
  }

  lemma SyncIsAppend(e: Engine, n: nat)
    requires InRange(e.request, n) && !e.isNew && e.postFix.None? && !FixToSend(e)
    ensures var r := e.request; SyncMirror(e, n) == Appended(r.prompt, r.output, e.mirror, r.numComputed, n)
  {
  }

  /** A correction that the next batch sends is one that was not sent yet. */
  lemma SentMeansPending(g: Model, rule: StopRule, stages: nat, e: Engine, n: nat, draft: Token)
    requires MidInv(g, rule, stages, e) && CanSchedule(e, Run(n)) && FixToSend(Admit(e)) && Admit(e).postFix.None?
    requires !Harmful(rule, e, Run(n), draft) && !RepeatsCorrection(e, Run(n))
    ensures e.phase.Running? && FixPending(e.request) && Admit(e) == e
    ensures e.request.check.fixedIdx == |e.request.output| - 1
  {
  }

  lemma SyncedByCorrection(g: Model, rule: StopRule, stages: nat, e: Engine, n: nat, draft: Token)
    requires MidInv(g, rule, stages, e) && RecordOk(e) && CanSchedule(e, Run(n))
    requires !Harmful(rule, e, Run(n), draft) && !RepeatsCorrection(e, Run(n))
    requires !e.isNew && (e.postFix.Some? || FixToSend(Admit(e)))
    ensures SyncMirror(Admit(e), n) == e.request.output
  {
    if e.postFix.None? {
      SentMeansPending(g, rule, stages, e, n, draft);
    }
    OverwriteCompletes(e.mirror, e.request.output);
  }

  /** How the next batch finds the record: equal to the output, but for at most its
      newest token, and that only if the batch ends before it. */
  predicate Synced(r: RequestState, n: nat, m: seq<Token>) {
    && |r.output| - 1 <= |m| <= |r.output| && m == r.output[..|m|]
    && (r.numComputed + n == r.NumTokens() ==> m == r.output)
  }


  lemma SyncedRecord(g: Model, rule: StopRule, stages: nat, e: Engine, n: nat, draft: Token)
    requires MidInv(g, rule, stages, e) && RecordOk(e) && CanSchedule(e, Run(n))
    requires !Harmful(rule, e, Run(n), draft) && !RepeatsCorrection(e, Run(n))
    ensures Synced(Admit(e).request, n, SyncMirror(Admit(e), n))
  {
    if e.isNew {
      SyncedWhenNew(g, rule, stages, e, n);
    } else if e.postFix.Some? || FixToSend(Admit(e)) {
      SyncedByCorrection(g, rule, stages, e, n, draft);
      WholeIsSynced(Admit(e).request, n);
    } else {
      SyncedByAppend(g, rule, stages, e, n);
    }
  }

  lemma WholeIsSynced(r: RequestState, n: nat)
    ensures Synced(r, n, r.output)
  {
    assert r.output[..|r.output|] == r.output;
  }

  lemma SyncedWhenNew(g: Model, rule: StopRule, stages: nat, e: Engine, n: nat)
    requires MidInv(g, rule, stages, e) && CanSchedule(e, Run(n)) && e.isNew
    ensures Synced(Admit(e).request, n, SyncMirror(Admit(e), n))
  {
    assert !e.phase.Finished? ==> e.request.output == [];
  }

  lemma SyncedByAppend(g: Model, rule: StopRule, stages: nat, e: Engine, n: nat)
    requires MidInv(g, rule, stages, e) && RecordOk(e) && CanSchedule(e, Run(n))
    requires !e.isNew && e.postFix.None? && !FixToSend(Admit(e))
    ensures Synced(Admit(e).request, n, SyncMirror(Admit(e), n))
  {
    var r := Admit(e).request;
    SyncIsAppend(Admit(e), n);
    AppendCompletes(r.prompt, r.output, e.mirror, r.numComputed, n);
  }

  lemma RunKeepsRecord(g: Model, rule: StopRule, stages: nat, e: Engine, n: nat, draft: Token)
    requires MidInv(g, rule, stages, e) && RecordOk(e) && CanSchedule(e, Run(n))
    requires !Harmful(rule, e, Run(n), draft) && !RepeatsCorrection(e, Run(n))
    ensures RecordOk(Schedule(g, rule, e, Run(n), draft))
  {
    var a, e' := Admit(e), Schedule(g, rule, e, Run(n), draft);
    SyncedRecord(g, rule, stages, e, n, draft);
    if Sampled(a, n) {
      LaunchedShape(g, rule, a, n, draft);
      LaunchedOnAllTokens(g, rule, stages, e, n, draft, e');
      assert e'.request.output[..|a.request.output|] == a.request.output;
    } else {
      PartialShape(g, rule, a, n, draft);
      PartialIsPrefill(g, rule, stages, e, n, draft);
    }
  }

  lemma PreemptKeepsRecord(g: Model, rule: StopRule, stages: nat, e: Engine)
    requires MidInv(g, rule, stages, e) && RecordOk(e) && (e.phase.Running? || e.phase.Draining?)
    requires !(e.request.Wrong() && e.request.check.justFixed && e.request.spLen > 0)
    ensures RecordOk(PreemptRequest(e))
  {
    if AllIdle(e.slots) {
      NoResults(e.slots);
    }
  }

  lemma ClearedPreemptKeepsRecord(g: Model, rule: StopRule, stages: nat, e: Engine)
    requires MidInv(g, rule, stages, e) && RecordOk(e) && (e.phase.Running? || e.phase.Draining?)
    requires !(e.request.Wrong() && e.request.check.justFixed && e.request.spLen > 0)
    ensures RecordOk(PreemptRequest(e.(request := e.request.(drop := e.request.drop.(end := false)))))
  {
    ClearKeepsInvariant(g, rule, stages, e);
    PreemptKeepsRecord(g, rule, stages, e.(request := e.request.(drop := e.request.drop.(end := false))));
  }

  lemma PreemptedRecord(g: Model, rule: StopRule, stages: nat, e: Engine, ownTurn: bool, draft: Token)
    requires MidInv(g, rule, stages, e) && RecordOk(e) && CanSchedule(e, Preempt(ownTurn))
    requires !RepeatsCorrection(e, Preempt(ownTurn))
    ensures RecordOk(Schedule(g, rule, e, Preempt(ownTurn), draft))
  {
    if ownTurn && PendingRealToken(e.request) {
      ClearedPreemptKeepsRecord(g, rule, stages, e);
    } else {
      PreemptKeepsRecord(g, rule, stages, e);
    }
  }

  lemma SkippedRecord(g: Model, rule: StopRule, stages: nat, e: Engine, choice: Choice, draft: Token)
    requires MidInv(g, rule, stages, e) && RecordOk(e) && CanSchedule(e, choice) && (choice.Skip? || choice.DropSpeculation?)
    requires !RepeatsCorrection(e, choice)
    ensures RecordOk(Schedule(g, rule, e, choice, draft))
  {
    if choice.Skip? && e.phase.Draining? {
      PreemptKeepsRecord(g, rule, stages, e);
    }
  }

  /** So does every decision that is not harmful and repeats no correction. */
  lemma ScheduleKeepsRecord(g: Model, rule: StopRule, stages: nat, e: Engine, choice: Choice, draft: Token)
    requires MidInv(g, rule, stages, e) && RecordOk(e) && CanSchedule(e, choice)
    requires !Harmful(rule, e, choice, draft) && !RepeatsCorrection(e, choice)
    ensures RecordOk(Schedule(g, rule, e, choice, draft))
  {
    if choice.Run? {
      RunKeepsRecord(g, rule, stages, e, choice.n, draft);
    } else if choice.Preempt? {
      PreemptedRecord(g, rule, stages, e, choice.ownTurn, draft);
    } else {
      SkippedRecord(g, rule, stages, e, choice, draft);
    }
  }

  /** The steps that keep the record: none is harmful, no correction is flushed
      before it is sent, and none is sent twice. */
  ghost predicate PromptRun(g: Model, rule: StopRule, e: Engine, inputs: seq<Input>)
    decreases |inputs|
  {
    inputs == [] || (
      && !FlushesUnsent(e)
      && (CanVerify(e) ==> var m := VerifyOldest(rule, e);
                           && Allowed(m, inputs[0].choice) && !Harmful(rule, m, inputs[0].choice, inputs[0].draft)
                           && !RepeatsCorrection(m, inputs[0].choice))
      && match Step(g, rule, e, inputs[0])
         case Some(e') => PromptRun(g, rule, e', inputs[1..])
         case None => true)
  }

  lemma StepKeepsRecord(g: Model, rule: StopRule, stages: nat, e: Engine, input: Input)
    requires stages >= 2 && Inv(g, rule, stages, e) && RecordOk(e) && !FlushesUnsent(e)
    requires CanVerify(e) ==> var m := VerifyOldest(rule, e);
                              && Allowed(m, input.choice) && !Harmful(rule, m, input.choice, input.draft)
                              && !RepeatsCorrection(m, input.choice)
    ensures Step(g, rule, e, input).Some? && Inv(g, rule, stages, Step(g, rule, e, input).value)
    ensures RecordOk(Step(g, rule, e, input).value)
  {
    VerifyKeepsRecord(g, rule, stages, e);
    StepKeepsInvariant(g, rule, stages, e, input);
    VerifyKeepsInvariant(g, rule, stages, e);
    ScheduleKeepsRecord(g, rule, stages, VerifyOldest(rule, e), input.choice, input.draft);
  }

  lemma {:induction false} RunsKeepRecord(g: Model, rule: StopRule, stages: nat, e: Engine, inputs: seq<Input>)
    requires stages >= 2 && Inv(g, rule, stages, e) && RecordOk(e) && PromptRun(g, rule, e, inputs)
    ensures RunAll(g, rule, e, inputs).Some? && RecordOk(RunAll(g, rule, e, inputs).value)
    decreases |inputs|
  {
    if inputs != [] {
      StepKeepsRecord(g, rule, stages, e, inputs[0]);
      RunsKeepRecord(g, rule, stages, Step(g, rule, e, inputs[0]).value, inputs[1..]);
    }
  }

  /** Over every run that corrects promptly, the worker's record is the scheduler's
      output, but for the newest token and a correction on its way. */
  lemma RecordFollowsTheOutput(g: Model, rule: StopRule, prompt: seq<Token>, stages: nat, inputs: seq<Input>)
    requires prompt != [] && stages >= 2 && PromptRun(g, rule, Init(prompt, stages), inputs)
    ensures RunAll(g, rule, Init(prompt, stages), inputs).Some?
    ensures RecordOk(RunAll(g, rule, Init(prompt, stages), inputs).value)
  {
    InitKeepsInvariant(g, rule, prompt, stages);
    RunsKeepRecord(g, rule, stages, Init(prompt, stages), inputs);
  }
}
