/**
 Speculative parallelism is lossless: whatever the exit layer drafts and
 whatever the scheduler drops, skips, chunks or preempts, the tokens sent to the
 user are those of plain greedy decoding, ended by the same stop rule, as long as
 no step is one of five harmful ones. Each of these is a condition on the state
 before the step, and each is exactly when the pipeline's invariant is lost.
 */
module LosslessSpeculation {
  import opened Options
  import opened SpeculativeRequest
  import opened SpeculativePipeline

  /** The user has received greedy tokens only, nothing beyond the first stop,
      and the request is finished exactly when that stop is reached. */
  ghost predicate Faithful(g: Model, rule: StopRule, e: Engine) {
    && var p := e.request.prompt;
    && e.emitted == Greedy(g, p, |e.emitted|)
    && (forall k | 0 < k < |e.emitted| :: !Stops(rule, |p|, e.emitted[..k]))
    && (e.phase.Finished? <==> e.emitted != [] && Stops(rule, |p|, e.emitted))
  }

  // ------------------------------------------------------------ results in flight

  /** The target model's results in flight, oldest first, whatever lies between. */
  function Results(slots: seq<Slot>): seq<Token> {
    if slots == [] then [] else ResultOf(slots[0]) + Results(slots[1..])
  }

  function ResultOf(slot: Slot): seq<Token> {
    if slot.HasToken() then [slot.result.value] else []
  }

  lemma {:induction false} ResultsSnoc(slots: seq<Slot>, slot: Slot)
    ensures Results(slots + [slot]) == Results(slots) + ResultOf(slot)
  {
    if slots == [] {
      assert slots + [slot] == [slot] && [slot][1..] == [];
      assert Results([slot]) == ResultOf(slot) + Results([]) == ResultOf(slot);
    } else {
      var first, rest := ResultOf(slots[0]), Results(slots[1..]);
      assert (slots + [slot])[1..] == slots[1..] + [slot];
      ResultsSnoc(slots[1..], slot);
      assert first + (rest + ResultOf(slot)) == first + rest + ResultOf(slot);
    }
  }

  lemma {:induction false} NoResults(slots: seq<Slot>)
    requires AllIdle(slots)
    ensures Results(slots) == []
  {
    if slots != [] {
      NoResults(slots[1..]);
    }
  }

  /** Results in flight that belong to a rejected continuation. */
  function Stale(r: RequestState): int {
    if r.Wrong() then r.check.flushLen else 0
  }

  /** The results that the last `n` tokens of the output wait for: each is computed
      on exactly the tokens before it. */
  function Answers(g: Model, prompt: seq<Token>, output: seq<Token>, n: int): seq<Token>
    requires 0 <= n <= |output|
  {
    seq(n, (k: nat) requires k < n => g(prompt + output[..|output| - n + k]))
  }

  /** In flight are the stale results and then one answer for each draft. */
  ghost predicate SlotsOk(g: Model, e: Engine) {
    var r := e.request;
    && r.InRange() && Stale(r) >= 0
    && |Results(e.slots)| == Stale(r) + r.spLen
    && Results(e.slots)[Stale(r)..] == Answers(g, r.prompt, r.output, r.spLen)
  }

  // -------------------------------------------------------------------- the invariant

  /** The key/value cache holds the request's tokens up to num_computed, which
      stays one behind while drafts or stale results are in flight. */
  ghost predicate ComputeOk(e: Engine) {
    var r := e.request;
    && 0 <= r.numComputed < r.NumTokens()
    && r.numComputed <= |e.kv|
    && e.kv[..r.numComputed] == r.AllTokens()[..r.numComputed]
    && (r.spLen > 0 || r.Wrong() ==> r.numComputed == r.NumTokens() - 1)
  }

  /** The newest correction is still to be sent to the worker. */
  predicate FixPending(r: RequestState) {
    r.Wrong() && r.check.justFixed && r.spLen == 0
  }

  /** The worker's record is no longer than the output, unless a correction that
      will cut it down to size is on its way. */
  ghost predicate MirrorOk(e: Engine) {
    var r := e.request;
    && (e.isNew ==> e.phase.Waiting? && r.output == [] && e.postFix.None? && e.mirror == [])
    && (e.postFix.Some? ==> 0 <= e.postFix.value < |e.emitted|)
    && (e.postFix.None? && !FixPending(r) ==> |e.mirror| <= |r.output|)
  }

  ghost predicate CheckOk(e: Engine) {
    var r := e.request;
    && (r.Wrong() ==> 0 <= r.check.fixedIdx < |e.emitted|)
    && (r.Wrong() && r.check.flushLen == 0 ==> r.spLen == 0 && r.check.justFixed)
    && (FixPending(r) ==> r.check.fixedIdx == |r.output| - 1)
  }

  ghost predicate PhaseOk(e: Engine) {
    var r := e.request;
    && (r.drop.On() ==> r.drop.len == r.spLen)
    && (e.phase.Waiting? ==> r.spLen == 0 && r.check == NO_CHECK && !r.drop.On() && AllIdle(e.slots))
    && (e.phase.Running? ==> ComputeOk(e) && e.postFix.None?)
    && (e.phase.Running? && (r.spLen >= 2 || Stale(r) >= 1) ==> e.cached)
  }

  ghost predicate Common(g: Model, rule: StopRule, e: Engine) {
    && e.request.prompt != [] && e.request.InRange()
    && Faithful(g, rule, e)
    && (!e.phase.Finished? ==>
      SlotsOk(g, e) && e.request.Verified() == e.emitted && MirrorOk(e) && CheckOk(e) && PhaseOk(e))
  }

  /** Holds between two steps, with all N pipeline slots filled. */
  ghost predicate Inv(g: Model, rule: StopRule, stages: nat, e: Engine) {
    && Common(g, rule, e) && |e.slots| == stages
    && (e.phase.Draining? && FixPending(e.request) ==> e.postFix.Some?)
  }

  /** Holds after the verification and before the scheduling of a step. */
  ghost predicate MidInv(g: Model, rule: StopRule, stages: nat, e: Engine) {
    Common(g, rule, e) && |e.slots| + 1 == stages
  }

  // ---------------------------------------------------------------- verification

  lemma GreedyExtends(g: Model, prompt: seq<Token>, s: seq<Token>)
    requires s == Greedy(g, prompt, |s|)
    ensures s + [g(prompt + s)] == Greedy(g, prompt, |s| + 1)
  {
  }

  /** A slot other than a live result leaves the request alone. */
  lemma VerifyNothing(g: Model, rule: StopRule, stages: nat, e: Engine)
    requires stages >= 2 && Inv(g, rule, stages, e)
    requires e.phase.Finished? || !e.slots[0].HasToken()
    ensures CanVerify(e)
    ensures MidInv(g, rule, stages, VerifyOldest(rule, e))
  {
  }

  /** A stale result is about to be flushed although the worker has not been told
      of the correction, and its record would stay longer than the output. */
  predicate LosesCorrection(e: Engine) {
    && !e.phase.Finished? && e.slots != [] && e.slots[0].HasToken()
    && FixPending(e.request) && e.postFix.None? && |e.mirror| > |e.request.output|
  }

  lemma ResultInFront(g: Model, e: Engine)
    requires SlotsOk(g, e) && e.slots != [] && e.slots[0].HasToken()
    ensures Results(e.slots) == [e.slots[0].result.value] + Results(e.slots[1..])
    ensures Results(e.slots[1..]) == Results(e.slots)[1..]
  {
  }

  /** A stale result only counts down the flush; it keeps the invariant unless it
      flushes a correction that is still needed. */
  lemma VerifyStale(g: Model, rule: StopRule, stages: nat, e: Engine)
    requires stages >= 2 && Inv(g, rule, stages, e)
    requires !e.phase.Finished? && e.slots[0].HasToken() && e.request.Wrong()
    ensures CanVerify(e)
    ensures MidInv(g, rule, stages, VerifyOldest(rule, e)) <==> !LosesCorrection(e)
    ensures VerifyOldest(rule, e).emitted == e.emitted
  {
    ResultInFront(g, e);
    assert e.request.check.flushLen >= 1;
    var e' := VerifyOldest(rule, e);
    assert e.emitted[..|e.emitted|] == e.emitted;
    assert e'.request.Verified() == e.emitted;
    assert Results(e'.slots)[Stale(e'.request)..] == Results(e.slots)[Stale(e.request)..];
  }

  /** The result of the oldest draft is the next greedy token. */
  lemma LiveResultIsGreedy(g: Model, rule: StopRule, stages: nat, e: Engine)
    requires stages >= 2 && Inv(g, rule, stages, e)
    requires !e.phase.Finished? && e.slots[0].HasToken() && !e.request.Wrong()
    ensures CanVerify(e) && e.request.spLen > 0
    ensures e.slots[0].result.value == g(e.request.prompt + e.emitted)
    ensures e.emitted + [e.slots[0].result.value] == Greedy(g, e.request.prompt, |e.emitted| + 1)
    ensures Results(e.slots[1..]) == Answers(g, e.request.prompt, e.request.output, e.request.spLen)[1..]
  {
    ResultInFront(g, e);
    assert Results(e.slots)[0..] == Results(e.slots);
    assert Answers(g, e.request.prompt, e.request.output, e.request.spLen)[0] == g(e.request.prompt + e.request.Verified());
    GreedyExtends(g, e.request.prompt, e.emitted);
  }

  /** Sending the next greedy token keeps the user's view faithful. */
  lemma EmitKeepsFaithful(g: Model, rule: StopRule, e: Engine, e': Engine)
    requires Faithful(g, rule, e) && !e.phase.Finished?
    requires e'.request.prompt == e.request.prompt
    requires e'.emitted == e.emitted + [g(e.request.prompt + e.emitted)]
    requires e'.phase.Finished? <==> Stops(rule, |e.request.prompt|, e'.emitted)
    ensures Faithful(g, rule, e')
  {
    GreedyExtends(g, e.request.prompt, e.emitted);
    forall k | 0 < k < |e'.emitted| ensures !Stops(rule, |e.request.prompt|, e'.emitted[..k]) {
      assert e'.emitted[..k] == e.emitted[..k];
      assert e.emitted[..|e.emitted|] == e.emitted;
    }
  }

  lemma VerifyConfirmed(g: Model, rule: StopRule, stages: nat, e: Engine)
    requires stages >= 2 && Inv(g, rule, stages, e)
    requires !e.phase.Finished? && e.slots[0].HasToken() && !e.request.Wrong() && CanVerify(e)
    requires Verify(e.request, e.slots[0].result.value).1.Confirmed?
    ensures MidInv(g, rule, stages, VerifyOldest(rule, e))
  {
    LiveResultIsGreedy(g, rule, stages, e);
    var e' := VerifyOldest(rule, e);
    assert e'.request.Verified() == e'.emitted;
    EmitKeepsFaithful(g, rule, e, e');
    AnswersAfterConfirm(g, e.request, e'.request);
    assert Results(e'.slots)[0..] == Results(e'.slots);
  }

  lemma AnswersAfterConfirm(g: Model, r: RequestState, r': RequestState)
    requires r.InRange() && r.spLen > 0
    requires r'.prompt == r.prompt && r'.output == r.output && r'.spLen == r.spLen - 1
    ensures Answers(g, r'.prompt, r'.output, r'.spLen) == Answers(g, r.prompt, r.output, r.spLen)[1..]
  {
  }

  lemma VerifyDropEnded(g: Model, rule: StopRule, stages: nat, e: Engine)
    requires stages >= 2 && Inv(g, rule, stages, e)
    requires !e.phase.Finished? && e.slots[0].HasToken() && !e.request.Wrong() && CanVerify(e)
    requires Verify(e.request, e.slots[0].result.value).1.DropEnded?
    ensures MidInv(g, rule, stages, VerifyOldest(rule, e))
  {
    LiveResultIsGreedy(g, rule, stages, e);
    var e' := VerifyOldest(rule, e);
    assert e'.request.Verified() == e'.emitted;
    EmitKeepsFaithful(g, rule, e, e');
    assert Results(e'.slots)[0..] == Answers(g, e'.request.prompt, e'.request.output, e'.request.spLen) == [];
    if e.phase.Running? {
      CorrectedCompute(e, e');
    }
  }

  /** The cached entries stay those of the request when its tail is replaced. */
  lemma CorrectedCompute(e: Engine, e': Engine)
    requires e.phase.Running? && ComputeOk(e) && e.request.InRange() && e.request.spLen > 0
    requires e'.kv == e.kv && e'.request.prompt == e.request.prompt && e'.request.spLen == 0
    requires |e'.request.output| == |e.request.Verified()| + 1
    requires e'.request.output[..|e'.request.output| - 1] == e.request.Verified()
    requires e'.request.numComputed == e'.request.NumTokens() - 1
    ensures ComputeOk(e')
  {
    var c := e'.request.numComputed;
    assert e'.request.AllTokens()[..c] == e.request.prompt + e.request.Verified() == e.request.AllTokens()[..c];
    assert e.kv[..c] == e.kv[..e.request.numComputed][..c] == e.request.AllTokens()[..e.request.numComputed][..c];
  }

  lemma VerifyCorrected(g: Model, rule: StopRule, stages: nat, e: Engine)
    requires stages >= 2 && Inv(g, rule, stages, e)
    requires !e.phase.Finished? && e.slots[0].HasToken() && !e.request.Wrong() && CanVerify(e)
    requires Verify(e.request, e.slots[0].result.value).1.Corrected?
    ensures MidInv(g, rule, stages, VerifyOldest(rule, e))
    ensures var r := VerifyOldest(rule, e).request;
            r.Wrong() && r.spLen == 0 && r.check.flushLen == e.request.spLen - 1
  {
    LiveResultIsGreedy(g, rule, stages, e);
    var e' := VerifyOldest(rule, e);
    assert e'.request.Verified() == e'.emitted;
    EmitKeepsFaithful(g, rule, e, e');
    assert Results(e'.slots)[Stale(e'.request)..] == Answers(g, e'.request.prompt, e'.request.output, e'.request.spLen) == [];
    if e.phase.Running? {
      CorrectedCompute(e, e');
      assert ComputeOk(e');
    }
    assert e'.phase.Finished? || (MirrorOk(e') && CheckOk(e'));
  }

  /** Verifying the oldest slot never fails, and keeps the invariant exactly when
      it does not flush a correction that the worker still needs. */
  lemma VerifyKeepsInvariant(g: Model, rule: StopRule, stages: nat, e: Engine)
    requires stages >= 2 && Inv(g, rule, stages, e)
    ensures CanVerify(e)
    ensures MidInv(g, rule, stages, VerifyOldest(rule, e)) <==> !LosesCorrection(e)
  {
    if e.phase.Finished? || !e.slots[0].HasToken() {
      VerifyNothing(g, rule, stages, e);
    } else if e.request.Wrong() {
      VerifyStale(g, rule, stages, e);
    } else {
      LiveResultIsGreedy(g, rule, stages, e);
      match Verify(e.request, e.slots[0].result.value).1
      case Confirmed => VerifyConfirmed(g, rule, stages, e);
      case DropEnded => VerifyDropEnded(g, rule, stages, e);
      case Corrected => VerifyCorrected(g, rule, stages, e);
    }
  }

  // ------------------------------------------------------------------ scheduling

  /** How long the worker's record is once this batch has reached it, unless the
      batch itself makes it longer. */
  function RecordLength(e: Engine): nat {
    var r := e.request;
    if e.isNew then 0
    else if e.postFix.Some? then |Overwrite(e.mirror, r.output, e.postFix.value)|
    else if FixToSend(e) then |Overwrite(e.mirror, r.output, r.check.fixedIdx)|
    else |e.mirror|
  }

  /** Only results of a correction are flushed, and none is left to flush: the
      count would miss zero when the next result comes back. */
  predicate NothingToFlush(e: Engine) {
    e.phase.Running? && e.request.Wrong() && e.request.check.flushLen == 0
  }

  /** The correction is sent again although a draft has been made since: the
      corrected token would be computed in the place of the draft. */
  predicate SendsForAnother(e: Engine) {
    var r := e.request;
    && e.phase.Running? && FixToSend(e) && r.output != []
    && TokenAt(r.output, r.check.fixedIdx) != [r.output[|r.output| - 1]]
  }

  /** The batch ends before the last token, at or behind the end of the worker's
      record, so that the worker takes it for a complete one. */
  predicate EndsShort(e: Engine, n: nat) {
    |e.request.prompt| + RecordLength(e) <= e.request.numComputed + n < e.request.NumTokens()
  }

  /** A leftover drop_end relaunches a request whose drop is still counting, and
      the new draft does not restart the count. */
  predicate RelaunchesDrop(rule: StopRule, e: Engine, draft: Token) {
    e.phase.Running? && e.request.drop.On() && !Stops(rule, |e.request.prompt|, e.request.output + [draft])
  }

  /** The decisions that lose the invariant; skipping, dropping and preempting a
      request never do. */
  predicate Harmful(rule: StopRule, e: Engine, choice: Choice, draft: Token) {
    choice.Run? && var a := Admit(e);
      || NothingToFlush(a)
      || SendsForAnother(a)
      || EndsShort(a, choice.n)
      || (RelaunchesDrop(rule, a, draft)
          && |a.request.prompt| + RecordLength(a) <= a.request.numComputed + choice.n)
  }

  /** Appending a slot without a result keeps the results in order. */
  lemma PushKeepsSlots(g: Model, e: Engine, e': Engine, slot: Slot)
    requires SlotsOk(g, e) && !slot.HasToken()
    requires e'.request.output == e.request.output && e'.request.spLen == e.request.spLen
    requires e'.request.check == e.request.check && e'.request.prompt == e.request.prompt
    requires e'.slots == e.slots + [slot]
    ensures SlotsOk(g, e')
  {
    ResultsSnoc(e.slots, slot);
  }

  /** A preemption, also in the middle of a correction or a drop. */
  lemma PreemptKeepsInvariant(g: Model, rule: StopRule, stages: nat, e: Engine)
    requires MidInv(g, rule, stages, e) && (e.phase.Running? || e.phase.Draining?)
    ensures var e' := PreemptRequest(e); Inv(g, rule, stages, e'.(slots := e'.slots + [Idle]))
  {
    var e' := PreemptRequest(e);
    var e'' := e'.(slots := e'.slots + [Idle]);
    if AllIdle(e.slots) {
      NoResults(e.slots);
      assert e.request.spLen == 0;
      NoResults(e''.slots);
      assert Answers(g, e''.request.prompt, e''.request.output, e''.request.spLen) == [];
    } else {
      PushKeepsSlots(g, e, e'', Idle);
    }
  }

  lemma ClearKeepsInvariant(g: Model, rule: StopRule, stages: nat, e: Engine)
    requires MidInv(g, rule, stages, e)
    ensures MidInv(g, rule, stages, e.(request := e.request.(drop := e.request.drop.(end := false))))
  {
  }

  lemma SkipOrDropKeepsInvariant(g: Model, rule: StopRule, stages: nat, e: Engine, choice: Choice, draft: Token)
    requires MidInv(g, rule, stages, e) && CanSchedule(e, choice)
    requires choice.DropSpeculation? || (choice.Skip? && !e.phase.Draining?)
    ensures Inv(g, rule, stages, Schedule(g, rule, e, choice, draft))
  {
    if choice.Skip? {
      IdleSlotKeepsInvariant(g, rule, stages, e, e.request.drop);
    } else {
      IdleSlotKeepsInvariant(g, rule, stages, e, e.request.drop.(confidence := true, len := e.request.spLen));
    }
  }

  lemma IdleSlotKeepsInvariant(g: Model, rule: StopRule, stages: nat, e: Engine, drop: Drop)
    requires MidInv(g, rule, stages, e) && !e.phase.Draining?
    requires drop == e.request.drop || (e.phase.Running? && drop.len == e.request.spLen)
    ensures Inv(g, rule, stages, e.(request := e.request.(drop := drop), slots := e.slots + [Idle]))
  {
    var e' := e.(request := e.request.(drop := drop), slots := e.slots + [Idle]);
    if !e.phase.Finished? {
      PushKeepsSlots(g, e, e', Idle);
    }
  }

  /** The worker takes a batch for a complete one exactly when it reaches the end
      of the record; the record never grows beyond the output or the batch. */
  lemma SampledExactly(g: Model, rule: StopRule, stages: nat, e: Engine, n: nat)
    requires MidInv(g, rule, stages, e) && CanSchedule(e, Run(n))
    ensures var a := Admit(e);
      && (Sampled(a, n) <==> |a.request.prompt| + RecordLength(a) <= a.request.numComputed + n)
      && |SyncMirror(a, n)| <= |a.request.output| && RecordLength(a) <= |a.request.output|
  {
  }

  /** Only the last token is open while drafts or stale results are in flight. */
  lemma OneTokenIsOpen(g: Model, rule: StopRule, stages: nat, e: Engine, n: nat)
    requires MidInv(g, rule, stages, e) && CanSchedule(e, Run(n))
    requires e.phase.Running? && (e.request.spLen > 0 || e.request.Wrong())
    ensures n == 1 && e.request.numComputed + n == e.request.NumTokens() && Sampled(e, n)
  {
    SampledExactly(g, rule, stages, e, n);
  }

  lemma PrefixExtends<T>(kv: seq<T>, all: seq<T>, from: nat, upTo: nat)
    requires from <= upTo <= |all| && from <= |kv| && kv[..from] == all[..from]
    ensures kv[..from] + all[from..upTo] == all[..upTo]
  {
  }

  lemma LastEntry(kv: seq<Token>, all: seq<Token>, from: nat, last: Token)
    requires from <= |kv| && |all| == from + 1 && kv[..from] == all[..from]
    ensures kv[..from] + [last] == all[..from + 1] <==> last == all[from]
  {
    assert all == all[..from] + [all[from]] == all[..from + 1];
    assert (kv[..from] + [last])[from] == last;
  }

  lemma ResentContext(e: Engine, n: nat)
    requires e.phase.Running? && ComputeOk(e) && CanLaunch(e, n) && n == 1 && e.postFix.None? && FixToSend(e)
    requires e.request.output != [] && e.request.numComputed + 1 == e.request.NumTokens()
    ensures e.kv[..e.request.numComputed] + Embedded(e, n) == e.request.AllTokens()[..e.request.numComputed + n]
       <==> !SendsForAnother(e)
  {
    var r := e.request;
    var sent := TokenAt(r.output, r.check.fixedIdx);
    assert Embedded(e, n) == sent == [sent[0]];
    LastEntry(e.kv, r.AllTokens(), r.numComputed, sent[0]);
    assert r.AllTokens()[r.numComputed] == r.output[|r.output| - 1];
  }

  /** The batch is computed on the request's own tokens exactly when it does not
      send the correction for another token. */
  lemma LaunchedContext(g: Model, rule: StopRule, stages: nat, e: Engine, n: nat)
    requires MidInv(g, rule, stages, e) && CanSchedule(e, Run(n))
    ensures var a := Admit(e); var from := a.request.numComputed;
      a.kv[..from] + Embedded(a, n) == a.request.AllTokens()[..from + n] <==> !SendsForAnother(a)
  {
    var a := Admit(e);
    if a.phase.Running? && FixToSend(a) {
      OneTokenIsOpen(g, rule, stages, e, n);
      ResentContext(a, n);
    } else {
      PrefixExtends(a.kv, a.request.AllTokens(), a.request.numComputed, a.request.numComputed + n);
    }
  }

  // ------------------------------------------------------------------------ launching

  /** What a batch leaves behind that the worker takes for a partial prefill. */
  ghost predicate PartlyLaunched(e: Engine, n: nat, e': Engine)
    requires CanLaunch(e, n)
  {
    var r, r' := e.request, e'.request;
    && r'.prompt == r.prompt && r'.output == r.output && r'.spLen == r.spLen && r'.check == r.check
    && r'.numComputed == r.numComputed + n && r'.drop.On() == r.drop.On() && r'.drop.len == r.drop.len
    && e'.kv == e.kv[..r.numComputed] + Embedded(e, n) && e'.mirror == SyncMirror(e, n)
    && e'.slots == e.slots + [Busy(None)]
    && e'.phase == Running && !e'.isNew && e'.cached == !e.isNew && e'.postFix == None && e'.emitted == e.emitted
  }

  lemma PartialShape(g: Model, rule: StopRule, e: Engine, n: nat, draft: Token)
    requires CanLaunch(e, n) && !Sampled(e, n)
    ensures PartlyLaunched(e, n, Launch(g, rule, e, n, draft))
  {
  }

  /** Such a batch is a prefill: no drafts or stale results are in flight. */
  lemma PartialIsPrefill(g: Model, rule: StopRule, stages: nat, e: Engine, n: nat, draft: Token)
    requires MidInv(g, rule, stages, e) && CanSchedule(e, Run(n)) && !Sampled(Admit(e), n)
    ensures e.request.spLen == 0 && !e.request.Wrong() && !Harmful(rule, e, Run(n), draft)
    ensures Admit(e).request.numComputed + n < e.request.NumTokens()
    ensures |SyncMirror(Admit(e), n)| <= |e.request.output|
  {
    SampledExactly(g, rule, stages, e, n);
    if e.phase.Running? && (e.request.spLen > 0 || e.request.Wrong()) {
      OneTokenIsOpen(g, rule, stages, e, n);
    }
  }

  lemma LaunchPartialKeepsInvariant(g: Model, rule: StopRule, stages: nat, e: Engine, n: nat, draft: Token, e': Engine)
    requires MidInv(g, rule, stages, e) && CanSchedule(e, Run(n)) && !Sampled(Admit(e), n)
    requires PartlyLaunched(Admit(e), n, e')
    ensures Inv(g, rule, stages, e')
  {
    PartialIsPrefill(g, rule, stages, e, n, 0);
    LaunchedContext(g, rule, stages, e, n);
    PushKeepsSlots(g, e, e', Busy(None));
    assert e'.request.AllTokens() == e.request.AllTokens();
    assert e'.request.Verified() == e'.emitted;
  }

  /** A new draft and its answer join those in flight. */
  lemma DraftKeepsSlots(g: Model, e: Engine, e': Engine, draft: Token)
    requires SlotsOk(g, e)
    requires e'.request.prompt == e.request.prompt && e'.request.check == e.request.check
    requires e'.request.output == e.request.output + [draft] && e'.request.spLen == e.request.spLen + 1
    requires e'.slots == e.slots + [Busy(Some(g(e.request.AllTokens())))]
    ensures SlotsOk(g, e')
  {
    ResultsSnoc(e.slots, Busy(Some(g(e.request.AllTokens()))));
    AnswersAfterDraft(g, e.request, e'.request, draft);
  }

  lemma AnswersAfterDraft(g: Model, r: RequestState, r': RequestState, draft: Token)
    requires r.InRange() && r'.prompt == r.prompt && r'.output == r.output + [draft] && r'.spLen == r.spLen + 1
    ensures Answers(g, r'.prompt, r'.output, r'.spLen) == Answers(g, r.prompt, r.output, r.spLen) + [g(r.AllTokens())]
  {
    forall k: nat | k < r'.spLen ensures Answers(g, r'.prompt, r'.output, r'.spLen)[k] == (Answers(g, r.prompt, r.output, r.spLen) + [g(r.AllTokens())])[k] {
      var i := |r.output| - r.spLen + k;
      assert r'.output[..i] == r.output[..i];
      assert r.output[..|r.output|] == r.output;
    }
  }

  /** What a complete batch leaves behind. */
  ghost predicate Launched(g: Model, rule: StopRule, e: Engine, n: nat, draft: Token, e': Engine)
    requires CanLaunch(e, n)
  {
    var r, r' := e.request, e'.request;
    && r'.prompt == r.prompt && r'.output == r.output + [draft] && r'.spLen == r.spLen + 1 && r'.check == r.check
    && r'.numComputed == r.numComputed + n
    && r'.drop.On() == (r.drop.On() || Stops(rule, |r.prompt|, r'.output))
    && r'.drop.len == (if Stops(rule, |r.prompt|, r'.output) then r'.spLen else r.drop.len)
    && e'.kv == e.kv[..r.numComputed] + Embedded(e, n) && e'.mirror == SyncMirror(e, n)
    && e'.slots == e.slots + [Busy(Some(g(e'.kv)))]
    && e'.phase == Running && !e'.isNew && e'.cached == !e.isNew && e'.postFix == None && e'.emitted == e.emitted
  }

  lemma LaunchedShape(g: Model, rule: StopRule, e: Engine, n: nat, draft: Token)
    requires CanLaunch(e, n) && Sampled(e, n)
    ensures Launched(g, rule, e, n, draft, Launch(g, rule, e, n, draft))
  {
  }

  /** A harmless complete batch is computed on all tokens of the request. */
  lemma LaunchedOnAllTokens(g: Model, rule: StopRule, stages: nat, e: Engine, n: nat, draft: Token, e': Engine)
    requires MidInv(g, rule, stages, e) && CanSchedule(e, Run(n)) && Sampled(Admit(e), n)
    requires Launched(g, rule, Admit(e), n, draft, e') && !Harmful(rule, e, Run(n), draft)
    ensures e'.kv == e.request.AllTokens() && e'.request.numComputed == e.request.NumTokens()
    ensures |e'.mirror| <= |e.request.output|
    ensures e'.request.drop.On() ==> e'.request.drop.len == e'.request.spLen
    ensures !(e.request.Wrong() && e.request.check.flushLen == 0)
  {
    SampledExactly(g, rule, stages, e, n);
    LaunchedContext(g, rule, stages, e, n);
    var all := e.request.AllTokens();
    assert all[..|all|] == all;
  }

  lemma LaunchedKeepsInvariant(g: Model, rule: StopRule, stages: nat, e: Engine, n: nat, draft: Token, e': Engine)
    requires MidInv(g, rule, stages, e) && CanSchedule(e, Run(n)) && Sampled(Admit(e), n)
    requires Launched(g, rule, Admit(e), n, draft, e') && !Harmful(rule, e, Run(n), draft)
    ensures Inv(g, rule, stages, e')
  {
    LaunchedOnAllTokens(g, rule, stages, e, n, draft, e');
    DraftKeepsSlots(g, e, e', draft);
    VerifiedAfterDraft(e.request, e'.request, draft);
    LaunchedPhase(g, rule, stages, e, n, draft, e');
  }

  lemma LaunchedPhase(g: Model, rule: StopRule, stages: nat, e: Engine, n: nat, draft: Token, e': Engine)
    requires MidInv(g, rule, stages, e) && CanSchedule(e, Run(n)) && Sampled(Admit(e), n)
    requires Launched(g, rule, Admit(e), n, draft, e') && !Harmful(rule, e, Run(n), draft)
    ensures MirrorOk(e') && CheckOk(e') && PhaseOk(e')
  {
    LaunchedOnAllTokens(g, rule, stages, e, n, draft, e');
    LaunchedComputes(e, e', draft);
  }

  lemma VerifiedAfterDraft(r: RequestState, r': RequestState, draft: Token)
    requires r.InRange() && r'.output == r.output + [draft] && r'.spLen == r.spLen + 1
    ensures r'.InRange() && r'.Verified() == r.Verified()
  {
  }

  lemma LaunchedComputes(e: Engine, e': Engine, draft: Token)
    requires e'.request.prompt == e.request.prompt && e'.request.output == e.request.output + [draft]
    requires e'.kv == e.request.AllTokens() && e'.request.numComputed == e.request.NumTokens()
    ensures ComputeOk(e')
  {
    var all := e.request.AllTokens();
    assert e'.request.AllTokens() == all + [draft];
    assert e'.request.AllTokens()[..|all|] == all == e'.kv[..|all|];
  }

  lemma AnotherLosesInvariant(g: Model, rule: StopRule, stages: nat, e: Engine, n: nat, draft: Token, e': Engine)
    requires MidInv(g, rule, stages, e) && CanSchedule(e, Run(n)) && Sampled(Admit(e), n)
    requires Launched(g, rule, Admit(e), n, draft, e') && SendsForAnother(Admit(e))
    ensures !ComputeOk(e')
  {
    OneTokenIsOpen(g, rule, stages, e, n);
    LaunchedContext(g, rule, stages, e, n);
    var all := e.request.AllTokens();
    assert e'.request.AllTokens() == all + [draft];
    assert e'.request.AllTokens()[..|all|] == all;
    assert e'.kv[..|all|] == e'.kv;
  }

  /** Each harmful launch does lose the invariant. */
  lemma HarmfulLosesInvariant(g: Model, rule: StopRule, stages: nat, e: Engine, n: nat, draft: Token, e': Engine)
    requires MidInv(g, rule, stages, e) && CanSchedule(e, Run(n)) && Sampled(Admit(e), n)
    requires Launched(g, rule, Admit(e), n, draft, e') && Harmful(rule, e, Run(n), draft)
    ensures !Inv(g, rule, stages, e')
  {
    if SendsForAnother(Admit(e)) {
      AnotherLosesInvariant(g, rule, stages, e, n, draft, e');
    } else {
      SampledExactly(g, rule, stages, e, n);
    }
  }

  lemma OpenBatchCanLaunch(g: Model, rule: StopRule, stages: nat, e: Engine, n: nat)
    requires MidInv(g, rule, stages, e) && Allowed(e, Run(n))
    ensures CanLaunch(Admit(e), n)
  {
    if e.phase.Running? && FixToSend(e) {
      assert |e.request.output| > 0 && n == 1;
    }
  }

  /** No decision open to the scheduler fails on an index or a shape. */
  lemma AllowedCanSchedule(g: Model, rule: StopRule, stages: nat, e: Engine, choice: Choice)
    requires MidInv(g, rule, stages, e) && Allowed(e, choice)
    ensures CanSchedule(e, choice)
  {
    if choice.Run? {
      OpenBatchCanLaunch(g, rule, stages, e, choice.n);
    }
  }

  /** The scheduler's assertion that there is a token to run holds whenever it gets
      as far: a running request always has one, and may run it unless it waits for
      its drop; a waiting request may run all its tokens. */
  lemma SomeTokenIsOpen(g: Model, rule: StopRule, stages: nat, e: Engine)
    requires MidInv(g, rule, stages, e)
    ensures e.phase.Running? ==> e.request.NumTokens() - e.request.numComputed >= 1
    ensures e.phase.Running? ==> (Allowed(e, Run(1)) <==> PendingRealToken(e.request) || !e.request.drop.On())
    ensures e.phase.Waiting? ==> e.request.NumTokens() >= 1 && Allowed(e, Run(e.request.NumTokens()))
  {
  }

  /** A decision keeps the invariant exactly when it is not harmful. */
  lemma ScheduleKeepsInvariant(g: Model, rule: StopRule, stages: nat, e: Engine, choice: Choice, draft: Token)
    requires MidInv(g, rule, stages, e) && CanSchedule(e, choice)
    ensures Inv(g, rule, stages, Schedule(g, rule, e, choice, draft)) <==> !Harmful(rule, e, choice, draft)
  {
    match choice
    case Run(n) =>
      if Sampled(Admit(e), n) {
        var e' := Schedule(g, rule, e, choice, draft);
        LaunchedShape(g, rule, Admit(e), n, draft);
        if Harmful(rule, e, choice, draft) {
          HarmfulLosesInvariant(g, rule, stages, e, n, draft, e');
        } else {
          LaunchedKeepsInvariant(g, rule, stages, e, n, draft, e');
        }
      } else {
        PartialShape(g, rule, Admit(e), n, draft);
        PartialIsPrefill(g, rule, stages, e, n, draft);
        LaunchPartialKeepsInvariant(g, rule, stages, e, n, draft, Schedule(g, rule, e, choice, draft));
      }
    case Preempt(ownTurn) =>
      ClearKeepsInvariant(g, rule, stages, e);
      if ownTurn && PendingRealToken(e.request) {
        PreemptKeepsInvariant(g, rule, stages, e.(request := e.request.(drop := e.request.drop.(end := false))));
      } else {
        PreemptKeepsInvariant(g, rule, stages, e);
      }
    case DropSpeculation => SkipOrDropKeepsInvariant(g, rule, stages, e, choice, draft);
    case Skip =>
      if e.phase.Draining? {
        PreemptKeepsInvariant(g, rule, stages, e);
      } else {
        SkipOrDropKeepsInvariant(g, rule, stages, e, choice, draft);
      }
  }

  // ------------------------------------------------------------------- whole runs

  /** Every decision of the run is one the scheduler can take, and no step is
      harmful. Nothing is assumed of the drafted tokens, and a request may be
      skipped, dropped and preempted at any time. */
  ghost predicate HarmlessRun(g: Model, rule: StopRule, e: Engine, inputs: seq<Input>)
    decreases |inputs|
  {
    inputs == [] || (
      && !LosesCorrection(e)
      && (CanVerify(e) ==> var m := VerifyOldest(rule, e);
                           Allowed(m, inputs[0].choice) && !Harmful(rule, m, inputs[0].choice, inputs[0].draft))
      && match Step(g, rule, e, inputs[0])
         case Some(e') => HarmlessRun(g, rule, e', inputs[1..])
         case None => true)
  }

  lemma InitKeepsInvariant(g: Model, rule: StopRule, prompt: seq<Token>, stages: nat)
    requires prompt != []
    ensures Inv(g, rule, stages, Init(prompt, stages))
  {
    var e := Init(prompt, stages);
    NoResults(e.slots);
    assert Answers(g, e.request.prompt, e.request.output, e.request.spLen) == [];
  }

  /** One step raises no exception and keeps the invariant. */
  lemma StepKeepsInvariant(g: Model, rule: StopRule, stages: nat, e: Engine, input: Input)
    requires stages >= 2 && Inv(g, rule, stages, e) && !LosesCorrection(e)
    requires CanVerify(e) ==> var m := VerifyOldest(rule, e);
                              Allowed(m, input.choice) && !Harmful(rule, m, input.choice, input.draft)
    ensures Step(g, rule, e, input).Some?
    ensures Inv(g, rule, stages, Step(g, rule, e, input).value)
    ensures Step(g, rule, e, input).value.request.prompt == e.request.prompt
  {
    VerifyKeepsInvariant(g, rule, stages, e);
    var m := VerifyOldest(rule, e);
    AllowedCanSchedule(g, rule, stages, m, input.choice);
    ScheduleKeepsInvariant(g, rule, stages, m, input.choice, input.draft);
  }

  lemma {:induction false} RunKeepsInvariant(g: Model, rule: StopRule, stages: nat, e: Engine, inputs: seq<Input>)
    requires stages >= 2 && Inv(g, rule, stages, e) && HarmlessRun(g, rule, e, inputs)
    ensures RunAll(g, rule, e, inputs).Some?
    ensures Inv(g, rule, stages, RunAll(g, rule, e, inputs).value)
    ensures RunAll(g, rule, e, inputs).value.request.prompt == e.request.prompt
    decreases |inputs|
  {
    if inputs != [] {
      StepKeepsInvariant(g, rule, stages, e, inputs[0]);
      RunKeepsInvariant(g, rule, stages, Step(g, rule, e, inputs[0]).value, inputs[1..]);
    }
  }

  /** Speculation is lossless on every harmless run of a pipeline of at least two
      stages: no step fails, and what the user has received is what plain greedy
      decoding produces, up to and including its first stop. */
  lemma SpeculationIsLossless(g: Model, rule: StopRule, prompt: seq<Token>, stages: nat, inputs: seq<Input>)
    requires prompt != [] && stages >= 2
    requires HarmlessRun(g, rule, Init(prompt, stages), inputs)
    ensures RunAll(g, rule, Init(prompt, stages), inputs).Some?
    ensures var e := RunAll(g, rule, Init(prompt, stages), inputs).value;
            && e.emitted == Greedy(g, prompt, |e.emitted|)
            && (forall k | 0 < k < |e.emitted| :: !Stops(rule, |prompt|, e.emitted[..k]))
            && (e.phase.Finished? <==> e.emitted != [] && Stops(rule, |prompt|, e.emitted))
  {
    InitKeepsInvariant(g, rule, prompt, stages);
    RunKeepsInvariant(g, rule, stages, Init(prompt, stages), inputs);
  }

  /** How a request ends, on every harmless run: never beyond max_tokens or the
      model's length (the first token is always sent), at the first token that is
      EOS or a stop token, and at one of these three. */
  lemma EndsExactlyAtTheLimits(g: Model, rule: StopRule, prompt: seq<Token>, stages: nat, inputs: seq<Input>)
    requires prompt != [] && stages >= 2
    requires HarmlessRun(g, rule, Init(prompt, stages), inputs)
    ensures RunAll(g, rule, Init(prompt, stages), inputs).Some?
    ensures var e := RunAll(g, rule, Init(prompt, stages), inputs).value; var n := |e.emitted|;
            && (n <= rule.maxTokens || n <= 1)
            && (|prompt| + n <= rule.maxModelLen || n <= 1)
            && (forall k | 0 <= k < n - 1 :: e.emitted[k] !in rule.stopTokens)
            && (e.phase.Finished? <==>
                  n > 0 && (n >= rule.maxTokens || |prompt| + n >= rule.maxModelLen || e.emitted[n - 1] in rule.stopTokens))
  {
    SpeculationIsLossless(g, rule, prompt, stages, inputs);
    var s := RunAll(g, rule, Init(prompt, stages), inputs).value.emitted;
    forall k | 0 <= k < |s| - 1 ensures s[k] !in rule.stopTokens {
      NotStoppedAt(rule, |prompt|, s, k + 1);
    }
    if |s| > 1 {
      NotStoppedAt(rule, |prompt|, s, |s| - 1);
    }
  }

  lemma NotStoppedAt(rule: StopRule, promptLen: nat, s: seq<Token>, k: nat)
    requires 0 < k <= |s| && !Stops(rule, promptLen, s[..k])
    ensures k < rule.maxTokens && promptLen + k < rule.maxModelLen && s[k - 1] !in rule.stopTokens
  {
  }

  /** A draft that would end the request stops its speculation: while it is not
      verified, the request waits for a drop. */
  ghost predicate EndingDraftsAreDropped(rule: StopRule, e: Engine) {
    var r := e.request;
    e.phase.Finished? ||
    forall i | |r.output| - r.spLen <= i < |r.output| && 0 <= i ::
      EndsAt(rule, |r.prompt|, i, r.output[i]) ==> r.drop.On()
  }

  /** `token` would end the request as its output token at position i. */
  predicate EndsAt(rule: StopRule, promptLen: nat, i: nat, token: Token) {
    promptLen + i + 1 >= rule.maxModelLen || i + 1 >= rule.maxTokens || token in rule.stopTokens
  }

  lemma StepDropsEndingDrafts(g: Model, rule: StopRule, e: Engine, input: Input)
    requires EndingDraftsAreDropped(rule, e) && Step(g, rule, e, input).Some?
    ensures EndingDraftsAreDropped(rule, Step(g, rule, e, input).value)
  {
    var m := VerifyOldest(rule, e);
    assert EndingDraftsAreDropped(rule, m);
    ScheduleDropsEndingDrafts(g, rule, m, input.choice, input.draft);
  }

  lemma ScheduleDropsEndingDrafts(g: Model, rule: StopRule, m: Engine, choice: Choice, draft: Token)
    requires EndingDraftsAreDropped(rule, m) && CanSchedule(m, choice)
    ensures EndingDraftsAreDropped(rule, Schedule(g, rule, m, choice, draft))
  {
    if choice.Run? {
      var a := Admit(m);
      if Sampled(a, choice.n) {
        LaunchedShape(g, rule, a, choice.n, draft);
      } else {
        PartialShape(g, rule, a, choice.n, draft);
      }
    }
  }

  /** ... over every run whatsoever. */
  lemma {:induction false} RunDropsEndingDrafts(g: Model, rule: StopRule, e: Engine, inputs: seq<Input>)
    requires EndingDraftsAreDropped(rule, e) && RunAll(g, rule, e, inputs).Some?
    ensures EndingDraftsAreDropped(rule, RunAll(g, rule, e, inputs).value)
    decreases |inputs|
  {
    if inputs != [] {
      StepDropsEndingDrafts(g, rule, e, inputs[0]);
      RunDropsEndingDrafts(g, rule, Step(g, rule, e, inputs[0]).value, inputs[1..]);
    }
  }

  lemma {:induction false} GreedyPrefix(g: Model, prompt: seq<Token>, m: nat, n: nat)
    requires m <= n
    ensures Greedy(g, prompt, n)[..m] == Greedy(g, prompt, m)
    decreases n
  {
    if m < n {
      GreedyPrefix(g, prompt, m, n - 1);
      assert Greedy(g, prompt, n)[..m] == Greedy(g, prompt, n - 1)[..m];
    }
  }

  /** Every token of greedy decoding is the model's answer to the tokens before. */
  lemma GreedyTokens(g: Model, prompt: seq<Token>, n: nat, k: nat)
    requires k < n
    ensures Greedy(g, prompt, n)[k] == g(prompt + Greedy(g, prompt, n)[..k])
  {
    GreedyPrefix(g, prompt, k, n);
    GreedyPrefix(g, prompt, k + 1, n);
    assert Greedy(g, prompt, n)[..k + 1][k] == Greedy(g, prompt, n)[k];
  }

  /** Greedy decoding has one first stop. */
  lemma FirstStopIsUnique(g: Model, rule: StopRule, prompt: seq<Token>, m: nat, n: nat)
    requires 0 < m <= n && Stops(rule, |prompt|, Greedy(g, prompt, m))
    requires forall k | 0 < k < n :: !Stops(rule, |prompt|, Greedy(g, prompt, n)[..k])
    ensures m == n
  {
    GreedyPrefix(g, prompt, m, n);
  }

  /** Two finished harmless runs of one request send the same tokens, however
      different their drafts, decisions and pipeline depths. */
  lemma OutputDoesNotDependOnSpeculation(g: Model, rule: StopRule, prompt: seq<Token>,
                                         stages: nat, inputs: seq<Input>, stages': nat, inputs': seq<Input>)
    requires prompt != [] && stages >= 2 && stages' >= 2
    requires HarmlessRun(g, rule, Init(prompt, stages), inputs) && HarmlessRun(g, rule, Init(prompt, stages'), inputs')
    requires var e := RunAll(g, rule, Init(prompt, stages), inputs); e.Some? ==> e.value.phase.Finished?
    requires var e' := RunAll(g, rule, Init(prompt, stages'), inputs'); e'.Some? ==> e'.value.phase.Finished?
    ensures var (e, e') := (RunAll(g, rule, Init(prompt, stages), inputs), RunAll(g, rule, Init(prompt, stages'), inputs'));
      e.Some? && e'.Some? && e.value.emitted == e'.value.emitted
  {
    SpeculationIsLossless(g, rule, prompt, stages, inputs);
    SpeculationIsLossless(g, rule, prompt, stages', inputs');
    var s := RunAll(g, rule, Init(prompt, stages), inputs).value.emitted;
    var t := RunAll(g, rule, Init(prompt, stages'), inputs').value.emitted;
    if |s| <= |t| {
      FirstStopIsUnique(g, rule, prompt, |s|, |t|);
    } else {
      FirstStopIsUnique(g, rule, prompt, |t|, |s|);
    }
  }
}
