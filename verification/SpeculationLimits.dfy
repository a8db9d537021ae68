/**
 Progress of the speculative pipeline, and the harmful steps that the losslessness
 theorem excludes: what each of them does to a request, with a run that comes to it.
 */
module SpeculationLimits {
  import opened Options
  import opened SpeculativeRequest
  import opened SpeculativePipeline
  import opened LosslessSpeculation

  // ------------------------------------------------------------------- progress

  /** The slot of the k-th result in flight. */
  function IndexOf(slots: seq<Slot>, k: nat): (i: nat)
    requires k < |Results(slots)|
    ensures i < |slots| && slots[i].HasToken()
  {
    if !slots[0].HasToken() then 1 + IndexOf(slots[1..], k)
    else if k == 0 then 0
    else 1 + IndexOf(slots[1..], k - 1)
  }

  lemma {:induction false} IndexOfSnoc(slots: seq<Slot>, slot: Slot, k: nat)
    requires k < |Results(slots)|
    ensures k < |Results(slots + [slot])| && IndexOf(slots + [slot], k) == IndexOf(slots, k)
  {
    ResultsSnoc(slots, slot);
    assert (slots + [slot])[1..] == slots[1..] + [slot];
    if !slots[0].HasToken() {
      IndexOfSnoc(slots[1..], slot, k);
    } else if k > 0 {
      IndexOfSnoc(slots[1..], slot, k - 1);
    }
  }

  /** A request with drafts in flight, and the slot that answers the oldest. */
  predicate Waits(e: Engine) {
    && (e.phase.Running? || e.phase.Draining?)
    && e.request.spLen > 0 && 0 <= Stale(e.request) < |Results(e.slots)|
  }

  function Ahead(e: Engine): nat
    requires Waits(e)
  {
    IndexOf(e.slots, Stale(e.request))
  }

  /** Scheduling neither sends tokens nor takes drafts back. */
  lemma ScheduleKeepsDrafts(g: Model, rule: StopRule, e: Engine, choice: Choice, draft: Token)
    requires CanSchedule(e, choice) && Waits(e)
    ensures var e' := Schedule(g, rule, e, choice, draft);
            Waits(e') && Ahead(e') == Ahead(e) && e'.emitted == e.emitted
  {
    if AllIdle(e.slots) {
      NoResults(e.slots);
      assert false;
    }
    var e' := Schedule(g, rule, e, choice, draft);
    assert e'.slots == e.slots + [e'.slots[|e.slots|]];
    IndexOfSnoc(e.slots, e'.slots[|e.slots|], Stale(e.request));
  }

  /** Until its turn comes, a draft only moves ahead in the pipeline. */
  lemma VerifyKeepsDrafts(g: Model, rule: StopRule, stages: nat, e: Engine)
    requires stages >= 2 && Inv(g, rule, stages, e) && CanVerify(e)
    requires Waits(e) && Ahead(e) > 0
    ensures var m := VerifyOldest(rule, e);
            Waits(m) && Ahead(m) == Ahead(e) - 1 && m.emitted == e.emitted
  {
    assert e.emitted[..|e.emitted|] == e.emitted;
  }

  /** A draft on its way to verification moves one slot per step, and the step
      that verifies the oldest sends one token, whatever the scheduler decides
      meanwhile. */
  lemma OldestDraftAdvances(g: Model, rule: StopRule, stages: nat, e: Engine, input: Input)
    requires stages >= 2 && Inv(g, rule, stages, e) && HarmlessRun(g, rule, e, [input]) && Waits(e)
    ensures Step(g, rule, e, input).Some?
    ensures var e' := Step(g, rule, e, input).value;
            if Ahead(e) == 0 then e'.emitted == e.emitted + [g(e.request.prompt + e.emitted)]
            else Waits(e') && Ahead(e') == Ahead(e) - 1 && e'.emitted == e.emitted
  {
    VerifyKeepsInvariant(g, rule, stages, e);
    var m := VerifyOldest(rule, e);
    AllowedCanSchedule(g, rule, stages, m, input.choice);
    if Ahead(e) == 0 {
      LiveResultIsGreedy(g, rule, stages, e);
    } else {
      VerifyKeepsDrafts(g, rule, stages, e);
      ScheduleKeepsDrafts(g, rule, m, input.choice, input.draft);
    }
  }

  /** The oldest draft in flight turns into exactly one new token for the user, and
      does so within N steps: as many as there are slots before its answer, and one. */
  lemma {:induction false} OldestDraftIsAnswered(g: Model, rule: StopRule, stages: nat, e: Engine, inputs: seq<Input>)
    requires stages >= 2 && Inv(g, rule, stages, e) && HarmlessRun(g, rule, e, inputs)
    requires Waits(e) && |inputs| == Ahead(e) + 1
    ensures Ahead(e) < stages
    ensures RunAll(g, rule, e, inputs).Some?
    ensures RunAll(g, rule, e, inputs).value.emitted == e.emitted + [g(e.request.prompt + e.emitted)]
    decreases |inputs|
  {
    StepKeepsInvariant(g, rule, stages, e, inputs[0]);
    var e' := Step(g, rule, e, inputs[0]).value;
    assert HarmlessRun(g, rule, e', []);
    assert HarmlessRun(g, rule, e, [inputs[0]]);
    OldestDraftAdvances(g, rule, stages, e, inputs[0]);
    if Ahead(e) > 0 {
      OldestDraftIsAnswered(g, rule, stages, e', inputs[1..]);
    } else {
      assert RunAll(g, rule, e', inputs[1..]) == Some(e');
    }
  }

  /** In every state of a harmless run, drafts in flight do wait for an answer. */
  lemma DraftsWait(g: Model, rule: StopRule, stages: nat, e: Engine)
    requires Inv(g, rule, stages, e) && !e.phase.Finished?
    ensures e.request.spLen > 0 ==> Waits(e)
  {
  }

  // --------------------------------------------- a launch with nothing left to flush

  /** Results are flushed, and the count of results to flush has missed zero. */
  predicate Stuck(r: RequestState) {
    r.Wrong() && r.check.flushLen <= 0
  }

  /** A verification leaves the request stuck exactly when it corrects the only
      draft in flight of a request that is not dropped. */
  lemma StuckExactlyOnLastDraft(r: RequestState, token: Token)
    requires r.output != [] && r.InRange() && r.spLen > 0 && !r.Wrong()
    requires r.drop.On() ==> r.drop.len == r.spLen
    ensures Stuck(Verify(r, token).0) <==> !r.drop.On() && r.spLen == 1 && r.output[|r.output| - 1] != token
  {
  }

  predicate NeverPreempted(inputs: seq<Input>) {
    forall i | 0 <= i < |inputs| :: !inputs[i].choice.Preempt?
  }

  ghost predicate StuckRunning(rule: StopRule, e: Engine) {
    && e.phase.Running? && Stuck(e.request) && e.request.InRange()
    && !Stops(rule, |e.request.prompt|, e.request.Verified())
  }

  lemma StuckVerify(rule: StopRule, e: Engine)
    requires StuckRunning(rule, e) && CanVerify(e)
    ensures var m := VerifyOldest(rule, e); StuckRunning(rule, m) && m.emitted == e.emitted
  {
    assert VerifyOldest(rule, e).request.Verified() == e.request.Verified();
  }

  lemma StuckSchedule(g: Model, rule: StopRule, e: Engine, choice: Choice, draft: Token)
    requires StuckRunning(rule, e) && !choice.Preempt? && CanSchedule(e, choice)
    ensures var e' := Schedule(g, rule, e, choice, draft); StuckRunning(rule, e') && e'.emitted == e.emitted
  {
    assert Schedule(g, rule, e, choice, draft).request.Verified() == e.request.Verified();
  }

  lemma StuckStep(g: Model, rule: StopRule, e: Engine, input: Input)
    requires StuckRunning(rule, e) && !input.choice.Preempt? && Step(g, rule, e, input).Some?
    ensures var e' := Step(g, rule, e, input).value; StuckRunning(rule, e') && e'.emitted == e.emitted
  {
    StuckVerify(rule, e);
    StuckSchedule(g, rule, VerifyOldest(rule, e), input.choice, input.draft);
  }

  /** A stuck request sends nothing more and never finishes, however long it
      runs, unless it is preempted. */
  lemma {:induction false} StuckForever(g: Model, rule: StopRule, e: Engine, inputs: seq<Input>)
    requires StuckRunning(rule, e) && NeverPreempted(inputs) && RunAll(g, rule, e, inputs).Some?
    ensures var e' := RunAll(g, rule, e, inputs).value; StuckRunning(rule, e') && e'.emitted == e.emitted
    decreases |inputs|
  {
    if inputs != [] {
      StuckStep(g, rule, e, inputs[0]);
      StuckForever(g, rule, Step(g, rule, e, inputs[0]).value, inputs[1..]);
    }
  }

  /** A preemption repairs it only before the next launch: once nothing is in
      flight, drafts that were never answered count as verified. */
  lemma PreemptionVerifiesUnansweredDrafts(rule: StopRule, e: Engine)
    requires StuckRunning(rule, e) && AllIdle(e.slots)
    ensures var e' := PreemptRequest(e);
      && e'.phase.Waiting? && e'.emitted == e.emitted
      && e'.request.Verified() == e.request.output
      && (e'.request.Verified() == e.request.Verified() <==> e.request.spLen == 0)
  {
    var e' := PreemptRequest(e);
    assert e'.request.Verified() == e.request.output[..|e.request.output|] == e.request.output;
    assert |e.request.Verified()| == |e.request.output| - e.request.spLen;
  }

  // ------------------------------------------------------- a correction that is lost

  /** The worker's record is longer than the output, and no correction is on its way. */
  ghost predicate Silenced(rule: StopRule, e: Engine) {
    var r := e.request;
    && !e.phase.Finished? && !e.isNew && e.postFix.None?
    && r.InRange() && r.spLen == 0 && r.output != [] && r.numComputed >= 0
    && (r.Wrong() ==> !r.check.justFixed && e.cached && r.check.flushLen >= 1)
    && |Results(e.slots)| == Stale(r) && |e.mirror| > |r.output|
    && !Stops(rule, |r.prompt|, r.output)
  }

  /** Flushing a correction that the worker still needs silences the request. */
  lemma LostCorrectionSilences(g: Model, rule: StopRule, stages: nat, e: Engine)
    requires stages >= 2 && Inv(g, rule, stages, e) && LosesCorrection(e) && e.request.numComputed >= 0
    ensures CanVerify(e) && Silenced(rule, VerifyOldest(rule, e))
    ensures VerifyOldest(rule, e).emitted == e.emitted
  {
    ResultInFront(g, e);
    var r := e.request;
    assert r.Verified() == r.output == e.emitted;
    assert e.emitted[..|e.emitted|] == e.emitted;
    assert !Stops(rule, |r.prompt|, r.output);
    assert VerifyOldest(rule, e).request.Verified() == e.emitted;
  }

  lemma SilencedVerify(g: Model, rule: StopRule, e: Engine)
    requires Silenced(rule, e) && CanVerify(e)
    ensures var m := VerifyOldest(rule, e); Silenced(rule, m) && m.emitted == e.emitted
  {
    assert e.request.output[..|e.request.output|] == e.request.output;
    if e.slots[0].HasToken() {
      assert Results(e.slots) == [e.slots[0].result.value] + Results(e.slots[1..]);
    } else {
      assert Results(e.slots) == Results(e.slots[1..]);
    }
  }

  lemma SilencedSchedule(g: Model, rule: StopRule, e: Engine, choice: Choice, draft: Token)
    requires Silenced(rule, e) && CanSchedule(e, choice)
    ensures var e' := Schedule(g, rule, e, choice, draft); Silenced(rule, e') && e'.emitted == e.emitted
    ensures choice.Run? ==> Schedule(g, rule, e, choice, draft).request.numComputed == Admit(e).request.numComputed + choice.n
  {
    if choice.Run? {
      SilencedLaunch(g, rule, e, choice.n, draft);
    } else {
      ResultsSnoc(e.slots, Idle);
      if choice.Preempt? || e.phase.Draining? {
        SilencedPreempt(rule, e);
        SilencedPreempt(rule, e.(request := e.request.(drop := e.request.drop.(end := false))));
      }
    }
  }

  lemma SilencedPreempt(rule: StopRule, e: Engine)
    requires Silenced(rule, e)
    ensures var e' := PreemptRequest(e); Silenced(rule, e'.(slots := e'.slots + [Idle])) && e'.emitted == e.emitted
  {
    ResultsSnoc(e.slots, Idle);
    if AllIdle(e.slots) {
      NoResults(e.slots);
    }
  }

  lemma SilencedLaunch(g: Model, rule: StopRule, e: Engine, n: nat, draft: Token)
    requires Silenced(rule, e) && CanSchedule(e, Run(n))
    ensures var e' := Schedule(g, rule, e, Run(n), draft);
      Silenced(rule, e') && e'.emitted == e.emitted && e'.request.numComputed == Admit(e).request.numComputed + n
  {
    var a := Admit(e);
    assert SyncMirror(a, n) == e.mirror && !Sampled(a, n);
    PartialShape(g, rule, a, n, draft);
    ResultsSnoc(e.slots, Busy(None));
  }

  lemma SilencedStep(g: Model, rule: StopRule, e: Engine, input: Input)
    requires Silenced(rule, e) && Step(g, rule, e, input).Some?
    ensures var e' := Step(g, rule, e, input).value; Silenced(rule, e') && e'.emitted == e.emitted
  {
    SilencedVerify(g, rule, e);
    SilencedSchedule(g, rule, VerifyOldest(rule, e), input.choice, input.draft);
  }

  /** A silenced request sends nothing more and never finishes, whatever the
      scheduler does, preemptions included. */
  lemma {:induction false} SilencedForever(g: Model, rule: StopRule, e: Engine, inputs: seq<Input>)
    requires Silenced(rule, e) && RunAll(g, rule, e, inputs).Some?
    ensures var e' := RunAll(g, rule, e, inputs).value; Silenced(rule, e') && e'.emitted == e.emitted
    decreases |inputs|
  {
    if inputs != [] {
      SilencedStep(g, rule, e, inputs[0]);
      SilencedForever(g, rule, Step(g, rule, e, inputs[0]).value, inputs[1..]);
    }
  }

  /** ... and once it has run its last token, there is none left to run: the
      scheduler's assertion that there is one fails. */
  lemma SilencedRunsDry(g: Model, rule: StopRule, e: Engine, n: nat, draft: Token)
    requires Silenced(rule, e) && CanSchedule(e, Run(n)) && Admit(e).request.numComputed + n == e.request.NumTokens()
    ensures var e' := Schedule(g, rule, e, Run(n), draft);
      e'.phase.Running? && e'.request.NumTokens() - e'.request.numComputed == 0
      && forall k: nat :: !Allowed(e', Run(k))
  {
    SilencedSchedule(g, rule, e, Run(n), draft);
  }

  // ------------------------------------------------------------ a drop without drafts

  /** The request waits for its drop to end, and no result will end it. */
  ghost predicate WaitsInVain(rule: StopRule, e: Engine) {
    var r := e.request;
    && e.phase.Running? && r.drop.On() && !PendingRealToken(r)
    && r.InRange() && r.spLen == 0 && (r.Wrong() ==> r.output != [] && r.check.flushLen >= 1)
    && |Results(e.slots)| == Stale(r)
    && !Stops(rule, |r.prompt|, r.output)
  }

  /** Dropping a request leaves it waiting in vain exactly when it has no drafts. */
  lemma DropWaitsInVainExactlyWhen(g: Model, rule: StopRule, stages: nat, e: Engine, draft: Token)
    requires MidInv(g, rule, stages, e) && CanSchedule(e, DropSpeculation)
    ensures WaitsInVain(rule, Schedule(g, rule, e, DropSpeculation, draft)) <==> e.request.spLen == 0
  {
    if e.request.spLen == 0 {
      DroppedWithoutDrafts(g, rule, stages, e, draft);
    }
  }

  lemma DroppedWithoutDrafts(g: Model, rule: StopRule, stages: nat, e: Engine, draft: Token)
    requires MidInv(g, rule, stages, e) && CanSchedule(e, DropSpeculation) && e.request.spLen == 0
    ensures WaitsInVain(rule, Schedule(g, rule, e, DropSpeculation, draft))
  {
    ResultsSnoc(e.slots, Idle);
    NothingToVerify(g, rule, stages, e);
    var e' := e.(request := e.request.(drop := e.request.drop.(confidence := true, len := 0)), slots := e.slots + [Idle]);
    assert WaitsInVain(rule, e');
  }

  lemma NothingToVerify(g: Model, rule: StopRule, stages: nat, e: Engine)
    requires MidInv(g, rule, stages, e) && e.phase.Running? && !PendingRealToken(e.request) && e.request.spLen == 0
    ensures e.request.output != [] && !Stops(rule, |e.request.prompt|, e.request.output)
    ensures e.request.Wrong() ==> e.request.check.flushLen >= 1
    ensures |Results(e.slots)| == Stale(e.request)
  {
    assert e.request.Verified() == e.request.output == e.emitted;
    assert e.request.output != [];
    NotStoppedYet(g, rule, e);
  }

  lemma NotStoppedYet(g: Model, rule: StopRule, e: Engine)
    requires Faithful(g, rule, e) && !e.phase.Finished? && e.emitted != []
    ensures !Stops(rule, |e.request.prompt|, e.emitted)
  {
  }

  lemma InVainStep(g: Model, rule: StopRule, e: Engine, input: Input)
    requires WaitsInVain(rule, e) && !input.choice.Preempt? && Step(g, rule, e, input).Some?
    ensures var e' := Step(g, rule, e, input).value; WaitsInVain(rule, e') && e'.emitted == e.emitted
  {
    assert e.request.output[..|e.request.output|] == e.request.output;
    if e.slots[0].HasToken() {
      assert Results(e.slots) == [e.slots[0].result.value] + Results(e.slots[1..]);
    } else {
      assert Results(e.slots) == Results(e.slots[1..]);
    }
    ResultsSnoc(e.slots[1..], Idle);
  }

  /** Such a request sends nothing more and never finishes, unless it is preempted. */
  lemma {:induction false} InVainForever(g: Model, rule: StopRule, e: Engine, inputs: seq<Input>)
    requires WaitsInVain(rule, e) && NeverPreempted(inputs) && RunAll(g, rule, e, inputs).Some?
    ensures var e' := RunAll(g, rule, e, inputs).value; WaitsInVain(rule, e') && e'.emitted == e.emitted
    decreases |inputs|
  {
    if inputs != [] {
      InVainStep(g, rule, e, inputs[0]);
      InVainForever(g, rule, Step(g, rule, e, inputs[0]).value, inputs[1..]);
    }
  }

  // -------------------------------------------------------------------- runs that fail

  const NO_STOP := StopRule(1000, 1000, {})
  const NO_DROP := Drop(false, false, 0, false)

  lemma {:induction false} RunAllConcat(g: Model, rule: StopRule, e: Engine, before: seq<Input>, after: seq<Input>)
    requires RunAll(g, rule, e, before).Some?
    ensures RunAll(g, rule, e, before + after) == RunAll(g, rule, RunAll(g, rule, e, before).value, after)
    decreases |before|
  {
    if before == [] {
      assert before + after == after;
    } else {
      assert (before + after)[1..] == before[1..] + after;
      RunAllConcat(g, rule, Step(g, rule, e, before[0]).value, before[1..], after);
    }
  }

  /** Some run of a one-token prompt in a pipeline of `stages` stages ends in `e`. */
  ghost predicate Reachable(g: Model, rule: StopRule, stages: nat, e: Engine) {
    exists inputs :: RunAll(g, rule, Init([7], stages), inputs) == Some(e)
  }

  lemma ReachableStep(g: Model, rule: StopRule, stages: nat, e: Engine, input: Input, e': Engine)
    requires Reachable(g, rule, stages, e) && Step(g, rule, e, input) == Some(e')
    ensures Reachable(g, rule, stages, e')
  {
    var inputs :| RunAll(g, rule, Init([7], stages), inputs) == Some(e);
    RunAllConcat(g, rule, Init([7], stages), inputs, [input]);
    assert RunAll(g, rule, e', [input][1..]) == Some(e');
    assert RunAll(g, rule, Init([7], stages), inputs + [input]) == Some(e');
  }

  lemma ReachableVia(g: Model, rule: StopRule, stages: nat, e: Engine, m: Engine, input: Input, e': Engine)
    requires Reachable(g, rule, stages, e) && CanVerify(e) && VerifyOldest(rule, e) == m
    requires CanSchedule(m, input.choice) && Schedule(g, rule, m, input.choice, input.draft) == e'
    ensures Reachable(g, rule, stages, e')
  {
    ReachableStep(g, rule, stages, e, input, e');
  }

  /** A one-token prompt after its first step. */
  function AfterPrefill(g: Model, stages: nat, draft: Token): Engine
    requires stages >= 2
  {
    Engine(Running, RequestState([7], [draft], 1, 1, NO_CHECK, NO_DROP),
           seq(stages - 1, _ => Idle) + [Busy(Some(g([7])))], [7], [], false, false, None, [])
  }

  lemma AfterPrefillReachable(g: Model, rule: StopRule, stages: nat, draft: Token)
    requires stages >= 2 && !Stops(rule, 1, [draft])
    ensures Reachable(g, rule, stages, AfterPrefill(g, stages, draft))
  {
    var e := Init([7], stages);
    var m := VerifyOldest(rule, e);
    assert m.slots == seq(stages - 1, _ => Idle);
    assert m.request.AllTokens() == [7] && m.request.output + [draft] == [draft];
    assert m.kv[..0] + Embedded(Admit(m), 1) == [7];
    assert RunAll(g, rule, e, []) == Some(e);
    ReachableStep(g, rule, stages, e, Input(Run(1), draft), AfterPrefill(g, stages, draft));
  }

  /** The same, one skipped step later, in a two-stage pipeline. */
  function Skipped(g: Model, draft: Token): Engine {
    AfterPrefill(g, 2, draft).(slots := [Busy(Some(g([7]))), Idle])
  }

  lemma SkippedReachable(g: Model, draft: Token)
    ensures Reachable(g, NO_STOP, 2, Skipped(g, draft))
  {
    var e := AfterPrefill(g, 2, draft);
    AfterPrefillReachable(g, NO_STOP, 2, draft);
    assert e.slots[1..] + [Idle] == Skipped(g, draft).slots;
    ReachableStep(g, NO_STOP, 2, e, Input(Skip, 0), Skipped(g, draft));
  }

  /** One step without budget is enough: the request waits with a single draft, and
      is stuck if that is not the token that verifies it. */
  lemma OneSkippedStepSticks(g: Model, draft: Token)
    requires g([7]) != draft
    ensures Reachable(g, NO_STOP, 2, Skipped(g, draft)) && CanVerify(Skipped(g, draft))
    ensures StuckRunning(NO_STOP, VerifyOldest(NO_STOP, Skipped(g, draft)))
  {
    SkippedReachable(g, draft);
  }

  /** If it is, the request has no draft left, and a drop leaves it waiting in vain. */
  lemma OneSkippedStepAndADrop(g: Model)
    ensures exists e :: Reachable(g, NO_STOP, 2, e) && WaitsInVain(NO_STOP, e) && e.emitted == Greedy(g, [7], 1)
  {
    var d := g([7]);
    var e, e' := Skipped(g, d), DroppedInVain(g);
    SkippedReachable(g, d);
    var m := VerifyOldest(NO_STOP, e);
    assert m.slots == [Idle] && m.slots + [Idle] == [Idle, Idle] && m.emitted == [d] && m.request.Verified() == [d];
    assert Schedule(g, NO_STOP, m, DropSpeculation, 0) == e';
    ReachableVia(g, NO_STOP, 2, e, m, Input(DropSpeculation, 0), e');
    InVain(g);
  }

  function DroppedInVain(g: Model): Engine {
    Engine(Running, RequestState([7], [g([7])], 1, 0, Check(Right, 0, false, 0), Drop(true, false, 0, false)),
           [Idle, Idle], [7], [], false, false, None, [g([7])])
  }

  lemma InVain(g: Model)
    ensures WaitsInVain(NO_STOP, DroppedInVain(g)) && DroppedInVain(g).emitted == Greedy(g, [7], 1)
  {
    NoResults([Idle, Idle]);
    assert [7] + [] == [7] && Greedy(g, [7], 1) == [g([7])];
    assert DroppedInVain(g).request.output[..1] == [g([7])];
  }

  // ------------------------------------------------- three stages, a correction lost

  function TwoDrafts(g: Model, d: Token, x: Token): Engine {
    Engine(Running, RequestState([7], [d, x], 2, 2, NO_CHECK, NO_DROP),
           [Idle, Busy(Some(g([7]))), Busy(Some(g([7, d])))], [7, d], [d], false, true, None, [])
  }

  function ThreeDrafts(g: Model, d: Token, x: Token, y: Token): Engine {
    Engine(Running, RequestState([7], [d, x, y], 3, 3, NO_CHECK, NO_DROP),
           [Busy(Some(g([7]))), Busy(Some(g([7, d]))), Busy(Some(g([7, d, x])))], [7, d, x], [d, x], false, true, None, [])
  }

  /** The first result rejects the drafts, and the request is skipped. */
  function UnsentCorrection(g: Model, d: Token, x: Token): Engine {
    Engine(Running, RequestState([7], [g([7])], 1, 0, Check(Wrong, 2, true, 0), NO_DROP),
           [Busy(Some(g([7, d]))), Busy(Some(g([7, d, x]))), Idle], [7, d, x], [d, x], false, true, None, [g([7])])
  }

  /** A launch of the newest token, spelled out. */
  lemma NextToken(g: Model, rule: StopRule, e: Engine, draft: Token)
    requires e.phase.Running? && !e.isNew && e.postFix.None? && !FixToSend(e) && e.request.output != []
    requires e.request.numComputed == e.request.NumTokens() - 1 <= |e.kv|
    requires e.kv[..e.request.numComputed] == e.request.AllTokens()[..e.request.numComputed]
    requires e.mirror == e.request.output[..|e.request.output| - 1]
    requires !Stops(rule, |e.request.prompt|, e.request.output + [draft])
    ensures CanLaunch(e, 1)
    ensures var r := e.request;
      Launch(g, rule, e, 1, draft) == e.(
        kv := r.AllTokens(), mirror := r.output, cached := true, slots := e.slots + [Busy(Some(g(r.AllTokens())))],
        request := r.(numComputed := r.NumTokens(), output := r.output + [draft], spLen := r.spLen + 1,
                      drop := r.drop.(end := false)))
  {
    var r, all := e.request, e.request.AllTokens();
    var last := r.output[|r.output| - 1];
    assert NewTokenIds(e, 1) == [last];
    assert all[..|all| - 1] + [last] == all;
    assert SyncMirror(e, 1) == e.mirror + [last] == r.output;
  }

  /** A launch that sends the correction, spelled out. */
  lemma CorrectedToken(g: Model, rule: StopRule, e: Engine, draft: Token)
    requires e.phase.Running? && !e.isNew && e.postFix.None? && FixToSend(e)
    requires 0 <= e.request.check.fixedIdx < |e.request.output| && e.request.check.fixedIdx <= |e.mirror|
    requires 0 <= e.request.numComputed == e.request.NumTokens() - 1 <= |e.kv|
    requires !Stops(rule, |e.request.prompt|, e.request.output + [draft])
    ensures CanLaunch(e, 1)
    ensures var r := e.request; var i := r.check.fixedIdx; var kv := e.kv[..r.numComputed] + [r.output[i]];
      Launch(g, rule, e, 1, draft) == e.(
        kv := kv, mirror := e.mirror[..i] + [r.output[i]], cached := true, slots := e.slots + [Busy(Some(g(kv)))],
        request := r.(numComputed := r.NumTokens(), output := r.output + [draft], spLen := r.spLen + 1,
                      drop := r.drop.(end := false)))
  {
  }

  lemma TwoDraftsReachable(g: Model, d: Token, x: Token)
    ensures Reachable(g, NO_STOP, 3, TwoDrafts(g, d, x))
  {
    var e := AfterPrefill(g, 3, d);
    AfterPrefillReachable(g, NO_STOP, 3, d);
    var m := VerifyOldest(NO_STOP, e);
    assert m == e.(slots := [Idle, Busy(Some(g([7])))]);
    assert m.request.AllTokens() == [7, d] && m.request.output + [x] == [d, x];
    NextToken(g, NO_STOP, m, x);
    assert Schedule(g, NO_STOP, m, Run(1), x) == TwoDrafts(g, d, x);
    ReachableVia(g, NO_STOP, 3, e, m, Input(Run(1), x), TwoDrafts(g, d, x));
  }

  lemma ThreeDraftsReachable(g: Model, d: Token, x: Token, y: Token)
    ensures Reachable(g, NO_STOP, 3, ThreeDrafts(g, d, x, y))
  {
    var e := TwoDrafts(g, d, x);
    TwoDraftsReachable(g, d, x);
    var m := VerifyOldest(NO_STOP, e);
    assert m == e.(slots := e.slots[1..]);
    assert m.request.AllTokens() == [7, d, x] && m.request.output + [y] == [d, x, y];
    NextToken(g, NO_STOP, m, y);
    assert Schedule(g, NO_STOP, m, Run(1), y) == ThreeDrafts(g, d, x, y);
    ReachableVia(g, NO_STOP, 3, e, m, Input(Run(1), y), ThreeDrafts(g, d, x, y));
  }

  lemma UnsentCorrectionReachable(g: Model, d: Token, x: Token)
    requires g([7]) != d
    ensures Reachable(g, NO_STOP, 3, UnsentCorrection(g, d, x))
  {
    var e0, e := ThreeDrafts(g, d, x, 0), UnsentCorrection(g, d, x);
    ThreeDraftsReachable(g, d, x, 0);
    var m0 := VerifyOldest(NO_STOP, e0);
    assert m0.request.output == [] + [g([7])] == [g([7])] && m0.emitted == [g([7])];
    assert m0.slots + [Idle] == e.slots;
    assert Schedule(g, NO_STOP, m0, Skip, 0) == e;
    ReachableVia(g, NO_STOP, 3, e0, m0, Input(Skip, 0), e);
  }

  /** What flushing the next result makes of it. */
  lemma LostCorrection(g: Model, d: Token, x: Token)
    ensures var e := UnsentCorrection(g, d, x);
      && LosesCorrection(e) && CanVerify(e) && Silenced(NO_STOP, VerifyOldest(NO_STOP, e))
  {
    var e := UnsentCorrection(g, d, x);
    var m := VerifyOldest(NO_STOP, e);
    var last := Busy(Some(g([7, d, x])));
    assert m.slots == [last, Idle];
    assert Results([Idle]) == [] && [last, Idle][1..] == [Idle];
    assert |Results(m.slots)| == 1;
  }

  /** In three stages one skipped step right after a correction loses it; the next
      launch is discarded, and then there is no token left to run. */
  lemma SkippedCorrectionIsLost(g: Model, d: Token, x: Token, y: Token)
    requires g([7]) != d
    ensures var e := UnsentCorrection(g, d, x);
      && Reachable(g, NO_STOP, 3, e) && LosesCorrection(e) && CanVerify(e)
      && var m := VerifyOldest(NO_STOP, e);
         Silenced(NO_STOP, m) && CanSchedule(m, Run(1))
         && forall k: nat :: !Allowed(Schedule(g, NO_STOP, m, Run(1), y), Run(k))
  {
    UnsentCorrectionReachable(g, d, x);
    LostCorrection(g, d, x);
    var m := VerifyOldest(NO_STOP, UnsentCorrection(g, d, x));
    assert m.request.AllTokens() == [7, g([7])];
    SilencedRunsDry(g, NO_STOP, m, 1, y);
  }

  // ---------------------------------------------- three stages, a correction sent twice

  /** One skipped step leaves a gap between the first result and the second. */
  function Gap(g: Model, d: Token): Engine {
    AfterPrefill(g, 3, d).(slots := [Idle, Busy(Some(g([7]))), Idle])
  }

  function BehindTheGap(g: Model, d: Token, x: Token): Engine {
    TwoDrafts(g, d, x).(slots := [Busy(Some(g([7]))), Idle, Busy(Some(g([7, d])))])
  }

  /** The correction was sent, and a draft made; no result was flushed yet. */
  function CorrectionSent(g: Model, d: Token, a: Token): Engine {
    var c := g([7]);
    Engine(Running, RequestState([7], [c, a], 2, 1, Check(Wrong, 1, true, 0), NO_DROP),
           [Idle, Busy(Some(g([7, d]))), Busy(Some(g([7, c])))], [7, c], [c], false, true, None, [c])
  }

  /** It was sent again, in the place of the draft. */
  function SentTwice(g: Model, d: Token, a: Token, b: Token): Engine {
    var c := g([7]);
    Engine(Running, RequestState([7], [c, a, b], 3, 2, Check(Wrong, 1, true, 0), NO_DROP),
           [Busy(Some(g([7, d]))), Busy(Some(g([7, c]))), Busy(Some(g([7, c, c])))], [7, c, c], [c], false, true, None, [c])
  }

  function Flushed(g: Model, d: Token, a: Token, b: Token): Engine {
    var c := g([7]);
    Engine(Running, RequestState([7], [c, a, b], 3, 2, Check(Unset, 0, false, 0), NO_DROP),
           [Busy(Some(g([7, c]))), Busy(Some(g([7, c, c]))), Idle], [7, c, c], [c], false, true, None, [c])
  }

  function Confirmed(g: Model, d: Token, a: Token, b: Token): Engine {
    var c := g([7]);
    Engine(Running, RequestState([7], [c, a, b], 3, 1, Check(Right, 0, false, 0), NO_DROP),
           [Busy(Some(g([7, c, c]))), Idle, Idle], [7, c, c], [c], false, true, None, [c, a])
  }

  lemma GapReachable(g: Model, d: Token)
    ensures Reachable(g, NO_STOP, 3, Gap(g, d))
  {
    var e := AfterPrefill(g, 3, d);
    AfterPrefillReachable(g, NO_STOP, 3, d);
    assert e.slots[1..] + [Idle] == Gap(g, d).slots;
    ReachableStep(g, NO_STOP, 3, e, Input(Skip, 0), Gap(g, d));
  }

  lemma BehindTheGapReachable(g: Model, d: Token, x: Token)
    ensures Reachable(g, NO_STOP, 3, BehindTheGap(g, d, x))
  {
    var e := Gap(g, d);
    GapReachable(g, d);
    var m := VerifyOldest(NO_STOP, e);
    assert m == e.(slots := [Busy(Some(g([7]))), Idle]);
    assert m.request.AllTokens() == [7, d] && m.request.output + [x] == [d, x];
    NextToken(g, NO_STOP, m, x);
    assert Schedule(g, NO_STOP, m, Run(1), x) == BehindTheGap(g, d, x);
    ReachableVia(g, NO_STOP, 3, e, m, Input(Run(1), x), BehindTheGap(g, d, x));
  }

  /** The first result rejects both drafts. */
  function CorrectionMade(g: Model, d: Token): Engine {
    var c := g([7]);
    Engine(Running, RequestState([7], [c], 1, 0, Check(Wrong, 1, true, 0), NO_DROP),
           [Idle, Busy(Some(g([7, d])))], [7, d], [d], false, true, None, [c])
  }

  lemma GapIsCorrected(g: Model, d: Token)
    requires g([7]) != d
    ensures CanVerify(BehindTheGap(g, d, 0)) && VerifyOldest(NO_STOP, BehindTheGap(g, d, 0)) == CorrectionMade(g, d)
  {
    var m := VerifyOldest(NO_STOP, BehindTheGap(g, d, 0));
    assert m.request.output == [] + [g([7])] == [g([7])] && m.emitted == [g([7])] && m.slots == CorrectionMade(g, d).slots;
  }

  lemma CorrectionIsSent(g: Model, d: Token, a: Token)
    ensures CanSchedule(CorrectionMade(g, d), Run(1))
    ensures Schedule(g, NO_STOP, CorrectionMade(g, d), Run(1), a) == CorrectionSent(g, d, a)
  {
    var m, c := CorrectionMade(g, d), g([7]);
    assert m.kv[..1] + [c] == [7, c] && m.mirror[..0] + [c] == [c] && m.request.output + [a] == [c, a];
    assert !Stops(NO_STOP, 1, [c, a]);
    CorrectedToken(g, NO_STOP, m, a);
    assert m.slots + [Busy(Some(g([7, c])))] == CorrectionSent(g, d, a).slots;
  }

  lemma CorrectionSentReachable(g: Model, d: Token, a: Token)
    requires g([7]) != d
    ensures Reachable(g, NO_STOP, 3, CorrectionSent(g, d, a))
  {
    BehindTheGapReachable(g, d, 0);
    GapIsCorrected(g, d);
    CorrectionIsSent(g, d, a);
    ReachableVia(g, NO_STOP, 3, BehindTheGap(g, d, 0), CorrectionMade(g, d), Input(Run(1), a), CorrectionSent(g, d, a));
  }

  lemma SentTwiceReachable(g: Model, d: Token, a: Token, b: Token)
    requires g([7]) != d && g([7]) != a
    ensures SendsForAnother(VerifyOldest(NO_STOP, CorrectionSent(g, d, a)))
    ensures Reachable(g, NO_STOP, 3, SentTwice(g, d, a, b))
  {
    var e, c := CorrectionSent(g, d, a), g([7]);
    CorrectionSentReachable(g, d, a);
    var m := VerifyOldest(NO_STOP, e);
    assert m == e.(slots := e.slots[1..]);
    assert m.kv[..2] + [c] == [7, c, c] && m.mirror[..0] + [c] == [c] && m.request.output + [b] == [c, a, b];
    CorrectedToken(g, NO_STOP, m, b);
    assert Schedule(g, NO_STOP, m, Run(1), b) == SentTwice(g, d, a, b);
    ReachableVia(g, NO_STOP, 3, e, m, Input(Run(1), b), SentTwice(g, d, a, b));
  }

  lemma FlushedReachable(g: Model, d: Token, a: Token, b: Token)
    requires g([7]) != d && g([7]) != a
    ensures Reachable(g, NO_STOP, 3, Flushed(g, d, a, b))
  {
    var e0, e1 := SentTwice(g, d, a, b), Flushed(g, d, a, b);
    SentTwiceReachable(g, d, a, b);
    var m0 := VerifyOldest(NO_STOP, e0);
    assert m0.request.Verified() == [g([7])] && m0.slots + [Idle] == e1.slots;
    assert Schedule(g, NO_STOP, m0, Skip, 0) == e1;
    ReachableVia(g, NO_STOP, 3, e0, m0, Input(Skip, 0), e1);
  }

  lemma ConfirmedReachable(g: Model, d: Token, a: Token, b: Token)
    requires g([7]) != d && g([7]) != a && a == g([7, g([7])])
    ensures Reachable(g, NO_STOP, 3, Confirmed(g, d, a, b))
  {
    var e1, e2 := Flushed(g, d, a, b), Confirmed(g, d, a, b);
    FlushedReachable(g, d, a, b);
    var m1 := VerifyOldest(NO_STOP, e1);
    assert m1.request.Verified() == [g([7]), a] && m1.slots + [Idle] == e2.slots && m1.emitted == e2.emitted;
    assert Schedule(g, NO_STOP, m1, Skip, 0) == e2;
    ReachableVia(g, NO_STOP, 3, e1, m1, Input(Skip, 0), e2);
  }

  /** The user then receives a token computed on the corrected token twice over,
      where greedy decoding goes on from the second token. */
  lemma CorrectionSentTwiceSendsAnotherToken(g: Model, d: Token, b: Token)
    requires var c := g([7]); d != c && g([7, c]) != c && g([7, c, c]) != g([7, c, g([7, c])])
    ensures var (c, a) := (g([7]), g([7, g([7])])); var e := Confirmed(g, d, a, b);
      && Reachable(g, NO_STOP, 3, e) && CanVerify(e)
      && VerifyOldest(NO_STOP, e).emitted == [c, a, g([7, c, c])]
      && Greedy(g, [7], 3) == [c, a, g([7, c, a])] != VerifyOldest(NO_STOP, e).emitted
  {
    var c := g([7]);
    var a := g([7, c]);
    ConfirmedReachable(g, d, a, b);
    ThreeGreedyTokens(g);
  }

  lemma ThreeGreedyTokens(g: Model)
    ensures var (c, a) := (g([7]), g([7, g([7])])); Greedy(g, [7], 2) == [c, a] && Greedy(g, [7], 3) == [c, a, g([7, c, a])]
  {
    assert [7] + [] == [7] && [7] + [g([7])] == [7, g([7])];
    assert Greedy(g, [7], 1) == [g([7])];
    var a := g([7, g([7])]);
    assert [7] + [g([7]), a] == [7, g([7]), a];
  }

  // -------------------------------------------- a resumed prefill cut one short

  /** The worker miscounts exactly the batches that end short of the last token, at
      or behind the end of its record. */
  lemma MiscountedExactlyWhenShort(g: Model, rule: StopRule, stages: nat, e: Engine, n: nat)
    requires MidInv(g, rule, stages, e) && CanSchedule(e, Run(n))
    ensures var a := Admit(e);
            (Sampled(a, n) <==> a.request.numComputed + n == a.request.NumTokens()) <==> !EndsShort(a, n)
  {
    SampledExactly(g, rule, stages, e, n);
  }

  lemma WholePrefix(kv: seq<Token>, all: seq<Token>, from: nat)
    requires from <= |all| && from <= |kv| && kv[..from] == all[..from]
    ensures kv[..from] + all[from..|all|] == all
  {
  }

  /** A batch that reaches the last token, spelled out. */
  lemma LaunchToTheEnd(g: Model, rule: StopRule, e: Engine, n: nat, draft: Token)
    requires InRange(e.request, n) && e.request.numComputed <= |e.kv|
    requires e.phase.Waiting? || (e.postFix.None? && !FixToSend(e))
    requires e.request.numComputed + n == e.request.NumTokens() && Sampled(e, n)
    requires e.kv[..e.request.numComputed] == e.request.AllTokens()[..e.request.numComputed]
    ensures CanLaunch(e, n)
    ensures var r := e.request;
      Launch(g, rule, e, n, draft) == e.(
        phase := Running, kv := r.AllTokens(), mirror := SyncMirror(e, n), isNew := false, cached := !e.isNew,
        postFix := None, slots := e.slots + [Busy(Some(g(r.AllTokens())))],
        request := Drafted(r.(numComputed := r.NumTokens(), drop := r.drop.(end := r.drop.end && e.phase.Waiting?)),
                           draft, Stops(rule, |r.prompt|, r.output + [draft])))
  {
    WholePrefix(e.kv, e.request.AllTokens(), e.request.numComputed);
  }

  /** The request of `AfterPrefill`, confirmed, preempted and waiting again. */
  function Resumable(g: Model, dropEnd: bool): Engine {
    Engine(Waiting, RequestState([7], [g([7])], 0, 0, NO_CHECK, NO_DROP.(end := dropEnd)),
           [Idle, Idle], [7], [], false, false, None, [g([7])])
  }

  function Preempted(g: Model): Engine {
    AfterPrefill(g, 2, g([7])).(phase := Draining, slots := [Busy(Some(g([7]))), Idle])
  }

  lemma PreemptedReachable(g: Model)
    requires Reachable(g, NO_STOP, 2, AfterPrefill(g, 2, g([7])))
    ensures Reachable(g, NO_STOP, 2, Preempted(g))
  {
    var e := AfterPrefill(g, 2, g([7]));
    var m := VerifyOldest(NO_STOP, e);
    assert m.slots == [Busy(Some(g([7])))] && m.slots[0] != Idle;
    assert m.slots + [Idle] == Preempted(g).slots;
    ReachableVia(g, NO_STOP, 2, e, m, Input(Preempt(false), 0), Preempted(g));
  }

  lemma ResumableReachable(g: Model)
    requires Reachable(g, NO_STOP, 2, Preempted(g))
    ensures Reachable(g, NO_STOP, 2, Resumable(g, false))
  {
    var m := VerifyOldest(NO_STOP, Preempted(g));
    var d := g([7]);
    assert m.slots == [Idle] && m.request.Verified() == [d] && m.emitted == [d];
    assert m.slots + [Idle] == [Idle, Idle];
    ReachableVia(g, NO_STOP, 2, Preempted(g), m, Input(Skip, 0), Resumable(g, false));
  }

  /** The batch held the prompt only, but the worker, not knowing of the first
      output token, sampled. */
  function OneShort(g: Model, x: Token): Engine {
    var d := g([7]);
    Engine(Running, RequestState([7], [d, x], 1, 1, NO_CHECK, NO_DROP),
           [Idle, Busy(Some(d))], [7], [], false, true, None, [d])
  }

  lemma OneShortReachable(g: Model, x: Token)
    requires Reachable(g, NO_STOP, 2, Resumable(g, false))
    ensures EndsShort(VerifyOldest(NO_STOP, Resumable(g, false)), 1)
    ensures Reachable(g, NO_STOP, 2, OneShort(g, x))
  {
    var e := Resumable(g, false);
    var m := VerifyOldest(NO_STOP, e);
    var d := g([7]);
    assert m.slots == [Idle] && m.slots + [Busy(Some(d))] == [Idle, Busy(Some(d))];
    assert SyncMirror(m, 1) == [] && Sampled(m, 1);
    assert m.request.AllTokens() == [7, d] && Embedded(m, 1) == [7, d][0..1] == [7] && m.kv[..0] + [7] == [7];
    assert m.request.output + [x] == [d, x];
    ReachableVia(g, NO_STOP, 2, e, m, Input(Run(1), x), OneShort(g, x));
  }

  function AfterOneShort(g: Model, x: Token): Engine {
    var d := g([7]);
    Engine(Running, RequestState([7], [d, x, x], 3, 2, NO_CHECK, NO_DROP),
           [Busy(Some(d)), Busy(Some(g([7, d, x])))], [7, d, x], [d, x], false, true, None, [d])
  }

  lemma OneShortSends(g: Model, x: Token, m: Engine)
    requires m == OneShort(g, x).(slots := [Busy(Some(g([7])))])
    ensures CanVerify(OneShort(g, x)) && VerifyOldest(NO_STOP, OneShort(g, x)) == m
    ensures m.request.AllTokens() == [7, g([7]), x] && InRange(m.request, 2) && SyncMirror(m, 2) == [g([7]), x]
  {
    assert VerifyOldest(NO_STOP, OneShort(g, x)).slots == [Busy(Some(g([7])))];
    assert m.request.AllTokens() == [7, g([7]), x] && m.request.AllTokens()[1..3] == [g([7]), x];
  }

  lemma AfterOneShortReachable(g: Model, x: Token)
    requires Reachable(g, NO_STOP, 2, OneShort(g, x))
    ensures Reachable(g, NO_STOP, 2, AfterOneShort(g, x))
  {
    var d := g([7]);
    var m := OneShort(g, x).(slots := [Busy(Some(d))]);
    OneShortSends(g, x, m);
    LaunchToTheEnd(g, NO_STOP, m, 2, x);
    assert m.request.output + [x] == [d, x, x];
    assert m.slots + [Busy(Some(g([7, d, x])))] == AfterOneShort(g, x).slots;
    ReachableVia(g, NO_STOP, 2, OneShort(g, x), m, Input(Run(2), x), AfterOneShort(g, x));
  }

  /** The user receives the first token twice, where greedy decoding goes on. */
  lemma OneShortPrefillRepeatsAToken(g: Model, x: Token)
    requires x != g([7]) && g([7, g([7])]) != g([7])
    ensures var e := AfterOneShort(g, x); var d := g([7]);
            && Reachable(g, NO_STOP, 2, e) && CanVerify(e)
            && VerifyOldest(NO_STOP, e).emitted == [d, d] != Greedy(g, [7], 2)
  {
    AfterPrefillReachable(g, NO_STOP, 2, g([7]));
    PreemptedReachable(g);
    ResumableReachable(g);
    OneShortReachable(g, x);
    AfterOneShortReachable(g, x);
    ThreeGreedyTokens(g);
  }

  // ------------------------------------------------- a drop_end that is left over

  /** Relaunching a request whose drop is still counting leaves a count that is
      one short of its drafts, unless the new draft is a stop itself. */
  lemma RelaunchMiscountsTheDrop(g: Model, rule: StopRule, stages: nat, e: Engine, n: nat, draft: Token)
    requires MidInv(g, rule, stages, e) && CanSchedule(e, Run(n)) && Sampled(Admit(e), n)
    requires e.phase.Running? && e.request.drop.On()
    ensures var r := Schedule(g, rule, e, Run(n), draft).request;
            r.drop.On() && (r.drop.len == r.spLen <==> !RelaunchesDrop(rule, e, draft))
  {
  }

  const STOP_AT_9 := StopRule(1000, 1000, {9})

  function Dropped(g: Model): Engine {
    var e := AfterPrefill(g, 2, g([7]));
    e.(slots := [Busy(Some(g([7]))), Idle], request := e.request.(drop := Drop(true, false, 1, false)))
  }

  lemma DroppedReachable(g: Model)
    requires Reachable(g, STOP_AT_9, 2, AfterPrefill(g, 2, g([7])))
    ensures Reachable(g, STOP_AT_9, 2, Dropped(g))
  {
    var e := AfterPrefill(g, 2, g([7]));
    var m := VerifyOldest(STOP_AT_9, e);
    assert m.slots == [Busy(Some(g([7])))] && m.slots + [Idle] == Dropped(g).slots;
    ReachableVia(g, STOP_AT_9, 2, e, m, Input(DropSpeculation, 0), Dropped(g));
  }

  lemma DroppedResumableReachable(g: Model)
    requires !Stops(STOP_AT_9, 1, [g([7])]) && Reachable(g, STOP_AT_9, 2, Dropped(g))
    ensures Reachable(g, STOP_AT_9, 2, Resumable(g, true))
  {
    var d := g([7]);
    var m := VerifyOldest(STOP_AT_9, Dropped(g));
    assert m.slots == [Idle] && m.request.output == [d] && m.request.Verified() == [d] && m.emitted == [d];
    assert m.slots + [Idle] == [Idle, Idle];
    ReachableVia(g, STOP_AT_9, 2, Dropped(g), m, Input(Preempt(false), 0), Resumable(g, true));
  }

  /** The resumed request drafts a stop token, so it waits for its drop... */
  function Redropped(g: Model): Engine {
    var d := g([7]);
    Engine(Running, RequestState([7], [d, 9], 2, 1, NO_CHECK, Drop(false, true, 1, true)),
           [Idle, Busy(Some(g([7, d])))], [7, d], [d], false, true, None, [d])
  }

  lemma RedroppedReachable(g: Model)
    requires Reachable(g, STOP_AT_9, 2, Resumable(g, true))
    ensures Reachable(g, STOP_AT_9, 2, Redropped(g))
  {
    var d := g([7]);
    var m := VerifyOldest(STOP_AT_9, Resumable(g, true));
    assert m.slots == [Idle] && m.request.AllTokens() == [7, d] && Admit(m) == m;
    assert SyncMirror(m, 2) == [d] by {
      assert m.request.AllTokens()[0..2][1..] == [d];
    }
    LaunchToTheEnd(g, STOP_AT_9, m, 2, 9);
    assert Launch(g, STOP_AT_9, m, 2, 9) == Redropped(g) by {
      assert m.request.output + [9] == [d, 9];
      assert m.slots + [Busy(Some(g([7, d])))] == Redropped(g).slots;
    }
    ReachableVia(g, STOP_AT_9, 2, Resumable(g, true), m, Input(Run(2), 9), Redropped(g));
  }

  /** ... but the leftover drop_end runs it once more. */
  function Relaunched(g: Model): Engine {
    var d := g([7]);
    Engine(Running, RequestState([7], [d, 9, 5], 3, 2, NO_CHECK, Drop(false, true, 1, false)),
           [Busy(Some(g([7, d]))), Busy(Some(g([7, d, 9])))], [7, d, 9], [d, 9], false, true, None, [d])
  }

  lemma RelaunchedReachable(g: Model)
    requires Reachable(g, STOP_AT_9, 2, Redropped(g))
    ensures RelaunchesDrop(STOP_AT_9, VerifyOldest(STOP_AT_9, Redropped(g)), 5)
    ensures Reachable(g, STOP_AT_9, 2, Relaunched(g))
  {
    var d := g([7]);
    var m := VerifyOldest(STOP_AT_9, Redropped(g));
    assert m.slots == [Busy(Some(g([7, d])))] && m.request.AllTokens() == [7, d, 9];
    assert SyncMirror(m, 1) == [d, 9] by {
      assert m.request.AllTokens()[2..3] == [9];
    }
    LaunchToTheEnd(g, STOP_AT_9, m, 1, 5);
    assert m.request.output + [5] == [d, 9, 5];
    assert m.slots + [Busy(Some(g([7, d, 9])))] == Relaunched(g).slots;
    ReachableVia(g, STOP_AT_9, 2, Redropped(g), m, Input(Run(1), 5), Relaunched(g));
  }

  /** The rejected stop token ends up among the verified tokens, and the next
      result in flight, computed behind it, is taken for live. */
  lemma LeftoverDropEndKeepsARejectedToken(g: Model)
    requires !Stops(STOP_AT_9, 1, [g([7])]) && g([7, g([7])]) != 9
    ensures Reachable(g, STOP_AT_9, 2, Relaunched(g)) && CanVerify(Relaunched(g))
    ensures var m := VerifyOldest(STOP_AT_9, Relaunched(g)); var d := g([7]);
            && m.emitted == Greedy(g, [7], 2) && m.request.Verified() == [d, 9, g([7, d])]
            && m.slots[0] == Busy(Some(g([7, d, 9]))) && !m.request.Wrong() && !m.request.drop.On()
  {
    AfterPrefillReachable(g, STOP_AT_9, 2, g([7]));
    DroppedReachable(g);
    DroppedResumableReachable(g);
    RedroppedReachable(g);
    RelaunchedReachable(g);
    RelaunchedVerdict(g);
  }

  lemma RelaunchedVerdict(g: Model)
    requires g([7, g([7])]) != 9
    ensures CanVerify(Relaunched(g))
    ensures var m := VerifyOldest(STOP_AT_9, Relaunched(g)); var d := g([7]);
            && m.emitted == Greedy(g, [7], 2) && m.request.Verified() == [d, 9, g([7, d])]
            && m.slots[0] == Busy(Some(g([7, d, 9]))) && !m.request.Wrong() && !m.request.drop.On()
  {
    ThreeGreedyTokens(g);
    var d := g([7]);
    assert VerifyOldest(STOP_AT_9, Relaunched(g)).request.Verified() == [d, 9, g([7, d])];
  }
}
