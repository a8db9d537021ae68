/**
 One request in the Spexis engine loop (EngineCore.step_with_spexis and
 SpexisScheduler): every step pops the oldest of the N pipeline slots and
 verifies its target-model result, decides whether the request runs again,
 launches it, and at once ingests the token the exit layer drafted.

 The scheduler's decisions (budget, confidence drop, preemption, chunk size)
 and the drafted tokens are arbitrary inputs of a step; the target model is an
 arbitrary function `g` from a context to its greedy next token.
 */
module SpeculativePipeline {
  import opened Options
  import opened SpeculativeRequest

  type Model = seq<Token> -> Token

  /** What ends a request: lengths, EOS or a stop token. */
  datatype StopRule = StopRule(maxModelLen: nat, maxTokens: nat, stopTokens: set<Token>)

  /** check_stop_from_validation on the verified tokens, and
      check_stop_from_spec on all of them. */
  predicate Stops(rule: StopRule, promptLen: nat, output: seq<Token>) {
    || promptLen + |output| >= rule.maxModelLen
    || |output| >= rule.maxTokens
    || (output != [] && output[|output| - 1] in rule.stopTokens)
  }

  /** A pipeline slot, as this request sees it: the request was not in that
      batch, or it was and the target model will return `result` for it
      (nothing when the batch held only a part of its prefill). */
  datatype Slot = Idle | Busy(result: Option<Token>) {
    predicate HasToken() { Busy? && result.Some? }
  }

  datatype Phase = Waiting | Running | Draining | Finished

  datatype Engine = Engine(
    phase: Phase,
    request: RequestState,
    slots: seq<Slot>,          // oldest first
    kv: seq<Token>,            // the token whose key/value entry is at each position
    mirror: seq<Token>,        // the output tokens recorded by the worker
    isNew: bool,               // never scheduled: the worker does not know it
    cached: bool,              // _cached_reqs_data has an entry
    postFix: Option<int>,      // postpreempt_fixed_idx, when that result is False
    emitted: seq<Token>        // the tokens sent to the user so far
  )

  function Init(prompt: seq<Token>, stages: nat): Engine {
    Engine(Waiting, Fresh(prompt), seq(stages, _ => Idle), [], [], true, false, None, [])
  }

  /** What schedule() does with the request. It is skipped when it was dropped
      or the token budget is spent; it is preempted when its own blocks cannot be
      allocated (at its own turn) or another request needs them. */
  datatype Choice = Run(n: nat) | DropSpeculation | Skip | Preempt(ownTurn: bool)

  /** _has_pending_real_token. */
  predicate PendingRealToken(r: RequestState) {
    (r.Wrong() && r.check.justFixed) || r.drop.end || r.numComputed < |r.prompt|
  }

  /** The choices that schedule() can take for this request. */
  predicate Allowed(e: Engine, choice: Choice) {
    var r := e.request;
    match choice
    case Skip => true
    case Preempt(ownTurn) => e.phase.Running? && (ownTurn ==> PendingRealToken(r) || !r.drop.On())
    case DropSpeculation => e.phase.Running? && !PendingRealToken(r) && !r.drop.On()
    case Run(n) =>
      || (e.phase.Waiting? && 1 <= n <= r.NumTokens())
      || (e.phase.Running? && 1 <= n && r.numComputed + n <= r.NumTokens()
          && if PendingRealToken(r) then r.numComputed < |r.prompt| || n == 1 else !r.drop.On())
  }

  /** Step 1 can run: verify_output_token_ids finds a token to compare with. */
  predicate CanVerify(e: Engine) {
    && e.slots != []
    && e.request.InRange()
    && (e.slots[0].HasToken() && !e.phase.Finished? ==> e.request.spLen > 0 || (e.request.Wrong() && e.request.output != []))
  }

  /** Step 1: verify the result in the oldest slot. */
  function VerifyOldest(rule: StopRule, e: Engine): Engine
    requires CanVerify(e)
    ensures VerifyOldest(rule, e).request.prompt == e.request.prompt
  {
    var e' := e.(slots := e.slots[1..]);
    if e.phase.Finished? || !e.slots[0].HasToken() then e' else
      var token := e.slots[0].result.value;
      var r := Verify(e.request, token).0;
      var stopped := r.InRange() && Stops(rule, |r.prompt|, r.Verified());
      e'.(request := r,
          emitted := if e.request.Wrong() then e.emitted else e.emitted + [token],
          phase := if stopped then Finished else e.phase)
  }

  /** No batch in flight holds this request (num_scheduled == 0). */
  predicate AllIdle(slots: seq<Slot>) {
    forall i | 0 <= i < |slots| :: slots[i] == Idle
  }

  /** _preempt_request: remember an unsent correction, and once nothing is in
      flight forget all speculation and go back to the waiting queue. */
  function PreemptRequest(e: Engine): Engine {
    var r := e.request;
    var postFix := if e.postFix.None? && r.check.justFixed && r.Wrong() then Some(r.check.fixedIdx) else e.postFix;
    if AllIdle(e.slots) then
      e.(phase := Waiting, postFix := postFix,
         request := r.(spLen := 0, check := NO_CHECK, numComputed := 0, drop := Drop(false, false, 0, r.drop.end)))
    else
      e.(phase := Draining, postFix := postFix)
  }

  /** `mirror[:idx] + [output[idx]]`. */
  function Overwrite(mirror: seq<Token>, output: seq<Token>, idx: int): seq<Token> {
    if 0 <= idx < |output| then mirror[..if idx <= |mirror| then idx else |mirror|] + [output[idx]] else mirror
  }

  /** A correction the worker has not been told of. */
  predicate FixToSend(e: Engine) {
    e.request.Wrong() && (e.request.check.justFixed || !e.cached)
  }

  predicate InRange(r: RequestState, n: nat) {
    0 <= r.numComputed && r.numComputed + n <= r.NumTokens()
  }

  /** `[output[idx]]`; nothing stands for the IndexError. */
  function TokenAt(output: seq<Token>, idx: int): seq<Token> {
    if 0 <= idx < |output| then [output[idx]] else []
  }

  /** new_token_ids of _make_cached_request_data for the next `n` positions: the
      corrected token when a correction is sent, else the tokens themselves. */
  function NewTokenIds(e: Engine, n: nat): seq<Token>
    requires InRange(e.request, n)
  {
    var r := e.request;
    if e.postFix.Some? then TokenAt(r.output, e.postFix.value)
    else if FixToSend(e) then TokenAt(r.output, r.check.fixedIdx)
    else r.AllTokens()[r.numComputed..r.numComputed + n]
  }

  /** The tokens whose embeddings are shipped to the first stage: those of the
      request itself when it is new or resumed, new_token_ids otherwise. */
  function Embedded(e: Engine, n: nat): seq<Token>
    requires InRange(e.request, n)
  {
    if e.phase.Waiting? then e.request.AllTokens()[e.request.numComputed..e.request.numComputed + n]
    else NewTokenIds(e, n)
  }

  /** What the worker's _update_states does to its record of the output tokens. */
  function SyncMirror(e: Engine, n: nat): seq<Token>
    requires InRange(e.request, n)
  {
    var r := e.request;
    if e.isNew then []
    else if e.postFix.Some? then Overwrite(e.mirror, r.output, e.postFix.value)
    else if FixToSend(e) then Overwrite(e.mirror, r.output, r.check.fixedIdx)
    else
      var sent := NewTokenIds(e, n);
      var missing := r.numComputed + n - (|r.prompt| + |e.mirror|);
      if missing <= 0 then e.mirror else e.mirror + (if missing < n then sent[n - missing..] else sent)
  }

  /** One embedding for each position, and entries for all positions before. */
  predicate CanLaunch(e: Engine, n: nat) {
    InRange(e.request, n) && e.request.numComputed <= |e.kv| && |Embedded(e, n)| == n
  }

  /** The worker keeps the sampled token: the batch reaches the end of the
      tokens it has on record. */
  predicate Sampled(e: Engine, n: nat)
    requires InRange(e.request, n)
  {
    |e.request.prompt| + |SyncMirror(e, n)| <= e.request.numComputed + n
  }

  /** Steps 3 and 4: run `n` tokens; the target model's result joins the
      pipeline and the drafted token is appended, unless the worker takes the
      batch for a partial prefill. */
  function Launch(g: Model, rule: StopRule, e: Engine, n: nat, draft: Token): Engine
    requires CanLaunch(e, n)
  {
    var r := e.request;
    var upTo := r.numComputed + n;
    var kv := e.kv[..r.numComputed] + Embedded(e, n);
    var r' := r.(numComputed := upTo, drop := r.drop.(end := r.drop.end && e.phase.Waiting?));
    var e' := e.(phase := Running, kv := kv, mirror := SyncMirror(e, n),
                 isNew := false, cached := !e.isNew, postFix := None);
    if Sampled(e, n) then
      e'.(request := Drafted(r', draft, Stops(rule, |r.prompt|, r.output + [draft])),
          slots := e.slots + [Busy(Some(g(kv)))])
    else
      e'.(request := r', slots := e.slots + [Busy(None)])
  }

  /** A resumed request starts again from its first token. */
  function Admit(e: Engine): Engine {
    if e.phase.Waiting? then e.(request := e.request.(numComputed := 0)) else e
  }

  predicate CanSchedule(e: Engine, choice: Choice) {
    Allowed(e, choice) && (choice.Run? ==> CanLaunch(Admit(e), choice.n))
  }

  /** Step 2 with its consequences. */
  function Schedule(g: Model, rule: StopRule, e: Engine, choice: Choice, draft: Token): Engine
    requires CanSchedule(e, choice)
    ensures Schedule(g, rule, e, choice, draft).request.prompt == e.request.prompt
    ensures Schedule(g, rule, e, choice, draft).emitted == e.emitted
  {
    match choice
    case Run(n) => Launch(g, rule, Admit(e), n, draft)
    case DropSpeculation =>
      e.(request := e.request.(drop := e.request.drop.(confidence := true, len := e.request.spLen)),
         slots := e.slots + [Idle])
    case Preempt(ownTurn) =>
      var cleared := if ownTurn && PendingRealToken(e.request) then e.request.(drop := e.request.drop.(end := false)) else e.request;
      var e' := PreemptRequest(e.(request := cleared));
      e'.(slots := e'.slots + [Idle])
    case Skip =>
      var e' := if e.phase.Draining? then PreemptRequest(e) else e;
      e'.(slots := e'.slots + [Idle])
  }

  datatype Input = Input(choice: Choice, draft: Token)

  /** step_with_spexis; None stands for a Python exception or a decision the
      scheduler cannot take. */
  function Step(g: Model, rule: StopRule, e: Engine, input: Input): Option<Engine> {
    if !CanVerify(e) then None else
      var m := VerifyOldest(rule, e);
      if CanSchedule(m, input.choice) then Some(Schedule(g, rule, m, input.choice, input.draft)) else None
  }

  function RunAll(g: Model, rule: StopRule, e: Engine, inputs: seq<Input>): Option<Engine>
    decreases |inputs|
  {
    if inputs == [] then Some(e) else
      match Step(g, rule, e, inputs[0])
      case None => None
      case Some(e') => RunAll(g, rule, e', inputs[1..])
  }

  /** Plain greedy decoding, the reference: `n` tokens, one after the other. */
  function Greedy(g: Model, prompt: seq<Token>, n: nat): (s: seq<Token>)
    ensures |s| == n
  {
    if n == 0 then [] else
      var s := Greedy(g, prompt, n - 1);
      s + [g(prompt + s)]
  }
}
