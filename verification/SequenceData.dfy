/**
 The token record of one sequence (SequenceData in spexis/sequence.py) and the
 protocol that keeps a worker's copy of it up to date: a full copy when nothing
 is computed yet, afterwards deltas with the tokens appended since the last one.
 */
module SequenceData {
  import opened Options

  type Token = int

  datatype Stage = Prefill | Decode

  datatype Data = Data(
    prompt: seq<Token>,
    output: seq<Token>,
    logprob: real,
    numComputed: nat,
    stage: Stage,
    cachedAll: seq<Token>,
    unsent: seq<Token>
  ) {
    function Len(): nat { |output| + |prompt| }

    predicate Valid() { cachedAll == prompt + output && numComputed <= Len() }

    function NumUncomputed(): nat
      requires Valid()
    {
      Len() - numComputed
    }

    /** Sequence.get_num_new_tokens. */
    function NumNewTokens(): nat
      requires Valid()
    {
      if stage == Decode then 1 else NumUncomputed()
    }
  }

  datatype Delta = Delta(newTokens: seq<Token>, logprob: real, numComputed: nat, stage: Stage)

  function NewData(prompt: seq<Token>): Data {
    Data(prompt, [], 0.0, 0, Prefill, prompt, [])
  }

  function Append(d: Data, token: Token, logprob: real): Data {
    d.(output := d.output + [token], unsent := d.unsent + [token],
       cachedAll := d.cachedAll + [token], logprob := d.logprob + logprob)
  }

  function Compute(d: Data, n: nat): Data
    requires d.numComputed + n <= d.Len()
  {
    d.(numComputed := d.numComputed + n,
       stage := if d.numComputed + n == d.Len() then Decode else d.stage)
  }

  function Reset(d: Data): Data {
    d.(numComputed := 0, stage := Prefill, unsent := [])
  }

  function DeltaOf(d: Data): Delta {
    Delta(d.unsent, d.logprob, d.numComputed, d.stage)
  }

  function Apply(d: Data, delta: Delta): Data {
    d.(numComputed := delta.numComputed, logprob := delta.logprob, stage := delta.stage,
       output := d.output + delta.newTokens, cachedAll := d.cachedAll + delta.newTokens)
  }

  class SequenceRecord {
    const promptTokenIds: seq<Token>
    var outputTokenIds: seq<Token>
    var cumulativeLogprob: real
    var numComputedTokens: nat
    var stage: Stage
    var cachedAllTokenIds: seq<Token>
    var newAppendedTokens: seq<Token>

    ghost function Value(): Data
      reads this
    {
      Data(promptTokenIds, outputTokenIds, cumulativeLogprob, numComputedTokens, stage,
           cachedAllTokenIds, newAppendedTokens)
    }

    ghost predicate Valid()
      reads this
    {
      Value().Valid()
    }

    constructor (prompt: seq<Token>)
      ensures Valid()
      ensures Value() == NewData(prompt)
    {
      promptTokenIds := prompt;
      outputTokenIds, cumulativeLogprob, numComputedTokens := [], 0.0, 0;
      stage, cachedAllTokenIds, newAppendedTokens := Prefill, prompt, [];
      new;
      assert prompt == prompt + [];
    }

    method AppendTokenId(token: Token, logprob: real)
      requires Valid()
      modifies this
      ensures Valid()
      ensures Value() == Append(old(Value()), token, logprob)
      ensures outputTokenIds == old(outputTokenIds) + [token]
      ensures newAppendedTokens == old(newAppendedTokens) + [token]
      ensures cachedAllTokenIds == old(cachedAllTokenIds) + [token]
      ensures cumulativeLogprob == old(cumulativeLogprob) + logprob
    {
      assert promptTokenIds + outputTokenIds + [token] == promptTokenIds + (outputTokenIds + [token]);
      outputTokenIds := outputTokenIds + [token];
      newAppendedTokens := newAppendedTokens + [token];
      cachedAllTokenIds := cachedAllTokenIds + [token];
      cumulativeLogprob := cumulativeLogprob + logprob;
    }

    /** Fails, leaving the count too high as the source's assertion does, when
        more tokens are reported than there are. */
    method UpdateNumComputedTokens(n: nat) returns (ok: bool)
      requires Valid()
      modifies this
      ensures ok <==> old(numComputedTokens) + n <= old(Value()).Len()
      ensures ok ==> Valid() && Value() == Compute(old(Value()), n)
    {
      numComputedTokens := numComputedTokens + n;
      if numComputedTokens > |outputTokenIds| + |promptTokenIds| {
        return false;
      }
      if |outputTokenIds| + |promptTokenIds| - numComputedTokens == 0 {
        stage := Decode;
      }
      return true;
    }

    method ResetStateForRecompute()
      requires Valid()
      modifies this
      ensures Valid()
      ensures Value() == Reset(old(Value()))
      ensures numComputedTokens == 0 && stage == Prefill && newAppendedTokens == []
      ensures outputTokenIds == old(outputTokenIds) && cachedAllTokenIds == old(cachedAllTokenIds)
    {
      numComputedTokens := 0;
      stage := Prefill;
      newAppendedTokens := [];
    }

    method GetDeltaAndReset() returns (delta: Delta)
      requires Valid()
      modifies this
      ensures Valid()
      ensures delta == DeltaOf(old(Value()))
      ensures Value() == old(Value()).(unsent := [])
    {
      delta := Delta(newAppendedTokens, cumulativeLogprob, numComputedTokens, stage);
      newAppendedTokens := [];
    }

    method ApplyDelta(delta: Delta)
      requires Valid()
      requires delta.numComputed <= Value().Len() + |delta.newTokens|
      modifies this
      ensures Valid()
      ensures Value() == Apply(old(Value()), delta)
    {
      assert promptTokenIds + outputTokenIds + delta.newTokens == promptTokenIds + (outputTokenIds + delta.newTokens);
      numComputedTokens := delta.numComputed;
      cumulativeLogprob := delta.logprob;
      stage := delta.stage;
      outputTokenIds := outputTokenIds + delta.newTokens;
      cachedAllTokenIds := cachedAllTokenIds + delta.newTokens;
    }
  }

  // ------------------------------------------------------------------ the protocol

  datatype Message = Full(data: Data) | Update(delta: Delta)

  /** The scheduler's record, the worker's copy (once it has one), the messages
      in flight, and two history variables: whether a copy was sent since the
      record was created or reset, and the chunks computed since then. */
  datatype Link = Link(primary: Data, replica: Option<Data>, inFlight: seq<Message>, introduced: bool, chunks: seq<nat>)

  datatype Event =
    | AppendToken(token: Token, logprob: real)
    | ComputeChunk(n: nat)
    | Preempt
    | Send
    | Deliver

  /** What the scheduler and the engine do: they compute only what was sent, and
      append a sampled token only when nothing is left to compute. */
  predicate Enabled(l: Link, e: Event) {
    match e
    case AppendToken(_, _) => l.primary.numComputed == l.primary.Len()
    case ComputeChunk(n) => l.introduced && l.primary.numComputed + n <= l.primary.Len()
    case Preempt => true
    case Send => true
    case Deliver => l.inFlight != []
  }

  /** The worker's _get_cached_seq_group_metadata; None for its failed assertion. */
  function Receive(replica: Option<Data>, m: Message): Option<Data> {
    match m
    case Full(d) => Some(d)
    case Update(delta) => if replica.Some? then Some(Apply(replica.value, delta)) else None
  }

  function Step(l: Link, e: Event): Link
    requires Enabled(l, e)
  {
    match e
    case AppendToken(token, logprob) => l.(primary := Append(l.primary, token, logprob))
    case ComputeChunk(n) => l.(primary := Compute(l.primary, n), chunks := l.chunks + [n])
    case Preempt => l.(primary := Reset(l.primary), introduced := false, chunks := [])
    case Send =>
      if l.primary.numComputed == 0 then
        l.(inFlight := l.inFlight + [Full(l.primary)], introduced := true)
      else
        l.(inFlight := l.inFlight + [Update(DeltaOf(l.primary))], primary := l.primary.(unsent := []))
    case Deliver => l.(replica := Receive(l.replica, l.inFlight[0]), inFlight := l.inFlight[1..])
  }

  ghost predicate IsRun(l: Link, events: seq<Event>)
    decreases |events|
  {
    events == [] || (Enabled(l, events[0]) && IsRun(Step(l, events[0]), events[1..]))
  }

  function RunAll(l: Link, events: seq<Event>): Link
    requires IsRun(l, events)
    decreases |events|
  {
    if events == [] then l else RunAll(Step(l, events[0]), events[1..])
  }

  function NewLink(prompt: seq<Token>): Link {
    Link(NewData(prompt), None, [], false, [])
  }

  /** The worker's copy after everything in flight has arrived. */
  function Drained(replica: Option<Data>, inFlight: seq<Message>): Option<Data>
    decreases |inFlight|
  {
    if inFlight == [] then replica else Drained(Receive(replica, inFlight[0]), inFlight[1..])
  }

  lemma {:induction false} DrainedSnoc(replica: Option<Data>, inFlight: seq<Message>, m: Message)
    ensures Drained(replica, inFlight + [m]) == Receive(Drained(replica, inFlight), m)
    decreases |inFlight|
  {
    if inFlight == [] {
      assert Drained(Receive(replica, m), [m][1..]) == Receive(replica, m);
    } else {
      assert (inFlight + [m])[1..] == inFlight[1..] + [m];
      DrainedSnoc(Receive(replica, inFlight[0]), inFlight[1..], m);
    }
  }

  function Sum(chunks: seq<nat>): nat {
    if chunks == [] then 0 else Sum(chunks[..|chunks| - 1]) + chunks[|chunks| - 1]
  }

  ghost predicate Accounted(l: Link) {
    var d := l.primary;
    && d.Valid() && d.prompt != []
    && d.numComputed == Sum(l.chunks)
    && (d.stage == Prefill ==> d.NumUncomputed() > 0)
    && (d.stage == Decode ==> d.NumUncomputed() <= 1)
  }

  /** An in-order link never delivers a delta to a worker without a copy. */
  predicate Deliverable(replica: Option<Data>, inFlight: seq<Message>)
    decreases |inFlight|
  {
    inFlight == [] || ((inFlight[0].Full? || replica.Some?) && Deliverable(Receive(replica, inFlight[0]), inFlight[1..]))
  }

  lemma {:induction false} DeliverableSnoc(replica: Option<Data>, inFlight: seq<Message>, m: Message)
    requires Deliverable(replica, inFlight)
    requires m.Full? || Drained(replica, inFlight).Some?
    ensures Deliverable(replica, inFlight + [m])
    decreases |inFlight|
  {
    if inFlight == [] {
      assert Deliverable(Receive(replica, m), [m][1..]);
    } else {
      assert (inFlight + [m])[1..] == inFlight[1..] + [m];
      DeliverableSnoc(Receive(replica, inFlight[0]), inFlight[1..], m);
    }
  }

  /** The worker will know everything but the unsent tokens. */
  ghost predicate Replicated(l: Link) {
    var d, w := l.primary, Drained(l.replica, l.inFlight);
    && Deliverable(l.replica, l.inFlight)
    && (d.numComputed == 0 ==> d.unsent == [])
    && (d.numComputed > 0 ==> l.introduced)
    && (l.introduced ==> w.Some? && w.value.prompt == d.prompt && w.value.output + d.unsent == d.output
                         && w.value.cachedAll == w.value.prompt + w.value.output && w.value.unsent == [])
  }

  ghost predicate Inv(l: Link) { Accounted(l) && Replicated(l) }

  lemma SumSnoc(chunks: seq<nat>, n: nat)
    ensures Sum(chunks + [n]) == Sum(chunks) + n
  {
    assert (chunks + [n])[..|chunks|] == chunks;
  }

  lemma StepKeepsInvariant(l: Link, e: Event)
    requires Inv(l) && Enabled(l, e)
    ensures Inv(Step(l, e))
  {
    var d := l.primary;
    match e
    case AppendToken(token, _) =>
      assert d.prompt + d.output + [token] == d.prompt + (d.output + [token]);
      var w := Drained(l.replica, l.inFlight).value;
      assert w.output + (d.unsent + [token]) == w.output + d.unsent + [token];
    case ComputeChunk(n) => SumSnoc(l.chunks, n);
    case Preempt =>
    case Send =>
      var m := if d.numComputed == 0 then Full(d) else Update(DeltaOf(d));
      DrainedSnoc(l.replica, l.inFlight, m);
      DeliverableSnoc(l.replica, l.inFlight, m);
      if d.numComputed > 0 {
        var w := Drained(l.replica, l.inFlight).value;
        assert w.prompt + w.output + d.unsent == w.prompt + (w.output + d.unsent);
      }
      assert d.output + [] == d.output;
    case Deliver =>
  }

  lemma {:induction false} RunKeepsInvariant(l: Link, events: seq<Event>)
    requires Inv(l) && IsRun(l, events)
    ensures Inv(RunAll(l, events))
    decreases |events|
  {
    if events != [] {
      StepKeepsInvariant(l, events[0]);
      RunKeepsInvariant(Step(l, events[0]), events[1..]);
    }
  }

  lemma NewLinkInvariant(prompt: seq<Token>)
    requires prompt != []
    ensures Inv(NewLink(prompt))
  {
    assert prompt + [] == prompt;
  }

  /** Compute accounting over every run: the all-token cache is prompt and
      output, the chunks since the last reset add up to the computed count,
      and the number of new tokens that the scheduler is told equals the
      number not computed, except between the computation of the last token
      and the append of the next. */
  lemma RunAccounts(prompt: seq<Token>, events: seq<Event>)
    requires prompt != [] && IsRun(NewLink(prompt), events)
    ensures var l := RunAll(NewLink(prompt), events); var d := l.primary;
            && d.cachedAll == d.prompt + d.output
            && d.numComputed == Sum(l.chunks) == ComputedAfter(events, 0) <= |prompt| + |Appended(events)|
            && d.cachedAll == prompt + Appended(events)
            && (d.stage == Decode ==> d.NumUncomputed() <= 1)
            && (d.NumNewTokens() == d.NumUncomputed() <==> d.numComputed < d.Len())
  {
    NewLinkInvariant(prompt);
    RunKeepsInvariant(NewLink(prompt), events);
    RecordHoldsTheHistory(NewLink(prompt), events);
  }

  // -------------------------------------------------------------- what the events said

  /** The tokens that the events append, in order, and the sum of their logprobs. */
  function Appended(events: seq<Event>): seq<Token> {
    if events == [] then []
    else (if events[0].AppendToken? then [events[0].token] else []) + Appended(events[1..])
  }

  function AppendedLogprob(events: seq<Event>): real {
    if events == [] then 0.0
    else (if events[0].AppendToken? then events[0].logprob else 0.0) + AppendedLogprob(events[1..])
  }

  /** What is computed after the events, from `computed` before them: the chunks
      since the last preemption. */
  function ComputedAfter(events: seq<Event>, computed: nat): nat
    decreases |events|
  {
    if events == [] then computed
    else ComputedAfter(events[1..],
           if events[0].Preempt? then 0 else if events[0].ComputeChunk? then computed + events[0].n else computed)
  }

  /** Over every run the record holds exactly what the events appended and
      computed. */
  lemma {:induction false} RecordHoldsTheHistory(l: Link, events: seq<Event>)
    requires IsRun(l, events)
    ensures var d := RunAll(l, events).primary;
            && d.prompt == l.primary.prompt
            && d.output == l.primary.output + Appended(events)
            && d.logprob == l.primary.logprob + AppendedLogprob(events)
            && d.numComputed == ComputedAfter(events, l.primary.numComputed)
    decreases |events|
  {
    if events == [] {
      assert l.primary.output + [] == l.primary.output;
    } else {
      StepRecords(l, events[0]);
      RecordHoldsTheHistory(Step(l, events[0]), events[1..]);
      var new_ := if events[0].AppendToken? then [events[0].token] else [];
      assert l.primary.output + new_ + Appended(events[1..]) == l.primary.output + (new_ + Appended(events[1..]));
    }
  }

  lemma StepRecords(l: Link, e: Event)
    requires Enabled(l, e)
    ensures var (d, d') := (l.primary, Step(l, e).primary);
            && d'.prompt == d.prompt
            && d'.output == d.output + (if e.AppendToken? then [e.token] else [])
            && d'.logprob == d.logprob + (if e.AppendToken? then e.logprob else 0.0)
            && d'.numComputed == if e.Preempt? then 0 else if e.ComputeChunk? then d.numComputed + e.n else d.numComputed
  {
    assert l.primary.output + [] == l.primary.output;
  }

  function TokensOf(inFlight: seq<Message>): seq<Token> {
    if inFlight == [] then []
    else (if inFlight[0].Update? then inFlight[0].delta.newTokens else []) + TokensOf(inFlight[1..])
  }

  lemma {:induction false} DeltasOnly(replica: Option<Data>, inFlight: seq<Message>)
    requires replica.Some? && forall i | 0 <= i < |inFlight| :: inFlight[i].Update?
    ensures Drained(replica, inFlight).Some?
    ensures Drained(replica, inFlight).value.output == replica.value.output + TokensOf(inFlight)
    decreases |inFlight|
  {
    if inFlight != [] {
      DeltasOnly(Receive(replica, inFlight[0]), inFlight[1..]);
    }
  }

  /** Over every run, preemptions included, no delta meets a worker without a
      copy, and what the worker has, what is in flight and what is unsent make
      up exactly the tokens that were appended, in order. */
  lemma RunReplicates(prompt: seq<Token>, events: seq<Event>)
    requires prompt != [] && IsRun(NewLink(prompt), events)
    ensures var l := RunAll(NewLink(prompt), events); var w := Drained(l.replica, l.inFlight);
            && Deliverable(l.replica, l.inFlight)
            && l.primary.output == Appended(events)
            && (l.introduced ==> w.Some? && w.value.output + l.primary.unsent == Appended(events))
            && (l.introduced && l.replica.Some? && (forall i | 0 <= i < |l.inFlight| :: l.inFlight[i].Update?)
                ==> l.replica.value.output + TokensOf(l.inFlight) + l.primary.unsent == Appended(events))
            && (l.primary.numComputed > 0 ==> l.introduced)
            && (l.primary.numComputed == 0 ==> l.primary.unsent == [])
  {
    NewLinkInvariant(prompt);
    RunKeepsInvariant(NewLink(prompt), events);
    RecordHoldsTheHistory(NewLink(prompt), events);
    var l := RunAll(NewLink(prompt), events);
    if l.replica.Some? && forall i | 0 <= i < |l.inFlight| :: l.inFlight[i].Update? {
      DeltasOnly(l.replica, l.inFlight);
    }
  }

  /** After a send, the worker's copy becomes the scheduler's record in every
      field as soon as the link drains. */
  lemma SendSynchronizes(prompt: seq<Token>, events: seq<Event>)
    requires prompt != [] && IsRun(NewLink(prompt), events)
    ensures var l := Step(RunAll(NewLink(prompt), events), Send); var w := Drained(l.replica, l.inFlight);
            && w == Some(l.primary)
            && w.value.prompt == prompt && w.value.output == Appended(events)
            && w.value.logprob == AppendedLogprob(events) && w.value.numComputed == ComputedAfter(events, 0)
  {
    NewLinkInvariant(prompt);
    RunKeepsInvariant(NewLink(prompt), events);
    RecordHoldsTheHistory(NewLink(prompt), events);
    var l := RunAll(NewLink(prompt), events);
    var d := l.primary;
    DrainedSnoc(l.replica, l.inFlight, if d.numComputed == 0 then Full(d) else Update(DeltaOf(d)));
    if d.numComputed > 0 {
      var w := Drained(l.replica, l.inFlight).value;
      assert w.prompt + w.output + d.unsent == w.prompt + (w.output + d.unsent);
    }
  }

  /** Why a full copy needs an empty buffer: it does not clear the buffer, so the
      next delta repeats on the worker exactly what was in it. */
  lemma FullCopyThenDelta(d: Data)
    ensures Apply(d, DeltaOf(d)).output == d.output <==> d.unsent == []
  {
    assert |d.output + d.unsent| == |d.output| + |d.unsent|;
  }
}
