/**
 From sequences to user-visible outputs and back (spexis/outputs.py): a request
 is read out as deltas, and merging all deltas with RequestOutput.add gives what
 one cumulative read at the end gives.
 */
module RequestOutput {
  import opened Options
  import StopStrings

  type Token = int
  /** Logprobs recorded for one position: the candidates and their logprobs. */
  type TokenLogprobs = map<Token, real>

  datatype OutputKind = Cumulative | Delta | FinalOnly

  /** One sequence as from_seq_group reads it. The text, its cursor and whether
      the sequence is finished are a `StopStrings.Stream`. */
  datatype Sequence = Sequence(
    prompt: seq<Token>,
    output: seq<Token>,
    logprobs: seq<TokenLogprobs>,
    cumLogprob: real,
    stream: StopStrings.Stream,
    finishReason: Option<string>,
    stopReason: Option<string>,
    tokenOffset: nat
  ) {
    predicate Valid() {
      |logprobs| == |output| && tokenOffset <= |output| && stream.offset <= |stream.text|
    }
  }

  /** get_output_token_ids_to_return: a list, or in the common case one id. */
  datatype TokenIds = One(id: Token) | Many(ids: seq<Token>) {
    function Ids(): seq<Token> { if One? then [id] else ids }
  }

  /** `sharesList` says that `logprobs` is the sequence's own list object, not a
      copy of a part of it. */
  datatype Completion = Completion(
    index: nat,
    text: string,
    tokenIds: seq<Token>,
    cumLogprob: Option<real>,
    logprobs: Option<seq<TokenLogprobs>>,
    finishReason: Option<string>,
    stopReason: Option<string>,
    sharesList: bool
  )

  /** What the sampling parameters say about output. */
  datatype Params = Params(kind: OutputKind, stops: seq<string>, stopsInOutput: bool, wantLogprobs: bool) {
    predicate Valid() { StopStrings.NonEmpty(stops) }

    function Buffer(): nat
      requires Valid()
    {
      StopStrings.BufferLength(stops, stopsInOutput)
    }
  }

  // ------------------------------------------------------------- reading a sequence

  function NewTokens(s: Sequence): TokenIds
    requires s.Valid()
  {
    var n := |s.output| - s.tokenOffset;
    if n == 1 then One(s.output[|s.output| - 1]) else Many(s.output[s.tokenOffset..])
  }

  function TokensToReturn(s: Sequence, delta: bool): TokenIds
    requires s.Valid()
  {
    if delta then NewTokens(s) else Many(s.output)
  }

  function TextToReturn(p: Params, s: Sequence, delta: bool): string
    requires p.Valid() && s.Valid()
  {
    if !delta then StopStrings.Visible(s.stream.text, p.Buffer(), s.stream.finished)
    else s.stream.text[s.stream.offset..StopStrings.NextOffset(s.stream.text, p.Buffer(), s.stream.finished, s.stream.offset)]
  }

  /** The logprobs of one output and whether they are the sequence's own list. */
  function LogprobsToReturn(p: Params, s: Sequence): (Option<seq<TokenLogprobs>>, bool)
    requires s.Valid()
  {
    if !p.wantLogprobs then (None, false)
    else if p.kind != Delta || s.logprobs == [] then (Some(s.logprobs), true)
    else if s.tokenOffset == |s.output| then (None, false)
    else (Some(s.logprobs[s.tokenOffset..]), false)
  }

  /** A fresh CompletionOutput for the i-th sequence. */
  function Build(p: Params, s: Sequence, i: nat): Completion
    requires p.Valid() && s.Valid()
  {
    var (logs, shared) := LogprobsToReturn(p, s);
    Completion(i, TextToReturn(p, s, p.kind == Delta), TokensToReturn(s, p.kind == Delta).Ids(),
               if p.wantLogprobs then Some(s.cumLogprob) else None, logs,
               s.finishReason, s.stopReason, shared)
  }

  /** The cursors after the sequence was read. */
  function Advance(p: Params, s: Sequence): Sequence
    requires p.Valid() && s.Valid()
  {
    if p.kind != Delta then s
    else s.(tokenOffset := |s.output|, stream := StopStrings.Step(p.stops, p.stopsInOutput, s.stream, StopStrings.Poll))
  }

  // ------------------------------------------------------------------ merging deltas

  /** The merge of two completions of one index; None for the failed assertion
      that the older one has a logprob list. */
  function Extend(c: Completion, next: Completion): Option<Completion> {
    var more := next.logprobs.Some? && next.logprobs.value != [];
    if more && c.logprobs.None? then None
    else Some(c.(text := c.text + next.text, tokenIds := c.tokenIds + next.tokenIds,
                 logprobs := if more then Some(c.logprobs.value + next.logprobs.value) else c.logprobs,
                 cumLogprob := next.cumLogprob, finishReason := next.finishReason, stopReason := next.stopReason))
  }

  /** The position of the first completion with this index, or the length. */
  function Position(outputs: seq<Completion>, index: nat): (k: nat)
    ensures k <= |outputs|
    ensures k < |outputs| ==> outputs[k].index == index
    ensures forall j | 0 <= j < k :: outputs[j].index != index
  {
    if outputs == [] || outputs[0].index == index then 0 else 1 + Position(outputs[1..], index)
  }

  function MergeOne(outputs: seq<Completion>, next: Completion): Option<seq<Completion>> {
    var k := Position(outputs, next.index);
    if k == |outputs| then Some(outputs + [next])
    else match Extend(outputs[k], next)
         case None => None
         case Some(c) => Some(outputs[k := c])
  }

  function Merge(outputs: seq<Completion>, next: seq<Completion>): Option<seq<Completion>>
    decreases |next|
  {
    if next == [] then Some(outputs)
    else match MergeOne(outputs, next[0])
         case None => None
         case Some(o) => Merge(o, next[1..])
  }

  class Output {
    var outputs: seq<Completion>
    var finished: bool

    constructor (outputs: seq<Completion>, finished: bool)
      ensures this.outputs == outputs && this.finished == finished
    {
      this.outputs, this.finished := outputs, finished;
    }

    /** RequestOutput.add. */
    method Add(next: Output) returns (ok: bool)
      requires next != this
      modifies this
      ensures finished == (old(finished) || next.finished)
      ensures ok <==> Merge(old(outputs), next.outputs).Some?
      ensures ok ==> outputs == Merge(old(outputs), next.outputs).value
    {
      finished := finished || next.finished;
      for n := 0 to |next.outputs|
        modifies `outputs
        invariant Merge(old(outputs), next.outputs) == Merge(outputs, next.outputs[n..])
      {
        var c := next.outputs[n];
        assert next.outputs[n..][1..] == next.outputs[n + 1..];
        var k := 0;
        while k < |outputs| && outputs[k].index != c.index
          invariant 0 <= k <= |outputs|
          invariant k <= Position(outputs, c.index)
        {
          k := k + 1;
        }
        if k == |outputs| {
          outputs := outputs + [c];
        } else {
          var merged := Extend(outputs[k], c);
          if merged.None? {
            return false;
          }
          outputs := outputs[k := merged.value];
        }
      }
      return true;
    }
  }

  // ------------------------------------------------------------ properties of merging

  ghost predicate DistinctIndices(outputs: seq<Completion>) {
    forall j, k | 0 <= j < k < |outputs| :: outputs[j].index != outputs[k].index
  }

  /** However the next output looks, merging never creates a second completion
      of one index, and never loses one. */
  lemma {:induction false} MergeKeepsIndicesDistinct(outputs: seq<Completion>, next: seq<Completion>)
    requires DistinctIndices(outputs) && Merge(outputs, next).Some?
    ensures DistinctIndices(Merge(outputs, next).value)
    ensures forall k | 0 <= k < |outputs| :: k < |Merge(outputs, next).value| && Merge(outputs, next).value[k].index == outputs[k].index
    ensures forall k | 0 <= k < |next| :: exists j :: 0 <= j < |Merge(outputs, next).value| && Merge(outputs, next).value[j].index == next[k].index
    decreases |next|
  {
    if next != [] {
      var o := MergeOne(outputs, next[0]).value;
      var k := Position(outputs, next[0].index);
      assert o[k].index == next[0].index;
      MergeKeepsIndicesDistinct(o, next[1..]);
      forall n | 0 <= n < |next|
        ensures exists j :: 0 <= j < |Merge(outputs, next).value| && Merge(outputs, next).value[j].index == next[n].index
      {
        if n == 0 {
          assert Merge(outputs, next).value[k].index == next[0].index;
        } else {
          assert next[n] == next[1..][n - 1];
        }
      }
    }
  }

  /** Completions numbered 0, 1, 2, ... as from_seq_group makes them. */
  ghost predicate Numbered(outputs: seq<Completion>) {
    forall k | 0 <= k < |outputs| :: outputs[k].index == k
  }

  lemma {:induction false} MergeNumbered(acc: seq<Completion>, next: seq<Completion>, from: nat, result: seq<Completion>)
    requires Numbered(acc) && Numbered(next) && |acc| == |next| == |result| && from <= |acc|
    requires forall k | from <= k < |acc| :: Extend(acc[k], next[k]) == Some(result[k])
    requires forall k | 0 <= k < from :: acc[k] == result[k]
    ensures Merge(acc, next[from..]) == Some(result)
    decreases |acc| - from
  {
    if from == |acc| {
      assert acc == result;
    } else {
      assert next[from..][0] == next[from] && next[from..][1..] == next[from + 1..];
      assert Position(acc, from) == from;
      MergeNumbered(acc[from := result[from]], next, from + 1, result);
    }
  }

  lemma {:induction false} MergeIntoNothing(next: seq<Completion>, from: nat)
    requires Numbered(next) && from <= |next|
    ensures Merge(next[..from], next[from..]) == Some(next)
    decreases |next| - from
  {
    if from == |next| {
      assert next[..from] == next;
    } else {
      assert next[from..][0] == next[from] && next[from..][1..] == next[from + 1..];
      assert Position(next[..from], from) == from;
      assert next[..from] + [next[from]] == next[..from + 1];
      MergeIntoNothing(next, from + 1);
    }
  }

  // ------------------------------------------------------------------ the round trip

  /** A request: its sequences and the merge of all outputs read so far (None
      once the merge has failed an assertion). */
  datatype Request = Request(seqs: seq<Sequence>, merged: Option<seq<Completion>>)

  datatype Event =
    | Grow(i: nat, token: Token, logprobs: TokenLogprobs, chars: string, verdict: StopStrings.Verdict,
           reason: string, stopReason: Option<string>)
    | Read

  function Grown(p: Params, s: Sequence, e: Event): Sequence
    requires p.Valid() && s.Valid() && e.Grow? && e.token in e.logprobs
  {
    if s.stream.finished then s else
      var stream := StopStrings.Step(p.stops, p.stopsInOutput, s.stream, StopStrings.Chunk(e.chars, e.verdict));
      s.(output := s.output + [e.token], logprobs := s.logprobs + [e.logprobs],
         cumLogprob := s.cumLogprob + e.logprobs[e.token], stream := stream,
         finishReason := if stream.finished then Some(e.reason) else None,
         stopReason := if stream.finished then e.stopReason else None)
  }

  ghost predicate SeqOk(p: Params, s: Sequence)
    requires p.Valid()
  {
    s.Valid() && StopStrings.Inv(p.stops, p.stopsInOutput, s.stream)
  }

  /** A token has a logprob; and when logprobs are wanted, the first read finds
      a token in every sequence. */
  ghost predicate Enabled(p: Params, r: Request, e: Event) {
    match e
    case Grow(i, token, logprobs, _, _, _, _) => i < |r.seqs| && token in logprobs
    case Read => r.merged == Some([]) && p.wantLogprobs ==> forall k | 0 <= k < |r.seqs| :: r.seqs[k].output != []
  }

  function Outputs(p: Params, seqs: seq<Sequence>): seq<Completion>
    requires p.Valid() && forall k | 0 <= k < |seqs| :: seqs[k].Valid()
  {
    seq(|seqs|, k requires 0 <= k < |seqs| => Build(p, seqs[k], k))
  }

  function AdvanceAll(p: Params, seqs: seq<Sequence>): seq<Sequence>
    requires p.Valid() && forall k | 0 <= k < |seqs| :: seqs[k].Valid()
  {
    seq(|seqs|, k requires 0 <= k < |seqs| => Advance(p, seqs[k]))
  }

  function Step(p: Params, r: Request, e: Event): Request
    requires p.Valid() && (forall k | 0 <= k < |r.seqs| :: r.seqs[k].Valid()) && Enabled(p, r, e)
  {
    match e
    case Grow(i, _, _, _, _, _, _) => r.(seqs := r.seqs[i := Grown(p, r.seqs[i], e)])
    case Read =>
      Request(AdvanceAll(p, r.seqs), if r.merged.None? then None else Merge(r.merged.value, Outputs(p, r.seqs)))
  }

  /** What the merge of the deltas of one sequence holds. */
  ghost predicate MergedOk(p: Params, c: Completion, s: Sequence, k: nat)
    requires s.Valid()
  {
    && c.index == k && !c.sharesList
    && c.text == s.stream.delivered
    && c.tokenIds == s.output[..s.tokenOffset]
    && c.logprobs == (if p.wantLogprobs then Some(s.logprobs[..s.tokenOffset]) else None)
  }

  ghost predicate Inv(p: Params, r: Request)
    requires p.Valid()
  {
    && (forall k | 0 <= k < |r.seqs| :: SeqOk(p, r.seqs[k]))
    && r.merged.Some?
    && (|r.merged.value| == |r.seqs| || r.merged.value == [])
    && (r.merged.value == [] ==> forall k | 0 <= k < |r.seqs| :: r.seqs[k].tokenOffset == 0 && r.seqs[k].stream.delivered == "")
    && (forall k | 0 <= k < |r.merged.value| :: MergedOk(p, r.merged.value[k], r.seqs[k], k))
  }

  lemma GrownIsOk(p: Params, s: Sequence, e: Event)
    requires p.Valid() && SeqOk(p, s) && e.Grow? && e.token in e.logprobs
    ensures SeqOk(p, Grown(p, s, e))
  {
    if !s.stream.finished {
      StopStrings.StepKeepsInvariant(p.stops, p.stopsInOutput, s.stream, StopStrings.Chunk(e.chars, e.verdict));
    }
  }

  lemma GrowKeepsInvariant(p: Params, r: Request, e: Event)
    requires p.Valid() && Inv(p, r) && Enabled(p, r, e) && e.Grow?
    ensures Inv(p, Step(p, r, e))
  {
    var s := r.seqs[e.i];
    assert SeqOk(p, s);
    GrownIsOk(p, s, e);
    if !s.stream.finished {
      var s' := Grown(p, s, e);
      assert s'.output[..s.tokenOffset] == s.output[..s.tokenOffset];
      assert s'.logprobs[..s.tokenOffset] == s.logprobs[..s.tokenOffset];
    }
    var r' := Step(p, r, e);
    forall k | 0 <= k < |r'.seqs| ensures SeqOk(p, r'.seqs[k]) {
      assert SeqOk(p, r.seqs[k]);
    }
    forall k | 0 <= k < |r.merged.value| ensures MergedOk(p, r.merged.value[k], r'.seqs[k], k) {
      assert MergedOk(p, r.merged.value[k], r.seqs[k], k);
    }
  }

  lemma NewTokensAreTheRest(s: Sequence)
    requires s.Valid()
    ensures NewTokens(s).Ids() == s.output[s.tokenOffset..]
    ensures s.output[..s.tokenOffset] + NewTokens(s).Ids() == s.output == s.output[..|s.output|]
  {
    assert |s.output| - s.tokenOffset == 1 ==> s.output[s.tokenOffset..] == [s.output[|s.output| - 1]];
    assert s.output[..s.tokenOffset] + s.output[s.tokenOffset..] == s.output;
  }

  lemma NewTextIsTheRest(p: Params, s: Sequence)
    requires p.Valid() && SeqOk(p, s) && p.kind == Delta
    ensures SeqOk(p, Advance(p, s))
    ensures Advance(p, s).stream.delivered == s.stream.delivered + TextToReturn(p, s, true)
  {
    StopStrings.StepKeepsInvariant(p.stops, p.stopsInOutput, s.stream, StopStrings.Poll);
  }

  /** Reading one sequence and merging the delta. */
  lemma ReadOne(p: Params, s: Sequence, k: nat)
    requires p.Valid() && SeqOk(p, s) && p.kind == Delta
    ensures var s' := Advance(p, s); var c := Build(p, s, k);
            && SeqOk(p, s') && s'.stream.delivered == s.stream.delivered + c.text
            && s'.output[..s'.tokenOffset] == s.output[..s.tokenOffset] + c.tokenIds
            && c.tokenIds == s.output[s.tokenOffset..]
  {
    NewTextIsTheRest(p, s);
    NewTokensAreTheRest(s);
  }

  lemma FirstRead(p: Params, s: Sequence, k: nat)
    requires p.Valid() && SeqOk(p, s) && p.kind == Delta
    requires s.stream.delivered == "" && s.tokenOffset == 0 && (p.wantLogprobs ==> s.output != [])
    ensures MergedOk(p, Build(p, s, k), Advance(p, s), k)
  {
    ReadOne(p, s, k);
    assert s.output[0..] == s.output && s.logprobs[0..] == s.logprobs == s.logprobs[..|s.logprobs|];
    assert s.output[..|s.output|] == s.output;
  }

  lemma ExtendOne(p: Params, acc: Completion, s: Sequence, k: nat)
    requires p.Valid() && SeqOk(p, s) && p.kind == Delta && MergedOk(p, acc, s, k)
    ensures Extend(acc, Build(p, s, k)).Some?
    ensures MergedOk(p, Extend(acc, Build(p, s, k)).value, Advance(p, s), k)
  {
    ReadOne(p, s, k);
    assert s.logprobs[..s.tokenOffset] + s.logprobs[s.tokenOffset..] == s.logprobs == s.logprobs[..|s.logprobs|];
    assert s.output[..|s.output|] == s.output;
    if s.tokenOffset == |s.output| {
      assert s.logprobs[..s.tokenOffset] == s.logprobs;
    }
  }

  /** Merging the deltas of one read, entry by entry. */
  lemma ReadMerges(p: Params, r: Request)
    requires p.Valid() && Inv(p, r) && Enabled(p, r, Read) && p.kind == Delta
    ensures var m := Merge(r.merged.value, Outputs(p, r.seqs));
            m.Some? && |m.value| == |r.seqs|
            && forall k | 0 <= k < |r.seqs| :: m.value[k]
                 == if r.merged.value == [] then Build(p, r.seqs[k], k)
                    else Extend(r.merged.value[k], Build(p, r.seqs[k], k)).value
  {
    var acc, next := r.merged.value, Outputs(p, r.seqs);
    if acc == [] {
      MergeIntoNothing(next, 0);
      assert next[..0] == [] && next[0..] == next;
    } else {
      forall k | 0 <= k < |acc| ensures Extend(acc[k], next[k]).Some? {
        ExtendOne(p, acc[k], r.seqs[k], k);
      }
      var result := seq(|acc|, k requires 0 <= k < |acc| => Extend(acc[k], next[k]).value);
      MergeNumbered(acc, next, 0, result);
      assert next[0..] == next;
    }
  }

  lemma ReadKeepsInvariant(p: Params, r: Request)
    requires p.Valid() && Inv(p, r) && Enabled(p, r, Read) && p.kind == Delta
    ensures Inv(p, Step(p, r, Read))
    ensures |Step(p, r, Read).merged.value| == |r.seqs|
    ensures forall k | 0 <= k < |r.seqs| :: var c := Step(p, r, Read).merged.value[k]; var s := r.seqs[k];
              c.cumLogprob == (if p.wantLogprobs then Some(s.cumLogprob) else None)
              && c.finishReason == s.finishReason && c.stopReason == s.stopReason
  {
    ReadMerges(p, r);
    var r' := Step(p, r, Read);
    forall k | 0 <= k < |r.seqs|
      ensures r'.seqs[k] == Advance(p, r.seqs[k]) && SeqOk(p, r'.seqs[k])
      ensures MergedOk(p, r'.merged.value[k], r'.seqs[k], k)
    {
      ReadOne(p, r.seqs[k], k);
      if r.merged.value == [] {
        FirstRead(p, r.seqs[k], k);
      } else {
        ExtendOne(p, r.merged.value[k], r.seqs[k], k);
      }
    }
  }

  ghost predicate IsRun(p: Params, r: Request, events: seq<Event>)
    requires p.Valid()
    decreases |events|
  {
    events == [] || (
      && (forall k | 0 <= k < |r.seqs| :: r.seqs[k].Valid())
      && Enabled(p, r, events[0])
      && IsRun(p, Step(p, r, events[0]), events[1..]))
  }

  function RunAll(p: Params, r: Request, events: seq<Event>): Request
    requires p.Valid() && IsRun(p, r, events)
    decreases |events|
  {
    if events == [] then r else RunAll(p, Step(p, r, events[0]), events[1..])
  }

  function Start(prompts: seq<seq<Token>>): Request {
    Request(seq(|prompts|, k requires 0 <= k < |prompts| =>
                Sequence(prompts[k], [], [], 0.0, StopStrings.START, None, None, 0)), Some([]))
  }

  /** The events that grow sequence k: those that find it unfinished. */
  ghost function Growth(p: Params, r: Request, events: seq<Event>, k: nat): (es: seq<Event>)
    requires p.Valid() && IsRun(p, r, events) && k < |r.seqs|
    ensures AllGrow(es)
    decreases |events|
  {
    if events == [] then []
    else
      (if events[0].Grow? && events[0].i == k && !r.seqs[k].stream.finished then [events[0]] else [])
      + Growth(p, Step(p, r, events[0]), events[1..], k)
  }

  predicate AllGrow(es: seq<Event>) {
    forall i | 0 <= i < |es| :: es[i].Grow? && es[i].token in es[i].logprobs
  }

  function TokensIn(es: seq<Event>): seq<Token>
    requires AllGrow(es)
  {
    if es == [] then [] else [es[0].token] + TokensIn(es[1..])
  }

  function LogprobsIn(es: seq<Event>): seq<TokenLogprobs>
    requires AllGrow(es)
  {
    if es == [] then [] else [es[0].logprobs] + LogprobsIn(es[1..])
  }

  function CharsIn(es: seq<Event>): string
    requires AllGrow(es)
  {
    if es == [] then "" else es[0].chars + CharsIn(es[1..])
  }

  function LogprobSum(es: seq<Event>): real
    requires AllGrow(es)
  {
    if es == [] then 0.0 else es[0].logprobs[es[0].token] + LogprobSum(es[1..])
  }

  /** `s'` is `s` grown by `es`: their tokens and logprobs, in order, the sum of the
      logprobs of the tokens, and the reasons of the event that finished it. */
  ghost predicate GrownBy(s: Sequence, es: seq<Event>, s': Sequence)
    requires AllGrow(es)
  {
    && s'.prompt == s.prompt
    && s'.output == s.output + TokensIn(es)
    && s'.logprobs == s.logprobs + LogprobsIn(es)
    && s'.cumLogprob == s.cumLogprob + LogprobSum(es)
    && (!s'.stream.finished ==> s'.stream.text == s.stream.text + CharsIn(es))
    && ReasonsOf(s, es, s')
  }

  ghost predicate ReasonsOf(s: Sequence, es: seq<Event>, s': Sequence)
    requires AllGrow(es)
  {
    if es == [] then
      s'.finishReason == s.finishReason && s'.stopReason == s.stopReason && s'.stream.finished == s.stream.finished
    else
      && !s.stream.finished
      && s'.finishReason == (if s'.stream.finished then Some(es[|es| - 1].reason) else None)
      && s'.stopReason == (if s'.stream.finished then es[|es| - 1].stopReason else None)
  }

  lemma StepGrows(p: Params, r: Request, e: Event, k: nat)
    requires p.Valid() && (forall j | 0 <= j < |r.seqs| :: r.seqs[j].Valid()) && Enabled(p, r, e) && k < |r.seqs|
    ensures |Step(p, r, e).seqs| == |r.seqs|
    ensures GrownBy(r.seqs[k], if e.Grow? && e.i == k && !r.seqs[k].stream.finished then [e] else [], Step(p, r, e).seqs[k])
  {
    var s, s' := r.seqs[k], Step(p, r, e).seqs[k];
    if e.Grow? && e.i == k && !s.stream.finished {
      assert [e][1..] == [] && CharsIn([e]) == e.chars + "" == e.chars;
      if !s'.stream.finished {
        StopStrings.StepAddsTheChunk(p.stops, p.stopsInOutput, s.stream, StopStrings.Chunk(e.chars, e.verdict));
      }
    } else {
      assert s.stream.text + "" == s.stream.text;
      assert s'.output == s.output + [] && s'.logprobs == s.logprobs + [];
    }
  }

  lemma GrownOnce(s: Sequence, s': Sequence, b: seq<Event>, s'': Sequence)
    requires AllGrow(b) && GrownBy(s, [], s') && GrownBy(s', b, s'')
    ensures GrownBy(s, b, s'')
  {
    assert s'.output == s.output && s'.logprobs == s.logprobs && (!s'.stream.finished ==> s'.stream.text == s.stream.text);
  }

  lemma GrownTwice(s: Sequence, e: Event, s': Sequence, b: seq<Event>, s'': Sequence)
    requires AllGrow([e]) && AllGrow(b) && AllGrow([e] + b) && GrownBy(s, [e], s') && GrownBy(s', b, s'')
    ensures GrownBy(s, [e] + b, s'')
  {
    assert ([e] + b)[1..] == b && [e][1..] == [];
    assert TokensIn([e]) == [e.token] && LogprobsIn([e]) == [e.logprobs] && LogprobSum([e]) == e.logprobs[e.token];
    assert s.output + [e.token] + TokensIn(b) == s.output + ([e.token] + TokensIn(b));
    assert s.logprobs + [e.logprobs] + LogprobsIn(b) == s.logprobs + ([e.logprobs] + LogprobsIn(b));
    assert CharsIn([e]) == e.chars + "" == e.chars;
    assert s.stream.text + e.chars + CharsIn(b) == s.stream.text + (e.chars + CharsIn(b));
    assert b != [] ==> ([e] + b)[|b|] == b[|b| - 1];
  }

  /** Over every run each sequence holds exactly what was generated for it until it
      finished. */
  lemma {:induction false} SequencesHoldWhatWasGenerated(p: Params, r: Request, events: seq<Event>, k: nat)
    requires p.Valid() && IsRun(p, r, events) && k < |r.seqs|
    ensures |RunAll(p, r, events).seqs| == |r.seqs|
    ensures GrownBy(r.seqs[k], Growth(p, r, events, k), RunAll(p, r, events).seqs[k])
    decreases |events|
  {
    if events == [] {
      var s := r.seqs[k];
      assert s.output == s.output + [] && s.logprobs == s.logprobs + [];
    } else {
      var r' := Step(p, r, events[0]);
      StepGrows(p, r, events[0], k);
      SequencesHoldWhatWasGenerated(p, r', events[1..], k);
      var rest := Growth(p, r', events[1..], k);
      if events[0].Grow? && events[0].i == k && !r.seqs[k].stream.finished {
        GrownTwice(r.seqs[k], events[0], r'.seqs[k], rest, RunAll(p, r, events).seqs[k]);
      } else {
        GrownOnce(r.seqs[k], r'.seqs[k], rest, RunAll(p, r, events).seqs[k]);
        assert [] + rest == rest;
      }
    }
  }

  lemma {:induction false} RunKeepsInvariant(p: Params, r: Request, events: seq<Event>)
    requires p.Valid() && p.kind == Delta && Inv(p, r) && IsRun(p, r, events)
    ensures Inv(p, RunAll(p, r, events))
    decreases |events|
  {
    if events != [] {
      if events[0].Grow? {
        GrowKeepsInvariant(p, r, events[0]);
      } else {
        ReadKeepsInvariant(p, r);
      }
      RunKeepsInvariant(p, Step(p, r, events[0]), events[1..]);
    }
  }

  /** Streaming round trip: over every interleaving of generated tokens and
      delta reads, merging never fails, and after one more read the merge of all
      deltas is, index by index and field by field, what one cumulative read of
      the sequences gives. */
  lemma MergedDeltasAreTheCumulativeOutput(p: Params, prompts: seq<seq<Token>>, events: seq<Event>)
    requires p.Valid() && p.kind == Delta && IsRun(p, Start(prompts), events)
    requires Enabled(p, RunAll(p, Start(prompts), events), Read)
    ensures var r := RunAll(p, Start(prompts), events);
            && (forall k | 0 <= k < |r.seqs| :: r.seqs[k].Valid())
            && var r' := Step(p, r, Read);
            && r'.merged.Some? && |r'.merged.value| == |r'.seqs|
            && forall k | 0 <= k < |r'.seqs| :: r'.seqs[k].Valid()
                 && r'.merged.value[k] == Build(p.(kind := Cumulative), r'.seqs[k], k).(sharesList := false)
  {
    assert Inv(p, Start(prompts));
    RunKeepsInvariant(p, Start(prompts), events);
    var r := RunAll(p, Start(prompts), events);
    ReadKeepsInvariant(p, r);
    var r' := Step(p, r, Read);
    forall k | 0 <= k < |r'.seqs|
      ensures r'.merged.value[k] == Build(p.(kind := Cumulative), r'.seqs[k], k).(sharesList := false)
    {
      MergedIsCumulative(p, r.seqs[k], r'.merged.value[k], k);
    }
  }

  lemma MergedIsCumulative(p: Params, s: Sequence, c: Completion, k: nat)
    requires p.Valid() && p.kind == Delta && SeqOk(p, s) && MergedOk(p, c, Advance(p, s), k)
    requires c.cumLogprob == if p.wantLogprobs then Some(s.cumLogprob) else None
    requires c.finishReason == s.finishReason && c.stopReason == s.stopReason
    ensures c == Build(p.(kind := Cumulative), Advance(p, s), k).(sharesList := false)
  {
    StopStrings.PollCatchesUp(p.stops, p.stopsInOutput, s.stream);
    assert s.output[..|s.output|] == s.output && s.logprobs[..|s.logprobs|] == s.logprobs;
  }

  // ------------------------------------------------------- reading into fresh objects

  /** What from_seq_group returns. */
  datatype Reading = Reading(outputs: seq<Completion>, finished: bool)

  predicate AllFinished(seqs: seq<Sequence>) {
    forall k | 0 <= k < |seqs| :: seqs[k].stream.finished
  }

  ghost predicate AllOk(p: Params, seqs: seq<Sequence>)
    requires p.Valid()
  {
    forall k | 0 <= k < |seqs| :: SeqOk(p, seqs[k])
  }

  /** With FINAL_ONLY there is no output before all sequences have finished. */
  function ReadingOf(p: Params, seqs: seq<Sequence>): Option<Reading>
    requires p.Valid() && forall k | 0 <= k < |seqs| :: seqs[k].Valid()
  {
    if p.kind == FinalOnly && !AllFinished(seqs) then None
    else Some(Reading(Outputs(p, seqs), AllFinished(seqs)))
  }

  /** What a reader gets of a sequence that is not read by deltas: all its tokens
      and logprobs, and its text but for what is held back while it runs. */
  predicate CarriesAll(p: Params, c: Completion, s: Sequence) {
    && c.tokenIds == s.output && c.finishReason == s.finishReason && c.stopReason == s.stopReason
    && c.logprobs == (if p.wantLogprobs then Some(s.logprobs) else None)
    && c.cumLogprob == (if p.wantLogprobs then Some(s.cumLogprob) else None)
    && c.text <= s.stream.text && (s.stream.finished ==> c.text == s.stream.text)
  }

  /** `reading` is what from_seq_group owes the caller: nothing exactly while a
      FINAL_ONLY request has an unfinished sequence; else one completion for each
      sequence, numbered, and `finished` exactly when all have finished. */
  predicate Answers(p: Params, seqs: seq<Sequence>, reading: Option<Reading>) {
    && (reading == None <==> p.kind == FinalOnly && exists k :: 0 <= k < |seqs| && !seqs[k].stream.finished)
    && (reading.Some? ==>
          && (reading.value.finished <==> forall k | 0 <= k < |seqs| :: seqs[k].stream.finished)
          && |reading.value.outputs| == |seqs|
          && (forall k | 0 <= k < |seqs| :: reading.value.outputs[k].index == k)
          && (p.kind != Delta ==> forall k | 0 <= k < |seqs| :: CarriesAll(p, reading.value.outputs[k], seqs[k])))
  }

  lemma ReadingAnswers(p: Params, seqs: seq<Sequence>)
    requires p.Valid() && forall k | 0 <= k < |seqs| :: seqs[k].Valid()
    ensures Answers(p, seqs, ReadingOf(p, seqs))
  {
    if p.kind != Delta && ReadingOf(p, seqs).Some? {
      forall k | 0 <= k < |seqs| ensures CarriesAll(p, ReadingOf(p, seqs).value.outputs[k], seqs[k]) {
        assert ReadingOf(p, seqs).value.outputs[k] == Build(p, seqs[k], k);
      }
    }
  }

  function AfterReading(p: Params, seqs: seq<Sequence>): seq<Sequence>
    requires p.Valid() && forall k | 0 <= k < |seqs| :: seqs[k].Valid()
  {
    if p.kind == FinalOnly && !AllFinished(seqs) then seqs else AdvanceAll(p, seqs)
  }

  class SequenceGroup {
    var seqs: seq<Sequence>

    constructor (seqs: seq<Sequence>)
      ensures this.seqs == seqs
    {
      this.seqs := seqs;
    }

    /** from_seq_group without cache and without an assembling group. */
    method FromSeqGroup(p: Params) returns (reading: Option<Reading>)
      requires p.Valid() && forall k | 0 <= k < |seqs| :: seqs[k].Valid()
      modifies this
      ensures reading == ReadingOf(p, old(seqs)) && Answers(p, old(seqs), reading)
      ensures seqs == AfterReading(p, old(seqs))
    {
      ReadingAnswers(p, seqs);
      var finished := AllFinished(seqs);
      if p.kind == FinalOnly && !finished {
        return None;
      }
      var built: seq<Completion> := [];
      for i := 0 to |seqs|
        invariant |seqs| == |old(seqs)|
        invariant forall k | 0 <= k < |seqs| :: seqs[k] == if k < i then Advance(p, old(seqs)[k]) else old(seqs)[k]
        invariant built == Outputs(p, old(seqs))[..i]
      {
        built := built + [Build(p, seqs[i], i)];
        seqs := seqs[i := Advance(p, seqs[i])];
      }
      assert Outputs(p, old(seqs))[..|seqs|] == Outputs(p, old(seqs));
      return Some(Reading(built, finished));
    }
  }

  // ----------------------------------------- why the first delta must carry a token

  class LogprobList {
    var items: seq<TokenLogprobs>

    constructor (items: seq<TokenLogprobs>)
      ensures this.items == items
    {
      this.items := items;
    }
  }

  /** The logprobs of a delta with `n` new tokens, as objects: an empty list of
      the sequence is handed out itself, not copied. */
  method DeltaLogprobs(own: LogprobList, n: nat) returns (list: LogprobList?)
    requires n <= |own.items|
    ensures own.items == [] ==> list == own
    ensures own.items != [] && n == 0 ==> list == null
    ensures own.items != [] && n > 0 ==> list != null && fresh(list) && list.items == own.items[|own.items| - n..]
  {
    if own.items == [] {
      return own;
    }
    if n > 0 {
      return new LogprobList(own.items[|own.items| - n..]);
    }
    return null;
  }

  /** A sequence is read when it has the logprobs `own`, again after `later` came,
      and the two deltas are merged. The result is right exactly when the first
      read found a token or nothing came later; otherwise merging writes into
      the sequence's own list. */
  method ReadTwiceAndMerge(own: LogprobList, later: seq<TokenLogprobs>) returns (merged: LogprobList)
    modifies own
    ensures merged.items == (if old(own.items) == [] then later + later else old(own.items) + later)
    ensures merged.items == old(own.items) + later <==> old(own.items) != [] || later == []
    ensures old(own.items) == [] ==> merged == own
    ensures old(own.items) != [] ==> own.items == old(own.items) + later
  {
    var before := own.items;
    var first := DeltaLogprobs(own, |before|);
    merged := first;
    own.items := own.items + later;
    var next := DeltaLogprobs(own, |later|);
    assert own.items[|own.items| - |later|..] == later;
    if next != null && next.items != [] {
      merged.items := merged.items + next.items;
    }
    assert before[|before| - |before|..] == before;
    assert later != [] ==> |later + later| != |later|;
  }
}
