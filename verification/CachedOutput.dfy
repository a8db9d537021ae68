/**
 Reading a request into a cached output (use_cache of from_seq_group in
 spexis/outputs.py): one RequestOutput and one CompletionOutput a sequence, which
 are made once and overwritten by every later call. Over any run of growing
 sequences and reads, every read gives what fresh objects would give, and no list
 of a sequence is written to.
 */
module CachedOutput {
  import opened Options
  import opened RequestOutput
  import StopStrings

  /** A Python list of token ids, or a tuple, which has no clear(). */
  class TokenList {
    var items: seq<Token>
    const immutable: bool

    constructor (items: seq<Token>, immutable: bool)
      ensures this.items == items && this.immutable == immutable
    {
      this.items, this.immutable := items, immutable;
    }
  }

  /** get_output_token_ids_to_return, from the sequence's list of all its tokens. */
  method TokensFrom(own: TokenList, s: Sequence, delta: bool) returns (ids: TokenIds)
    requires s.Valid() && own.items == s.prompt + s.output
    ensures ids == TokensToReturn(s, delta)
  {
    if !delta {
      return Many(s.output);
    }
    var n := |s.output| - s.tokenOffset;
    if n == 1 {
      return One(own.items[|own.items| - 1]);
    }
    if n == 0 {
      return Many([]);
    }
    ids := Many(own.items[|own.items| - n..]);
  }

  class CachedCompletion {
    const index: nat
    var text: string
    var tokenIds: TokenList
    var cumLogprob: Option<real>
    var logprobs: Option<seq<TokenLogprobs>>
    var finishReason: Option<string>
    var stopReason: Option<string>
    var sharesList: bool

    constructor (index: nat)
      ensures this.index == index && fresh(tokenIds) && !tokenIds.immutable
    {
      this.index, text, cumLogprob, logprobs, finishReason, stopReason, sharesList := index, "", None, None, None, None, false;
      tokenIds := new TokenList([], false);
    }

    ghost function Value(): Completion
      reads this, tokenIds
    {
      Completion(index, text, tokenIds.items, cumLogprob, logprobs, finishReason, stopReason, sharesList)
    }

    /** The part of from_seq_group that rewrites the cached completion. The cached
        ids are cleared and refilled in place when a single id comes back, and
        replaced otherwise. */
    method Refill(p: Params, s: Sequence, own: TokenList)
      requires p.Valid() && s.Valid() && own.items == s.prompt + s.output
      requires tokenIds != own && (p.kind == Delta ==> !tokenIds.immutable)
      modifies this, tokenIds
      ensures Value() == Build(p, s, index)
      ensures tokenIds != own && (p.kind == Delta ==> !tokenIds.immutable)
      ensures tokenIds == old(tokenIds) || fresh(tokenIds)
      ensures own.items == old(own.items)
    {
      var ids := TokensFrom(own, s, p.kind == Delta);
      text := TextToReturn(p, s, p.kind == Delta);
      if ids.One? {
        assert !tokenIds.immutable;
        tokenIds.items := [];
        tokenIds.items := tokenIds.items + [ids.id];
      } else {
        tokenIds := new TokenList(ids.ids, p.kind != Delta);
      }
      cumLogprob := if p.wantLogprobs then Some(s.cumLogprob) else None;
      logprobs := LogprobsToReturn(p, s).0;
      sharesList := LogprobsToReturn(p, s).1;
      finishReason := s.finishReason;
      stopReason := s.stopReason;
    }
  }

  // -------------------------------------------------------------- the cached list

  /** The cached completions are numbered; no two share a list of ids, none uses a
      sequence's own list, and with DELTA all of them can be cleared. */
  ghost predicate Separate(kind: OutputKind, list: seq<CachedCompletion>, own: seq<TokenList>)
    reads list
  {
    && (forall k | 0 <= k < |list| :: list[k].index == k && (kind == Delta ==> !list[k].tokenIds.immutable))
    && (forall j, k | 0 <= j < k < |list| :: list[j].tokenIds != list[k].tokenIds)
    && (forall k | 0 <= k < |list| :: list[k].tokenIds !in own)
  }

  /** Each sequence has its own list of its tokens. */
  ghost predicate Owned(seqs: seq<Sequence>, own: seq<TokenList>)
    reads own
  {
    && |own| == |seqs| && (forall j, k | 0 <= j < k < |own| :: own[j] != own[k])
    && forall k | 0 <= k < |own| :: own[k].items == seqs[k].prompt + seqs[k].output
  }

  method RefillAt(p: Params, list: seq<CachedCompletion>, i: nat, s: Sequence, own: seq<TokenList>)
    requires p.Valid() && s.Valid() && i < |list| && i < |own| && own[i].items == s.prompt + s.output
    requires Separate(p.kind, list, own)
    modifies list[i], list[i].tokenIds
    ensures Separate(p.kind, list, own)
    ensures list[i].Value() == Build(p, s, i)
    ensures list[i].tokenIds == old(list[i].tokenIds) || fresh(list[i].tokenIds)
    ensures forall k | 0 <= k < |list| && k != i ::
      list[k].Value() == old(list[k].Value()) && list[k].tokenIds == old(list[k].tokenIds)
    ensures forall k | 0 <= k < |own| :: own[k].items == old(own[k].items)
  {
    assert forall k | 0 <= k < |list| && k != i :: list[k].index != i;
    assert list[i].index == i; // asserted by from_seq_group
    list[i].Refill(p, s, own[i]);
  }

  ghost function Objects(list: seq<CachedCompletion>): set<object>
    reads list
  {
    (set c | c in list :: c as object) + (set c | c in list :: c.tokenIds as object)
  }

  /** The cached completion for the i-th sequence is made the first time. */
  method GrowTo(kind: OutputKind, list: seq<CachedCompletion>, i: nat, own: seq<TokenList>)
      returns (grown: seq<CachedCompletion>)
    requires Separate(kind, list, own) && i <= |list|
    ensures Separate(kind, grown, own) && i < |grown| && list <= grown
    ensures |grown| == if i < |list| then |list| else i + 1
    ensures fresh(Objects(grown) - Objects(list))
  {
    grown := list;
    if i >= |list| {
      var c := new CachedCompletion(i);
      grown := list + [c];
    }
  }

  /** The first n cached completions hold what fresh ones would. */
  ghost predicate Holds(p: Params, list: seq<CachedCompletion>, seqs: seq<Sequence>, n: nat)
    requires p.Valid() && AllOk(p, seqs)
    reads list, set c | c in list :: c.tokenIds
  {
    n <= |list| && n <= |seqs| && forall k | 0 <= k < n :: SeqOk(p, seqs[k]) && list[k].Value() == Build(p, seqs[k], k)
  }

  /** One round of the loop of from_seq_group with use_cache. */
  method ReadIntoCache(p: Params, list: seq<CachedCompletion>, i: nat, seqs: seq<Sequence>, own: seq<TokenList>)
      returns (grown: seq<CachedCompletion>)
    requires p.Valid() && AllOk(p, seqs) && i < |seqs| && Owned(seqs, own)
    requires Separate(p.kind, list, own) && Holds(p, list, seqs, i)
    modifies Objects(list)
    ensures Separate(p.kind, grown, own) && list <= grown && Holds(p, grown, seqs, i + 1) && Owned(seqs, own)
    ensures fresh(Objects(grown) - old(Objects(list)))
  {
    grown := GrowTo(p.kind, list, i, own);
    assert SeqOk(p, seqs[i]);
    assert grown[i] in grown && {grown[i] as object, grown[i].tokenIds} <= Objects(grown);
    RefillAt(p, grown, i, seqs[i], own);
  }

  lemma AdvancedSnoc(p: Params, seqs: seq<Sequence>, i: nat)
    requires p.Valid() && AllOk(p, seqs) && i < |seqs|
    ensures SeqOk(p, seqs[i]) && (forall k | 0 <= k < |seqs| :: seqs[k].Valid())
    ensures AdvanceAll(p, seqs)[..i + 1] == AdvanceAll(p, seqs)[..i] + [Advance(p, seqs[i])]
  {
    forall k | 0 <= k < |seqs| ensures seqs[k].Valid() {
      assert SeqOk(p, seqs[k]);
    }
  }

  /** The loop of from_seq_group with use_cache; `after` are the sequences with
      their cursors moved on. */
  method ReadAll(p: Params, before: seq<CachedCompletion>, seqs: seq<Sequence>, own: seq<TokenList>)
      returns (list: seq<CachedCompletion>, after: seq<Sequence>)
    requires p.Valid() && AllOk(p, seqs) && Owned(seqs, own) && Separate(p.kind, before, own)
    modifies Objects(before)
    ensures Separate(p.kind, list, own) && before <= list && Holds(p, list, seqs, |seqs|) && Owned(seqs, own)
    ensures fresh(Objects(list) - old(Objects(before)))
    ensures after == AdvanceAll(p, seqs)
  {
    list, after := before, [];
    for i := 0 to |seqs|
      invariant Separate(p.kind, list, own) && before <= list && Holds(p, list, seqs, i) && Owned(seqs, own)
      invariant fresh(Objects(list) - old(Objects(before)))
      invariant after == AdvanceAll(p, seqs)[..i]
    {
      AdvancedSnoc(p, seqs, i);
      list := ReadIntoCache(p, list, i, seqs, own);
      after := after + [Advance(p, seqs[i])];
    }
  }

  /** cached_request_output, the one object that every call returns. */
  class CachedRequestOutput {
    var outputs: seq<CachedCompletion>
    var finished: bool

    constructor ()
      ensures outputs == [] && !finished
    {
      outputs, finished := [], false;
    }
  }

  /** What a caller sees in the object right after a call. */
  ghost function Seen(r: CachedRequestOutput): Reading
    reads r, r.outputs, set c | c in r.outputs :: c.tokenIds
  {
    Reading(Values(r.outputs), r.finished)
  }

  ghost function Values(list: seq<CachedCompletion>): seq<Completion>
    reads list, set c | c in list :: c.tokenIds
  {
    seq(|list|, k requires 0 <= k < |list| reads list, set c | c in list :: c.tokenIds => list[k].Value())
  }

  lemma AdvancedIsOk(p: Params, seqs: seq<Sequence>, own: seq<TokenList>)
    requires p.Valid() && AllOk(p, seqs) && Owned(seqs, own)
    ensures (forall k | 0 <= k < |seqs| :: seqs[k].Valid())
    ensures AllOk(p, AdvanceAll(p, seqs)) && Owned(AdvanceAll(p, seqs), own)
  {
    forall k | 0 <= k < |seqs| ensures seqs[k].Valid() && SeqOk(p, Advance(p, seqs[k])) {
      assert SeqOk(p, seqs[k]);
      if p.kind == Delta {
        NewTextIsTheRest(p, seqs[k]);
      }
    }
  }

  lemma HeldIsSeen(p: Params, list: seq<CachedCompletion>, seqs: seq<Sequence>)
    requires p.Valid() && AllOk(p, seqs) && Holds(p, list, seqs, |seqs|)
    ensures (forall k | 0 <= k < |seqs| :: seqs[k].Valid())
    ensures Values(list[..|seqs|]) == Outputs(p, seqs)
  {
    forall k | 0 <= k < |seqs| ensures seqs[k].Valid() {
      assert SeqOk(p, seqs[k]);
    }
  }

  lemma SeparatePrefix(kind: OutputKind, list: seq<CachedCompletion>, n: nat, own: seq<TokenList>)
    requires Separate(kind, list, own) && n <= |list|
    ensures Separate(kind, list[..n], own) && Objects(list[..n]) <= Objects(list)
  {
    assert forall k | 0 <= k < n :: list[..n][k] == list[k];
    forall o | o in Objects(list[..n]) ensures o in Objects(list) {
      var k :| 0 <= k < n && (o == list[k] || o == list[k].tokenIds);
      assert list[k] in list;
    }
  }

  /** `outputs` of from_seq_group: one completion for each sequence. */
  method ReadOutputs(p: Params, before: seq<CachedCompletion>, seqs: seq<Sequence>, own: seq<TokenList>)
      returns (outputs: seq<CachedCompletion>, after: seq<Sequence>)
    requires p.Valid() && AllOk(p, seqs) && Owned(seqs, own) && Separate(p.kind, before, own)
    modifies Objects(before)
    ensures Separate(p.kind, outputs, own) && Owned(seqs, own)
    ensures (forall k | 0 <= k < |seqs| :: seqs[k].Valid()) && after == AdvanceAll(p, seqs)
    ensures Values(outputs) == Outputs(p, seqs)
    ensures forall k | 0 <= k < |outputs| && k < |before| :: outputs[k] == before[k]
    ensures fresh(Objects(outputs) - old(Objects(before)))
  {
    var list;
    list, after := ReadAll(p, before, seqs, own);
    HeldIsSeen(p, list, seqs);
    SeparatePrefix(p.kind, list, |seqs|, own);
    outputs := list[..|seqs|];
  }

  /** RequestOutput.__init__ on the cached object. */
  method Publish(
      kind: OutputKind, r: CachedRequestOutput, outputs: seq<CachedCompletion>, finished: bool, own: seq<TokenList>)
    requires Separate(kind, outputs, own)
    modifies r
    ensures r.outputs == outputs && Separate(kind, outputs, own) && Objects(outputs) == old(Objects(outputs))
    ensures Seen(r) == Reading(old(Values(outputs)), finished)
  {
    r.outputs, r.finished := outputs, finished;
  }

  /** All sequences are read into `r`, which keeps its completions. */
  method ReadInto(p: Params, r: CachedRequestOutput, seqs: seq<Sequence>, own: seq<TokenList>, finished: bool)
      returns (after: seq<Sequence>)
    requires p.Valid() && AllOk(p, seqs) && Owned(seqs, own) && Separate(p.kind, r.outputs, own)
    modifies r, Objects(r.outputs)
    ensures Separate(p.kind, r.outputs, own) && Owned(seqs, own)
    ensures (forall k | 0 <= k < |seqs| :: seqs[k].Valid()) && after == AdvanceAll(p, seqs)
    ensures Seen(r) == Reading(Outputs(p, seqs), finished)
    ensures forall k | 0 <= k < |r.outputs| && k < |old(r.outputs)| :: r.outputs[k] == old(r.outputs)[k]
    ensures fresh(Objects(r.outputs) - old(Objects(r.outputs)))
  {
    var outputs;
    outputs, after := ReadOutputs(p, r.outputs, seqs, own);
    Publish(p.kind, r, outputs, finished, own);
  }

  /** A list of all tokens grows with its sequence. */
  method GrowOwn(p: Params, seqs: seq<Sequence>, own: seq<TokenList>, e: Event)
    requires p.Valid() && AllOk(p, seqs) && Owned(seqs, own) && e.Grow? && e.i < |seqs| && e.token in e.logprobs
    modifies own[e.i]
    ensures SeqOk(p, seqs[e.i]) && SeqOk(p, Grown(p, seqs[e.i], e))
    ensures Owned(seqs[e.i := Grown(p, seqs[e.i], e)], own)
  {
    var s := seqs[e.i];
    assert SeqOk(p, s);
    GrownIsOk(p, s, e);
    if !s.stream.finished {
      own[e.i].items := own[e.i].items + [e.token];
    }
    assert own[e.i].items == Grown(p, s, e).prompt + Grown(p, s, e).output;
  }

  /** The sequences of a request, their lists, and cached_request_output. */
  class CachedGroup {
    const params: Params
    const own: seq<TokenList>
    var seqs: seq<Sequence>
    var cached: CachedRequestOutput?

    ghost function Completions(): seq<CachedCompletion>
      reads this, cached
    {
      if cached == null then [] else cached.outputs
    }

    ghost predicate Valid()
      reads this, cached, Completions(), own
    {
      params.Valid() && AllOk(params, seqs) && Owned(seqs, own) && Separate(params.kind, Completions(), own)
    }

    ghost function Footprint(): set<object>
      reads this, cached, Completions()
    {
      Objects(Completions()) + if cached == null then {} else {cached}
    }

    constructor (params: Params, seqs: seq<Sequence>, own: seq<TokenList>)
      requires params.Valid() && AllOk(params, seqs) && Owned(seqs, own)
      ensures Valid() && this.params == params && this.seqs == seqs && this.own == own && cached == null
    {
      this.params, this.seqs, this.own, cached := params, seqs, own, null;
    }

    /** "Init cache (if needed)". */
    method InitCache() returns (r: CachedRequestOutput)
      requires Valid()
      modifies `cached
      ensures Valid() && r == cached && Completions() == old(Completions())
      ensures old(cached) != null ==> cached == old(cached)
      ensures fresh(Footprint() - old(Footprint()))
    {
      if cached == null {
        cached := new CachedRequestOutput();
      }
      r := cached;
    }

    /** What follows: the completions and the output are overwritten. */
    method Overwrite(r: CachedRequestOutput, finished: bool)
      requires Valid() && r == cached
      modifies `seqs, r, Objects(r.outputs)
      ensures Valid() && r == cached
      ensures forall k | 0 <= k < |old(seqs)| :: old(seqs)[k].Valid()
      ensures Seen(r) == Reading(Outputs(params, old(seqs)), finished) && seqs == AdvanceAll(params, old(seqs))
      ensures forall k | 0 <= k < |r.outputs| && k < |old(r.outputs)| :: r.outputs[k] == old(r.outputs)[k]
      ensures fresh(Objects(r.outputs) - old(Objects(r.outputs)))
    {
      AdvancedIsOk(params, seqs, own);
      seqs := ReadInto(params, r, seqs, own, finished);
    }

    /** from_seq_group with use_cache: what a call with fresh objects would give, in
        the one cached object; the completions are reused, and no list of a
        sequence is written to. */
    method FromSeqGroup() returns (r: CachedRequestOutput?)
      requires Valid()
      modifies this, Footprint()
      ensures Valid() && forall k | 0 <= k < |old(seqs)| :: old(seqs)[k].Valid()
      ensures forall k | 0 <= k < |own| :: own[k].items == old(own[k].items)
      ensures ReadingOf(params, old(seqs)) == (if r == null then None else Some(Seen(r)))
      ensures Answers(params, old(seqs), if r == null then None else Some(Seen(r)))
      ensures seqs == AfterReading(params, old(seqs))
      ensures (r != null ==> r == cached) && (old(cached) != null ==> cached == old(cached))
      ensures forall k | 0 <= k < |Completions()| && k < |old(Completions())| ::
        Completions()[k] == old(Completions())[k]
      ensures fresh(Footprint() - old(Footprint()))
    {
      AdvancedIsOk(params, seqs, own);
      ReadingAnswers(params, seqs);
      var finished := AllFinished(seqs);
      if params.kind == FinalOnly && !finished {
        return null;
      }
      var output := InitCache();
      Overwrite(output, finished);
      return output;
    }

    /** The sequence grows by a token, and its list of all tokens with it. */
    method AppendToken(e: Event)
      requires Valid() && e.Grow? && e.i < |seqs| && e.token in e.logprobs
      modifies `seqs, own[e.i]
      ensures Valid() && SeqOk(params, old(seqs)[e.i])
      ensures seqs == old(seqs)[e.i := Grown(params, old(seqs)[e.i], e)]
      ensures Footprint() == old(Footprint())
    {
      assert SeqOk(params, seqs[e.i]);
      GrowOwn(params, seqs, own, e);
      SetSequence(e.i, Grown(params, seqs[e.i], e));
    }

    method SetSequence(i: nat, s: Sequence)
      requires params.Valid() && AllOk(params, seqs) && Separate(params.kind, Completions(), own)
      requires i < |seqs| && SeqOk(params, s) && Owned(seqs[i := s], own)
      modifies `seqs
      ensures Valid() && seqs == old(seqs)[i := s] && Footprint() == old(Footprint())
    {
      seqs := seqs[i := s];
    }
  }

  function ReadCount(events: seq<Event>): nat {
    if events == [] then 0 else (if events[0].Read? then 1 else 0) + ReadCount(events[1..])
  }

  lemma AllValid(p: Params, seqs: seq<Sequence>)
    requires p.Valid() && AllOk(p, seqs)
    ensures forall k | 0 <= k < |seqs| :: seqs[k].Valid()
    ensures |AfterReading(p, seqs)| == |seqs|
  {
    forall k | 0 <= k < |seqs| ensures seqs[k].Valid() {
      assert SeqOk(p, seqs[k]);
    }
  }

  /** A reading, and the sequences behind it, for sequences in order. */
  ghost predicate Reads(p: Params, seqs: seq<Sequence>, reading: Option<Reading>, after: seq<Sequence>) {
    && p.Valid() && (forall k | 0 <= k < |seqs| :: seqs[k].Valid())
    && reading == ReadingOf(p, seqs) && after == AfterReading(p, seqs)
  }

  method ReadPlain(plain: SequenceGroup, p: Params) returns (reading: Option<Reading>)
    requires p.Valid() && AllOk(p, plain.seqs)
    modifies plain
    ensures Reads(p, old(plain.seqs), reading, plain.seqs) && |plain.seqs| == |old(plain.seqs)|
  {
    AllValid(p, plain.seqs);
    reading := plain.FromSeqGroup(p);
  }

  method ReadCached(group: CachedGroup) returns (ghost seen: Option<Reading>)
    requires group.Valid()
    modifies group, group.Footprint()
    ensures group.Valid() && Reads(group.params, old(group.seqs), seen, group.seqs)
    ensures fresh(group.Footprint() - old(group.Footprint()))
  {
    var r := group.FromSeqGroup();
    seen := if r == null then None else Some(Seen(r));
  }

  method ReadBoth(plain: SequenceGroup, group: CachedGroup)
      returns (uncached: Option<Reading>, ghost seen: Option<Reading>)
    requires group.Valid() && plain.seqs == group.seqs
    modifies plain, group, group.Footprint()
    ensures group.Valid() && plain.seqs == group.seqs && |plain.seqs| == |old(plain.seqs)|
    ensures seen == uncached
    ensures fresh(group.Footprint() - old(group.Footprint()))
  {
    seen := ReadCached(group);
    uncached := ReadBeside(plain, group);
  }

  /** Reading the plain sequences leaves the cached ones alone. */
  method ReadBeside(plain: SequenceGroup, group: CachedGroup) returns (reading: Option<Reading>)
    requires group.Valid() && AllOk(group.params, plain.seqs)
    modifies plain
    ensures Reads(group.params, old(plain.seqs), reading, plain.seqs) && |plain.seqs| == |old(plain.seqs)|
    ensures group.Valid() && group.Footprint() == old(group.Footprint()) && group.seqs == old(group.seqs)
  {
    reading := ReadPlain(plain, group.params);
  }

  method GrowBoth(plain: SequenceGroup, group: CachedGroup, e: Event)
    requires group.Valid() && plain.seqs == group.seqs
    requires e.Grow? && e.i < |plain.seqs| && e.token in e.logprobs
    modifies plain, group`seqs, group.own[e.i]
    ensures group.Valid() && plain.seqs == group.seqs && |plain.seqs| == |old(plain.seqs)|
    ensures group.Footprint() == old(group.Footprint())
  {
    assert SeqOk(group.params, plain.seqs[e.i]);
    plain.seqs := plain.seqs[e.i := Grown(group.params, plain.seqs[e.i], e)];
    group.AppendToken(e);
  }

  /** Over any run of growing sequences and reads with one output kind, from a
      cache in any state that calls leave behind: every read through the cache
      gives, field by field, what a read with fresh objects gives. */
  method ServeBoth(plain: SequenceGroup, group: CachedGroup, events: seq<Event>)
      returns (uncached: seq<Option<Reading>>, ghost seen: seq<Option<Reading>>)
    requires group.Valid() && plain.seqs == group.seqs
    requires forall n | 0 <= n < |events| && events[n].Grow? ::
      events[n].i < |plain.seqs| && events[n].token in events[n].logprobs
    modifies plain, group, group.own, group.Footprint()
    ensures group.Valid() && plain.seqs == group.seqs
    ensures seen == uncached && |uncached| == ReadCount(events)
    decreases |events|
  {
    uncached, seen := [], [];
    if events != [] {
      if events[0].Read? {
        var one, same := ReadBoth(plain, group);
        uncached, seen := ServeBoth(plain, group, events[1..]);
        uncached, seen := [one] + uncached, [same] + seen;
      } else {
        GrowBoth(plain, group, events[0]);
        uncached, seen := ServeBoth(plain, group, events[1..]);
      }
    }
  }
}
