/**
 Parallel sampling: a request for n completions becomes n child requests whose
 outputs are put together again, whatever the order in which they are read and
 finish (ParallelSampleSequenceGroup in spexis/sequence.py, the first part of
 RequestOutput.from_seq_group in spexis/outputs.py, and how
 SamplingParams.__post_init__ turns `best_of` into n and _real_n).
 */
module ParallelSampling {
  import opened Options

  type Token = int

  // ------------------------------------------------------------- sampling parameters

  class SamplingParams {
    var n: nat
    var bestOf: Option<nat>
    var realN: Option<nat>

    constructor (n: nat, bestOf: Option<nat>)
      ensures this.n == n && this.bestOf == bestOf && realN == None
    {
      this.n, this.bestOf, realN := n, bestOf, None;
    }

    /** The part of __post_init__ on n, best_of and _real_n; fails where the
        source raises ValueError. The number of sequences to generate becomes
        `best_of`, the number asked for is kept aside. */
    method PostInit() returns (ok: bool)
      modifies this
      ensures bestOf == old(bestOf)
      ensures ok <==> (bestOf.Some? && bestOf.value != 0 ==> old(n) <= bestOf.value)
      ensures bestOf.None? || bestOf.value == 0 || !ok ==> n == old(n) && realN == old(realN)
      ensures ok && bestOf.Some? && bestOf.value != 0 ==>
                if old(realN).Some? && old(realN).value != 0 then n == old(n) && realN == old(realN)
                else n == bestOf.value && realN == Some(old(n))
    {
      if bestOf.Some? && bestOf.value != 0 {
        if bestOf.value < n {
          return false;
        }
        if realN.None? || realN.value == 0 {
          realN := Some(n);
          n := bestOf.value;
        }
      }
      return true;
    }
  }

  // ------------------------------------------------------------------- top sequences

  datatype Child = Child(index: nat, tokens: seq<Token>, logprob: real, finished: bool, offset: nat)

  /** Descending by cumulative logprob; children of equal logprob keep their order. */
  predicate Before(a: Child, b: Child) {
    a.logprob > b.logprob || (a.logprob == b.logprob && a.index < b.index)
  }

  ghost predicate Ranked(s: seq<Child>) {
    forall i, j | 0 <= i < j < |s| :: Before(s[i], s[j])
  }

  function Insert(c: Child, s: seq<Child>): (r: seq<Child>)
    ensures multiset(r) == multiset(s) + multiset{c}
    ensures |r| == |s| + 1
  {
    if s == [] then [c]
    else if c.logprob >= s[0].logprob then [c] + s
    else
      assert s == [s[0]] + s[1..];
      [s[0]] + Insert(c, s[1..])
  }

  /** `sorted(seqs, key=get_cumulative_logprob, reverse=True)`. */
  function SortByLogprob(s: seq<Child>): (r: seq<Child>)
    ensures multiset(r) == multiset(s)
    ensures |r| == |s|
  {
    if s == [] then []
    else
      assert s == [s[0]] + s[1..];
      Insert(s[0], SortByLogprob(s[1..]))
  }

  function TopN(s: seq<Child>, n: nat): seq<Child> {
    var sorted := SortByLogprob(s);
    if n <= |sorted| then sorted[..n] else sorted
  }

  lemma {:induction false} InsertKeepsRanked(c: Child, s: seq<Child>)
    requires Ranked(s) && forall x | x in s :: c.index < x.index
    ensures Ranked(Insert(c, s))
  {
    if s != [] && c.logprob < s[0].logprob {
      InsertKeepsRanked(c, s[1..]);
      var r := Insert(c, s[1..]);
      forall x | x in r ensures Before(s[0], x) {
        assert x in multiset(r);
        if x != c {
          assert x in s[1..];
        }
      }
    }
  }

  ghost predicate InOrder(s: seq<Child>) {
    forall i, j | 0 <= i < j < |s| :: s[i].index < s[j].index
  }

  lemma {:induction false} SortIsRanked(s: seq<Child>)
    requires InOrder(s)
    ensures Ranked(SortByLogprob(s))
  {
    if s != [] {
      SortIsRanked(s[1..]);
      var r := SortByLogprob(s[1..]);
      forall x | x in r ensures s[0].index < x.index {
        assert x in multiset(r);
        assert x in s[1..];
      }
      InsertKeepsRanked(s[0], r);
    }
  }

  /** Of n children exactly min(n, k) are kept, no dropped one is better than a
      kept one, and together they are the children. */
  lemma TopNAreTheBest(s: seq<Child>, n: nat) returns (dropped: seq<Child>)
    requires InOrder(s)
    ensures |TopN(s, n)| == if n <= |s| then n else |s|
    ensures multiset(TopN(s, n)) + multiset(dropped) == multiset(s)
    ensures forall a, b | a in TopN(s, n) && b in dropped :: Before(a, b) && a.logprob >= b.logprob
    ensures Ranked(TopN(s, n))
  {
    SortIsRanked(s);
    var sorted := SortByLogprob(s);
    if n <= |s| {
      dropped := sorted[n..];
      assert sorted == sorted[..n] + sorted[n..];
    } else {
      dropped := [];
    }
  }

  // ----------------------------------------------------------------- the group

  /** `pending` and `done` are the dicts to_be_finished and finished_reqs, as the
      sequences of their keys in insertion order. */
  datatype Group = Group(
    children: seq<Child>,
    pending: seq<nat>,
    done: seq<nat>,
    streaming: bool,
    outputProduced: bool,
    realN: Option<nat>
  )

  function Remove(s: seq<nat>, x: nat): seq<nat> {
    if s == [] then [] else if s[0] == x then s[1..] else [s[0]] + Remove(s[1..], x)
  }

  /** An output of the assembled group: what each of its sequences adds (its new
      tokens when streaming, all of them otherwise). */
  datatype Assembled = Assembled(parts: seq<(nat, seq<Token>)>, finished: bool)

  predicate AllFinished(children: seq<Child>) {
    forall k | 0 <= k < |children| :: children[k].finished
  }

  function Parts(children: seq<Child>, delta: bool): seq<(nat, seq<Token>)> {
    seq(|children|, k requires 0 <= k < |children| =>
          (children[k].index, if delta && children[k].offset <= |children[k].tokens|
                              then children[k].tokens[children[k].offset..] else children[k].tokens))
  }

  function AdvanceAll(children: seq<Child>): seq<Child> {
    seq(|children|, k requires 0 <= k < |children| => children[k].(offset := |children[k].tokens|))
  }

  /** Does maybe_assemble_group return the group for this child? */
  predicate Assembles(g: Group, i: nat)
    requires i < |g.children|
  {
    if g.streaming then g.pending != [] && g.pending[0] == i
    else g.pending == [i] && g.children[i].finished && !g.outputProduced
  }

  /** `params._real_n or params.n`, where n is the number of children. */
  function Limit(realN: nat, children: nat): nat {
    if realN == 0 then children else realN
  }

  function Kept(g: Group): seq<Child> {
    if g.realN.Some? && !g.streaming then TopN(g.children, Limit(g.realN.value, |g.children|)) else g.children
  }

  /** from_seq_group for child `i`. */
  function Poll(g: Group, i: nat): (Group, Option<Assembled>)
    requires i < |g.children|
  {
    var g' := if g.children[i].finished then g.(pending := Remove(g.pending, i), done := g.done + [i]) else g;
    if Assembles(g, i) then
      (g'.(outputProduced := g.outputProduced || !g.streaming,
           children := if g.streaming then AdvanceAll(g.children) else g.children),
       Some(Assembled(Parts(Kept(g), g.streaming), AllFinished(Kept(g)))))
    else (g', None)
  }

  class ParallelSampleGroup {
    var children: seq<Child>
    var toBeFinished: seq<nat>
    var finishedReqs: seq<nat>
    const streaming: bool
    var outputProduced: bool
    const realN: Option<nat>

    ghost function State(): Group
      reads this
    {
      Group(children, toBeFinished, finishedReqs, streaming, outputProduced, realN)
    }

    /** add_request: n children, all of them to be finished. */
    constructor (n: nat, streaming: bool, realN: Option<nat>)
      ensures State() == NewGroup(n, streaming, realN)
    {
      children := seq(n, (k: nat) => Child(k, [], 0.0, false, 0));
      toBeFinished := seq(n, (k: nat) => k);
      finishedReqs := [];
      this.streaming, outputProduced, this.realN := streaming, false, realN;
    }

    method FinishSeq(i: nat)
      requires i in toBeFinished
      modifies `toBeFinished, `finishedReqs
      ensures toBeFinished == Remove(old(toBeFinished), i) && finishedReqs == old(finishedReqs) + [i]
    {
      toBeFinished := Remove(toBeFinished, i);
      finishedReqs := finishedReqs + [i];
    }

    method MaybeAssembleGroup(i: nat) returns (group: Option<seq<Child>>)
      requires i < |children| && i in toBeFinished
      modifies `outputProduced
      ensures group == if Assembles(old(State()), i) then Some(Kept(old(State()))) else None
      ensures var n := |children|;
        group.Some? ==> |group.value| == if !streaming && realN.Some? && 0 < realN.value <= n then realN.value else n
      ensures outputProduced == (old(outputProduced) || (!streaming && Assembles(old(State()), i)))
    {
      if streaming {
        return if toBeFinished[0] == i then Some(children) else None;
      }
      if |toBeFinished| == 1 && children[i].finished {
        assert toBeFinished == [i];
        if !outputProduced {
          outputProduced := true;
          return Some(if realN.Some? then TopN(children, Limit(realN.value, |children|)) else children);
        }
      }
      return None;
    }

    method FromSeqGroup(i: nat) returns (output: Option<Assembled>)
      requires i < |children| && i in toBeFinished
      modifies this
      ensures (State(), output) == Poll(old(State()), i)
    {
      var finished := children[i].finished;
      var group := MaybeAssembleGroup(i);
      if finished {
        FinishSeq(i);
      }
      if group.None? {
        return None;
      }
      output := Some(Assembled(Parts(group.value, streaming), AllFinished(group.value)));
      if streaming {
        children := AdvanceAll(children);
      }
    }
  }

  function NewGroup(n: nat, streaming: bool, realN: Option<nat>): Group {
    Group(seq(n, (k: nat) => Child(k, [], 0.0, false, 0)), seq(n, (k: nat) => k), [], streaming, false, realN)
  }

  // ------------------------------------------------------------------ whole runs

  datatype Event = Generate(i: nat, token: Token, logprob: real) | Finish(i: nat) | Read(i: nat)

  /** The group, what a streaming user has received of each child, and all outputs. */
  datatype Run = Run(group: Group, received: seq<seq<Token>>, outputs: seq<Assembled>)

  /** Children generate until they finish; the engine reads a child's outputs
      any number of times before it finishes and once after. */
  predicate Enabled(r: Run, e: Event) {
    e.i < |r.group.children| &&
    match e
    case Generate(i, _, _) => !r.group.children[i].finished
    case Finish(i) => !r.group.children[i].finished
    case Read(i) => i in r.group.pending
  }

  function Received(received: seq<seq<Token>>, parts: seq<(nat, seq<Token>)>): seq<seq<Token>> {
    seq(|received|, k requires 0 <= k < |received| => if k < |parts| then received[k] + parts[k].1 else received[k])
  }

  function Step(r: Run, e: Event): Run
    requires Enabled(r, e)
  {
    var g := r.group;
    match e
    case Generate(i, token, logprob) =>
      var c := g.children[i];
      r.(group := g.(children := g.children[i := c.(tokens := c.tokens + [token], logprob := c.logprob + logprob)]))
    case Finish(i) =>
      r.(group := g.(children := g.children[i := g.children[i].(finished := true)]))
    case Read(i) =>
      match Poll(g, i)
      case (g', None) => r.(group := g')
      case (g', Some(o)) =>
        Run(g', if g.streaming then Received(r.received, o.parts) else r.received, r.outputs + [o])
  }

  ghost predicate IsRun(r: Run, events: seq<Event>)
    decreases |events|
  {
    events == [] || (Enabled(r, events[0]) && IsRun(Step(r, events[0]), events[1..]))
  }

  function RunAll(r: Run, events: seq<Event>): Run
    requires IsRun(r, events)
    decreases |events|
  {
    if events == [] then r else RunAll(Step(r, events[0]), events[1..])
  }

  function Start(n: nat, streaming: bool, realN: Option<nat>): Run {
    Run(NewGroup(n, streaming, realN), seq(n, k => []), [])
  }

  ghost predicate Increasing(s: seq<nat>) {
    forall i, j | 0 <= i < j < |s| :: s[i] < s[j]
  }

  ghost predicate Distinct(s: seq<nat>) {
    forall i, j | 0 <= i < j < |s| :: s[i] != s[j]
  }

  lemma {:induction false} RemoveOne(s: seq<nat>, x: nat)
    requires Increasing(s) && x in s
    ensures Increasing(Remove(s, x))
    ensures forall y :: y in Remove(s, x) <==> y in s && y != x
    ensures Remove(s, x) == [] <==> s == [x]
  {
    if s[0] != x {
      RemoveOne(s[1..], x);
      var r := Remove(s[1..], x);
      forall k | 0 <= k < |r| ensures s[0] < r[k] {
        assert r[k] in s[1..];
      }
      forall y ensures y in Remove(s, x) <==> y in s && y != x {
        assert y in s <==> y == s[0] || y in s[1..];
      }
    } else {
      forall y ensures y in s[1..] <==> y in s && y != x {
        assert s == [s[0]] + s[1..];
      }
    }
  }

  /** Every child is in exactly one of the two dicts, once; those that are done
      have finished. */
  ghost predicate Partitioned(g: Group) {
    && Increasing(g.pending) && Distinct(g.done)
    && (forall k | 0 <= k < |g.children| :: g.children[k].index == k && (k in g.pending <==> k !in g.done))
    && (forall k | k in g.pending :: k < |g.children|)
    && (forall k | k in g.done :: k < |g.children| && g.children[k].finished)
  }

  ghost predicate StreamingOk(r: Run) {
    var g := r.group;
    && |r.received| == |g.children|
    && (forall k | 0 <= k < |g.children| ::
          g.children[k].offset <= |g.children[k].tokens| && r.received[k] == g.children[k].tokens[..g.children[k].offset])
    && (g.pending == [] ==> forall k | 0 <= k < |g.children| :: g.children[k].offset == |g.children[k].tokens|)
  }

  ghost predicate FinalOk(r: Run) {
    var g := r.group;
    if g.pending == [] then
      AllFinished(g.children) && r.outputs == [Assembled(Parts(Kept(g), false), true)]
    else !g.outputProduced && r.outputs == []
  }

  ghost predicate Inv(r: Run) {
    Partitioned(r.group) && (if r.group.streaming then StreamingOk(r) else FinalOk(r))
  }

  lemma PollKeepsPartition(g: Group, i: nat)
    requires Partitioned(g) && i < |g.children| && i in g.pending
    ensures Partitioned(Poll(g, i).0)
    ensures Poll(g, i).0.pending == [] <==> g.pending == [i] && g.children[i].finished
  {
    RemoveOne(g.pending, i);
  }

  lemma StreamingReadKeepsInvariant(r: Run, i: nat)
    requires Inv(r) && r.group.streaming && Enabled(r, Read(i))
    ensures Inv(Step(r, Read(i)))
  {
    PollKeepsPartition(r.group, i);
    if Assembles(r.group, i) {
      DeltasCatchUp(r.group.children, r.received);
    }
  }

  /** One assembled delta brings the user level with every child. */
  lemma DeltasCatchUp(children: seq<Child>, received: seq<seq<Token>>)
    requires |received| == |children|
    requires forall k | 0 <= k < |children| ::
               children[k].offset <= |children[k].tokens| && received[k] == children[k].tokens[..children[k].offset]
    ensures var received' := Received(received, Parts(children, true)); var children' := AdvanceAll(children);
            forall k | 0 <= k < |children| ::
              && children'[k] == children[k].(offset := |children[k].tokens|)
              && received'[k] == children[k].tokens == children'[k].tokens[..children'[k].offset]
  {
    var received' := Received(received, Parts(children, true));
    forall k | 0 <= k < |children| ensures received'[k] == children[k].tokens == children[k].tokens[..|children[k].tokens|] {
      var c := children[k];
      assert received'[k] == received[k] + c.tokens[c.offset..];
      assert c.tokens[..c.offset] + c.tokens[c.offset..] == c.tokens;
    }
  }

  lemma FinalReadKeepsInvariant(r: Run, i: nat)
    requires Inv(r) && !r.group.streaming && Enabled(r, Read(i))
    ensures Inv(Step(r, Read(i)))
  {
    var g := r.group;
    PollKeepsPartition(g, i);
    if g.pending == [i] && g.children[i].finished {
      forall k | 0 <= k < |g.children| ensures g.children[k].finished {
        assert k in g.pending || k in g.done;
      }
      KeptAreChildren(g);
      forall k | 0 <= k < |Kept(g)| ensures Kept(g)[k].finished {
        assert Kept(g)[k] in g.children;
      }
      assert Step(r, Read(i)).outputs == [Assembled(Parts(Kept(g), false), true)];
    }
  }

  lemma KeptAreChildren(g: Group)
    ensures forall c | c in Kept(g) :: c in g.children
  {
    forall c | c in Kept(g) ensures c in g.children {
      if g.realN.Some? && !g.streaming {
        assert c in SortByLogprob(g.children);
        assert c in multiset(SortByLogprob(g.children));
      }
    }
  }

  lemma StepKeepsInvariant(r: Run, e: Event)
    requires Inv(r) && Enabled(r, e)
    ensures Inv(Step(r, e))
  {
    match e
    case Read(i) =>
      if r.group.streaming {
        StreamingReadKeepsInvariant(r, i);
      } else {
        FinalReadKeepsInvariant(r, i);
      }
    case Generate(i, token, _) =>
      if r.group.pending == [] { UnfinishedIsPending(r.group, i); }
    case Finish(i) =>
      if r.group.pending == [] { UnfinishedIsPending(r.group, i); }
  }

  lemma UnfinishedIsPending(g: Group, i: nat)
    requires Partitioned(g) && i < |g.children| && !g.children[i].finished
    ensures i in g.pending
  {
  }

  lemma {:induction false} RunKeepsInvariant(r: Run, events: seq<Event>)
    requires Inv(r) && IsRun(r, events)
    ensures Inv(RunAll(r, events))
    ensures var g := RunAll(r, events).group;
            g.streaming == r.group.streaming && g.realN == r.group.realN && |g.children| == |r.group.children|
    decreases |events|
  {
    if events != [] {
      StepKeepsInvariant(r, events[0]);
      RunKeepsInvariant(Step(r, events[0]), events[1..]);
    }
  }

  lemma StartInvariant(n: nat, streaming: bool, realN: Option<nat>)
    requires n >= 1
    ensures Inv(Start(n, streaming, realN))
  {
    var g := NewGroup(n, streaming, realN);
    forall k | 0 <= k < n ensures k in g.pending {
      assert g.pending[k] == k;
    }
  }

  /** The tokens that the events of a run generate for child i, in order, and the
      sum of their logprobs. */
  function Generated(events: seq<Event>, i: nat): seq<Token> {
    if events == [] then []
    else (if events[0].Generate? && events[0].i == i then [events[0].token] else []) + Generated(events[1..], i)
  }

  function GeneratedLogprob(events: seq<Event>, i: nat): real {
    if events == [] then 0.0
    else (if events[0].Generate? && events[0].i == i then events[0].logprob else 0.0) + GeneratedLogprob(events[1..], i)
  }

  /** A child holds what was generated for it, and nothing else. */
  lemma {:induction false} ChildrenHoldWhatWasGenerated(r: Run, events: seq<Event>, i: nat)
    requires IsRun(r, events) && i < |r.group.children|
    ensures |RunAll(r, events).group.children| == |r.group.children|
    ensures RunAll(r, events).group.children[i].tokens == r.group.children[i].tokens + Generated(events, i)
    ensures RunAll(r, events).group.children[i].logprob == r.group.children[i].logprob + GeneratedLogprob(events, i)
    decreases |events|
  {
    if events == [] {
      assert r.group.children[i].tokens + [] == r.group.children[i].tokens;
    } else {
      StepGenerates(r, events[0], i);
      ChildrenHoldWhatWasGenerated(Step(r, events[0]), events[1..], i);
      var new_ := if events[0].Generate? && events[0].i == i then [events[0].token] else [];
      assert r.group.children[i].tokens + new_ + Generated(events[1..], i)
          == r.group.children[i].tokens + (new_ + Generated(events[1..], i));
    }
  }

  lemma StepGenerates(r: Run, e: Event, i: nat)
    requires Enabled(r, e) && i < |r.group.children|
    ensures |Step(r, e).group.children| == |r.group.children|
    ensures var (c, c') := (r.group.children[i], Step(r, e).group.children[i]); var own := e.Generate? && e.i == i;
            && c'.tokens == c.tokens + (if own then [e.token] else [])
            && c'.logprob == c.logprob + (if own then e.logprob else 0.0)
  {
  }

  lemma StartedRunHolds(n: nat, streaming: bool, realN: Option<nat>, events: seq<Event>, i: nat)
    requires IsRun(Start(n, streaming, realN), events) && i < n
    ensures var g := RunAll(Start(n, streaming, realN), events).group;
            && |g.children| == n
            && g.children[i].tokens == Generated(events, i) && g.children[i].logprob == GeneratedLogprob(events, i)
  {
    ChildrenHoldWhatWasGenerated(Start(n, streaming, realN), events, i);
  }

  /** Streaming, over every interleaving of generation, finishing and reading:
      the children are always split between the two dicts; of what was generated
      for each child the user has received a prefix, no token twice; and once the
      last child was read after finishing, everything. */
  lemma StreamingDeliversEverything(n: nat, realN: Option<nat>, events: seq<Event>)
    requires n >= 1 && IsRun(Start(n, true, realN), events)
    ensures var r := RunAll(Start(n, true, realN), events); var g := r.group;
            && Partitioned(g) && |g.children| == |r.received| == n
            && (forall k | 0 <= k < n :: r.received[k] <= Generated(events, k))
            && (g.pending == [] ==>
                  forall k | 0 <= k < n :: r.received[k] == Generated(events, k) && g.children[k].finished)
  {
    StartInvariant(n, true, realN);
    RunKeepsInvariant(Start(n, true, realN), events);
    var r := RunAll(Start(n, true, realN), events);
    var g := r.group;
    forall k | 0 <= k < n
      ensures r.received[k] <= Generated(events, k)
      ensures g.pending == [] ==> r.received[k] == Generated(events, k) && g.children[k].finished
    {
      StartedRunHolds(n, true, realN, events, k);
      if g.pending == [] {
        assert k in g.done;
      }
    }
  }

  /** `parts` are `m` of the n children, each once and with all its tokens, best
      first, and no child left out has a higher logprob than one of them. */
  ghost predicate BestParts(parts: seq<(nat, seq<Token>)>, events: seq<Event>, n: nat, m: nat) {
    && |parts| == m
    && (forall a | 0 <= a < m :: parts[a].0 < n && parts[a].1 == Generated(events, parts[a].0))
    && (forall a, b | 0 <= a < b < m ::
          && parts[a].0 != parts[b].0
          && GeneratedLogprob(events, parts[a].0) >= GeneratedLogprob(events, parts[b].0))
    && (forall a, i: nat | 0 <= a < m && i < n && (forall b | 0 <= b < m :: parts[b].0 != i) ::
          GeneratedLogprob(events, parts[a].0) >= GeneratedLogprob(events, i))
  }

  /** Children numbered by position, with what the events generated. */
  ghost predicate Holding(children: seq<Child>, events: seq<Event>) {
    forall k: nat | k < |children| ::
      && children[k].index == k && children[k].tokens == Generated(events, k)
      && children[k].logprob == GeneratedLogprob(events, k)
  }

  lemma TopMember(children: seq<Child>, m: nat, a: nat)
    requires a < |TopN(children, m)|
    ensures TopN(children, m)[a] in children
  {
    assert TopN(children, m)[a] in SortByLogprob(children);
    assert TopN(children, m)[a] in multiset(SortByLogprob(children));
  }

  lemma TopPartsAreTheBest(children: seq<Child>, events: seq<Event>, m: nat)
    requires Holding(children, events) && m <= |children|
    ensures BestParts(Parts(TopN(children, m), false), events, |children|, m)
  {
    var kept := TopN(children, m);
    var parts := Parts(kept, false);
    var dropped := TopNAreTheBest(children, m);
    forall a: nat | a < m
      ensures kept[a].index < |children| && children[kept[a].index] == kept[a]
      ensures parts[a] == (kept[a].index, Generated(events, kept[a].index))
    {
      TopMember(children, m, a);
    }
    forall a, b | 0 <= a < b < m
      ensures parts[a].0 != parts[b].0 && kept[a].logprob >= kept[b].logprob
    {
      assert Before(kept[a], kept[b]);
    }
    forall a, i: nat | 0 <= a < m && i < |children| && (forall b | 0 <= b < m :: parts[b].0 != i)
      ensures kept[a].logprob >= children[i].logprob
    {
      LeftOutIsDropped(children, kept, dropped, i);
      assert kept[a] in kept;
    }
  }

  lemma LeftOutIsDropped(children: seq<Child>, kept: seq<Child>, dropped: seq<Child>, i: nat)
    requires multiset(kept) + multiset(dropped) == multiset(children) && i < |children|
    requires forall b | 0 <= b < |kept| :: kept[b] != children[i]
    ensures children[i] in dropped
  {
    assert children[i] in multiset(children) && children[i] !in multiset(kept);
  }

  /** Without streaming, for every order of finishing and any reads in between:
      nothing is put out while a child is still to be finished, and when the last
      one was read there is exactly one output, finished: with _real_n the best
      _real_n children, else all of them in order, each with all its tokens. */
  lemma OneOutputWhenAllAreFinished(n: nat, realN: Option<nat>, events: seq<Event>)
    requires n >= 1 && IsRun(Start(n, false, realN), events)
    ensures var r := RunAll(Start(n, false, realN), events); var g := r.group;
            && Partitioned(g) && |g.children| == n
            && (g.pending != [] ==> r.outputs == [])
            && (g.pending == [] ==> |r.outputs| == 1 && r.outputs[0].finished)
            && (g.pending == [] ==> forall k | 0 <= k < n :: g.children[k].finished)
            && (g.pending == [] && realN.None? ==>
                  r.outputs[0].parts == seq(n, (k: nat) => (k, Generated(events, k))))
            && (g.pending == [] && realN.Some? ==>
                  BestParts(r.outputs[0].parts, events, n, if 0 < realN.value <= n then realN.value else n))
  {
    StartInvariant(n, false, realN);
    RunKeepsInvariant(Start(n, false, realN), events);
    var g := RunAll(Start(n, false, realN), events).group;
    forall k: nat | k < n
      ensures g.children[k].index == k && g.children[k].tokens == Generated(events, k)
      ensures g.children[k].logprob == GeneratedLogprob(events, k)
    {
      StartedRunHolds(n, false, realN, events, k);
    }
    if g.pending == [] {
      KeptParts(g, events, n);
    }
  }

  lemma KeptParts(g: Group, events: seq<Event>, n: nat)
    requires !g.streaming && |g.children| == n && Holding(g.children, events)
    ensures g.realN.None? ==> Parts(Kept(g), false) == seq(n, (k: nat) => (k, Generated(events, k)))
    ensures g.realN.Some? ==>
      BestParts(Parts(Kept(g), false), events, n, if 0 < g.realN.value <= n then g.realN.value else n)
  {
    if g.realN.Some? {
      TopPartsAreTheBest(g.children, events, if 0 < g.realN.value <= n then g.realN.value else n);
      if g.realN.value > n {
        assert TopN(g.children, g.realN.value) == TopN(g.children, n);
      }
    }
  }

  // ------------------------------------------------- how many outputs are marked finished?

  function FinishedCount(outputs: seq<Assembled>): nat {
    if outputs == [] then 0
    else FinishedCount(outputs[..|outputs| - 1]) + if outputs[|outputs| - 1].finished then 1 else 0
  }

  lemma CountSnoc(outputs: seq<Assembled>, o: Assembled)
    ensures FinishedCount(outputs + [o]) == FinishedCount(outputs) + if o.finished then 1 else 0
  {
    assert (outputs + [o])[..|outputs|] == outputs;
  }

  /** The event puts out the group, marked finished. */
  predicate PutsOutFinished(r: Run, e: Event)
    requires Enabled(r, e)
  {
    e.Read? && r.group.pending[0] == e.i && forall k | 0 <= k < |r.group.children| :: r.group.children[k].finished
  }

  lemma StepCounts(r: Run, e: Event)
    requires Inv(r) && r.group.streaming && Enabled(r, e)
    ensures FinishedCount(Step(r, e).outputs) == FinishedCount(r.outputs) + if PutsOutFinished(r, e) then 1 else 0
  {
    if e.Read? && r.group.pending[0] == e.i {
      CountSnoc(r.outputs, Assembled(Parts(Kept(r.group), true), AllFinished(Kept(r.group))));
    }
  }

  /** Nothing happens once no child is pending. */
  lemma NothingPendingNothingHappens(r: Run, events: seq<Event>)
    requires Inv(r) && IsRun(r, events)
    ensures events != [] ==> r.group.pending != []
  {
    if events != [] && !events[0].Read? {
      UnfinishedIsPending(r.group, events[0].i);
    }
  }

  /** The last child to be read is alone, so its output is put out, finished. */
  lemma LastReadPutsOut(r: Run, i: nat)
    requires Inv(r) && r.group.streaming && Enabled(r, Read(i))
    requires r.group.pending != [] && Step(r, Read(i)).group.pending == []
    ensures PutsOutFinished(r, Read(i))
  {
    PollKeepsPartition(r.group, i);
    var g := r.group;
    forall k | 0 <= k < |g.children| ensures g.children[k].finished {
      assert k in g.pending || k in g.done;
    }
  }

  /** From a child pending to none, at least one output is marked finished. */
  lemma {:induction false} CompletingPutsOut(r: Run, events: seq<Event>)
    requires Inv(r) && r.group.streaming && IsRun(r, events) && RunAll(r, events).group.pending == []
    ensures FinishedCount(RunAll(r, events).outputs) >= FinishedCount(r.outputs) + if r.group.pending == [] then 0 else 1
    decreases |events|
  {
    if r.group.pending == [] {
      NothingPendingNothingHappens(r, events);
    } else {
      var r' := Step(r, events[0]);
      StepKeepsInvariant(r, events[0]);
      StepCounts(r, events[0]);
      CompletingPutsOut(r', events[1..]);
      if r'.group.pending == [] && events[0].Read? {
        LastReadPutsOut(r, events[0].i);
      }
    }
  }

  /** The first output marked finished is put out when that child is the only one
      pending. */
  ghost predicate FirstFinishedIsAlone(r: Run, events: seq<Event>)
    requires IsRun(r, events)
    decreases |events|
  {
    events != [] &&
    if PutsOutFinished(r, events[0]) then r.group.pending == [events[0].i]
    else FirstFinishedIsAlone(Step(r, events[0]), events[1..])
  }

  lemma {:induction false} OneMoreFinishedExactlyWhen(r: Run, events: seq<Event>)
    requires Inv(r) && r.group.streaming && IsRun(r, events) && RunAll(r, events).group.pending == []
    requires r.group.pending != []
    ensures FinishedCount(RunAll(r, events).outputs) == FinishedCount(r.outputs) + 1 <==> FirstFinishedIsAlone(r, events)
    decreases |events|
  {
    var e, r' := events[0], Step(r, events[0]);
    StepKeepsInvariant(r, e);
    StepCounts(r, e);
    if PutsOutFinished(r, e) {
      PollKeepsPartition(r.group, e.i);
      CompletingPutsOut(r', events[1..]);
      if r'.group.pending == [] {
        NothingPendingNothingHappens(r', events[1..]);
      }
    } else {
      if r'.group.pending == [] && e.Read? {
        LastReadPutsOut(r, e.i);
      }
      OneMoreFinishedExactlyWhen(r', events[1..]);
    }
  }

  /** Over every streaming run in which all children are read to their end: some
      output is marked finished, and exactly one is exactly when the first so
      marked is put out for the only child still pending. */
  lemma OneFinishedOutputExactlyWhen(n: nat, realN: Option<nat>, events: seq<Event>)
    requires n >= 1 && IsRun(Start(n, true, realN), events)
    requires RunAll(Start(n, true, realN), events).group.pending == []
    ensures FinishedCount(RunAll(Start(n, true, realN), events).outputs) >= 1
    ensures FinishedCount(RunAll(Start(n, true, realN), events).outputs) == 1
       <==> FirstFinishedIsAlone(Start(n, true, realN), events)
  {
    StartInvariant(n, true, realN);
    CompletingPutsOut(Start(n, true, realN), events);
    OneMoreFinishedExactlyWhen(Start(n, true, realN), events);
  }

  function FinishFrom(k: nat, n: nat): seq<Event>
    requires k <= n
    decreases n - k
  {
    if k == n then [] else [Finish(k)] + FinishFrom(k + 1, n)
  }

  function ReadEach(pending: seq<nat>): seq<Event> {
    if pending == [] then [] else [Read(pending[0])] + ReadEach(pending[1..])
  }

  lemma {:induction false} RunsAppend(r: Run, a: seq<Event>, b: seq<Event>)
    requires IsRun(r, a) && IsRun(RunAll(r, a), b)
    ensures IsRun(r, a + b) && RunAll(r, a + b) == RunAll(RunAll(r, a), b)
    decreases |a|
  {
    if a == [] {
      assert a + b == b;
    } else {
      assert (a + b)[1..] == a[1..] + b;
      RunsAppend(Step(r, a[0]), a[1..], b);
    }
  }

  lemma FinishingOne(r: Run, k: nat)
    requires Inv(r) && k < |r.group.children|
    requires forall j | 0 <= j < |r.group.children| :: r.group.children[j].finished <==> j < k
    ensures Enabled(r, Finish(k))
    ensures var r' := Step(r, Finish(k));
      && Inv(r') && |r'.group.children| == |r.group.children|
      && (forall j | 0 <= j < |r'.group.children| :: r'.group.children[j].finished <==> j < k + 1)
      && r'.outputs == r.outputs && r'.group.pending == r.group.pending && r'.group.streaming == r.group.streaming
  {
    StepKeepsInvariant(r, Finish(k));
  }

  lemma {:induction false} FinishingAll(r: Run, k: nat)
    requires Inv(r) && k <= |r.group.children|
    requires forall j | 0 <= j < |r.group.children| :: r.group.children[j].finished <==> j < k
    ensures var events := FinishFrom(k, |r.group.children|);
      && IsRun(r, events) && Inv(RunAll(r, events))
      && RunAll(r, events).outputs == r.outputs && AllFinished(RunAll(r, events).group.children)
      && RunAll(r, events).group.pending == r.group.pending && RunAll(r, events).group.streaming == r.group.streaming
    decreases |r.group.children| - k
  {
    if k < |r.group.children| {
      FinishingOne(r, k);
      FinishingAll(Step(r, Finish(k)), k + 1);
      var rest := FinishFrom(k + 1, |r.group.children|);
      assert ([Finish(k)] + rest)[1..] == rest;
    }
  }

  /** Once all have finished, reading the pending children in order marks one
      output for each of them. */
  lemma {:induction false} EachReadPutsOut(r: Run)
    requires Inv(r) && r.group.streaming && AllFinished(r.group.children)
    ensures var events := ReadEach(r.group.pending);
      IsRun(r, events) && FinishedCount(RunAll(r, events).outputs) == FinishedCount(r.outputs) + |r.group.pending|
    decreases |r.group.pending|
  {
    if r.group.pending != [] {
      var i := r.group.pending[0];
      assert i in r.group.pending;
      var r' := Step(r, Read(i));
      StepKeepsInvariant(r, Read(i));
      StepCounts(r, Read(i));
      assert r'.group.pending == r.group.pending[1..];
      EachReadPutsOut(r');
      var rest := ReadEach(r'.group.pending);
      assert ([Read(i)] + rest)[1..] == rest;
    }
  }

  /** When n children finish before any of them is read, a streaming user gets n
      outputs marked finished. */
  lemma AsManyFinishedOutputs(n: nat, realN: Option<nat>)
    requires n >= 1
    ensures var r := Start(n, true, realN); var events := FinishFrom(0, n) + ReadEach(r.group.pending);
      IsRun(r, events) && FinishedCount(RunAll(r, events).outputs) == n
  {
    var r := Start(n, true, realN);
    StartInvariant(n, true, realN);
    FinishingAll(r, 0);
    EachReadPutsOut(RunAll(r, FinishFrom(0, n)));
    RunsAppend(r, FinishFrom(0, n), ReadEach(r.group.pending));
  }
}
