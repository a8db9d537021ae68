/**
 The batching loop of run_hf (benchmarks/benchmark_throughput.py): requests are
 packed in order into batches, and the greedy rule uses as few batches as any
 in-order packing can.
 */
module GreedyBatching {
  datatype Request = Request(promptLen: nat, outputLen: nat)

  const MAX_TOTAL_LEN: nat := 2048

  function Max(a: nat, b: nat): nat { if a > b then a else b }

  function MaxPrompt(batch: seq<Request>): nat {
    if batch == [] then 0 else Max(MaxPrompt(batch[..|batch| - 1]), batch[|batch| - 1].promptLen)
  }

  function MaxOutput(batch: seq<Request>): nat {
    if batch == [] then 0 else Max(MaxOutput(batch[..|batch| - 1]), batch[|batch| - 1].outputLen)
  }

  /** A batch that the limits allow; a single request is always a batch. */
  predicate Feasible(batch: seq<Request>, maxBatchSize: int) {
    && batch != []
    && (|batch| > 1 ==> |batch| <= maxBatchSize && MaxPrompt(batch) + MaxOutput(batch) <= MAX_TOTAL_LEN)
  }

  /** The loop's test whether `next` may join the open batch. */
  predicate Fits(batch: seq<Request>, next: Request, maxBatchSize: int) {
    && |batch| < maxBatchSize
    && Max(MaxPrompt(batch), next.promptLen) + Max(MaxOutput(batch), next.outputLen) <= MAX_TOTAL_LEN
  }

  /** The batches made from an open batch and the requests to come. */
  function GreedyFrom(batch: seq<Request>, rest: seq<Request>, maxBatchSize: int): seq<seq<Request>>
    decreases |rest|, |batch|
  {
    if rest == [] then if batch == [] then [] else [batch]
    else if batch == [] || Fits(batch, rest[0], maxBatchSize) then GreedyFrom(batch + [rest[0]], rest[1..], maxBatchSize)
    else [batch] + GreedyFrom([], rest, maxBatchSize)
  }

  lemma GreedyTakes(batch: seq<Request>, requests: seq<Request>, i: nat, maxBatchSize: int)
    requires i < |requests| && (batch == [] || Fits(batch, requests[i], maxBatchSize))
    ensures GreedyFrom(batch, requests[i..], maxBatchSize)
         == GreedyFrom(batch + [requests[i]], requests[i + 1..], maxBatchSize)
  {
    assert requests[i..][0] == requests[i] && requests[i..][1..] == requests[i + 1..];
  }

  lemma GreedyFlushes(batch: seq<Request>, requests: seq<Request>, i: nat, maxBatchSize: int)
    requires i <= |requests| && batch != []
    requires i < |requests| ==> !Fits(batch, requests[i], maxBatchSize)
    ensures GreedyFrom(batch, requests[i..], maxBatchSize)
         == [batch] + GreedyFrom([], requests[i..], maxBatchSize)
  {
    if i < |requests| {
      assert requests[i..][0] == requests[i];
    }
  }

  lemma MaxSnoc(batch: seq<Request>, r: Request)
    ensures MaxPrompt(batch + [r]) == Max(MaxPrompt(batch), r.promptLen)
    ensures MaxOutput(batch + [r]) == Max(MaxOutput(batch), r.outputLen)
  {
    assert (batch + [r])[..|batch|] == batch;
  }

  lemma Regroup(batches: seq<seq<Request>>, batch: seq<Request>, rest: seq<seq<Request>>)
    ensures batches + ([batch] + rest) == batches + [batch] + rest
  {
  }

  method RunHf(requests: seq<Request>, maxBatchSize: int) returns (batches: seq<seq<Request>>)
    ensures batches == GreedyFrom([], requests, maxBatchSize)
  {
    batches := [];
    var batch: seq<Request> := [];
    var maxPromptLen, maxOutputLen := 0, 0;
    for i := 0 to |requests|
      invariant maxPromptLen == MaxPrompt(batch) && maxOutputLen == MaxOutput(batch)
      invariant i == |requests| ==> batch == []
      invariant batch != [] ==> i < |requests| && Fits(batch, requests[i], maxBatchSize)
      invariant GreedyFrom([], requests, maxBatchSize) == batches + GreedyFrom(batch, requests[i..], maxBatchSize)
    {
      GreedyTakes(batch, requests, i, maxBatchSize);
      MaxSnoc(batch, requests[i]);
      batch := batch + [requests[i]];
      maxPromptLen := Max(maxPromptLen, requests[i].promptLen);
      maxOutputLen := Max(maxOutputLen, requests[i].outputLen);
      if |batch| < maxBatchSize && i != |requests| - 1 {
        if Max(maxPromptLen, requests[i + 1].promptLen) + Max(maxOutputLen, requests[i + 1].outputLen) <= MAX_TOTAL_LEN {
          continue;
        }
      }
      GreedyFlushes(batch, requests, i + 1, maxBatchSize);
      Regroup(batches, batch, GreedyFrom([], requests[i + 1..], maxBatchSize));
      batches := batches + [batch];
      batch := [];
      maxPromptLen, maxOutputLen := 0, 0;
    }
    assert requests[|requests|..] == [];
  }

  // ------------------------------------------------------------------- partitions

  function Concat(batches: seq<seq<Request>>): seq<Request> {
    if batches == [] then [] else batches[0] + Concat(batches[1..])
  }

  ghost predicate AllFeasible(batches: seq<seq<Request>>, maxBatchSize: int) {
    forall k | 0 <= k < |batches| :: Feasible(batches[k], maxBatchSize)
  }

  /** An in-order packing of the requests within the limits. */
  ghost predicate Packing(batches: seq<seq<Request>>, requests: seq<Request>, maxBatchSize: int) {
    AllFeasible(batches, maxBatchSize) && Concat(batches) == requests
  }

  lemma {:induction false} MaxIsBound(batch: seq<Request>, r: Request)
    requires r in batch
    ensures r.promptLen <= MaxPrompt(batch) && r.outputLen <= MaxOutput(batch)
    decreases |batch|
  {
    var n := |batch| - 1;
    if r != batch[n] {
      assert batch == batch[..n] + [batch[n]];
      MaxIsBound(batch[..n], r);
    }
  }

  lemma {:induction false} MaxIsAttained(batch: seq<Request>)
    requires batch != []
    ensures exists r :: r in batch && r.promptLen == MaxPrompt(batch)
    ensures exists r :: r in batch && r.outputLen == MaxOutput(batch)
    decreases |batch|
  {
    var n := |batch| - 1;
    assert batch[n] in batch;
    if n > 0 {
      MaxIsAttained(batch[..n]);
      var p :| p in batch[..n] && p.promptLen == MaxPrompt(batch[..n]);
      var o :| o in batch[..n] && o.outputLen == MaxOutput(batch[..n]);
      assert p in batch && o in batch;
    } else {
      assert batch[..n] == [] && MaxPrompt([]) == 0 && MaxOutput([]) == 0;
      assert MaxPrompt(batch) == batch[n].promptLen && MaxOutput(batch) == batch[n].outputLen;
    }
  }

  /** The limits, request by request: the longest prompt and the longest output of a
      batch are those of two of its requests. */
  lemma FeasibleMeaning(batch: seq<Request>, maxBatchSize: int)
    ensures Feasible(batch, maxBatchSize) <==>
      batch != []
      && (|batch| > 1 ==>
            |batch| <= maxBatchSize && forall r, s | r in batch && s in batch :: r.promptLen + s.outputLen <= 2048)
  {
    if batch != [] {
      MaxIsAttained(batch);
      forall r | r in batch ensures r.promptLen <= MaxPrompt(batch) && r.outputLen <= MaxOutput(batch) {
        MaxIsBound(batch, r);
      }
    }
  }

  /** Any run of requests within a feasible batch is feasible. */
  lemma PartIsFeasible(batch: seq<Request>, lo: nat, hi: nat, maxBatchSize: int)
    requires Feasible(batch, maxBatchSize) && lo < hi <= |batch|
    ensures Feasible(batch[lo..hi], maxBatchSize)
  {
    var part := batch[lo..hi];
    MaxIsAttained(part);
    var p :| p in part && p.promptLen == MaxPrompt(part);
    var o :| o in part && o.outputLen == MaxOutput(part);
    MaxIsBound(batch, p);
    MaxIsBound(batch, o);
  }

  lemma FitsMeansFeasible(batch: seq<Request>, next: Request, maxBatchSize: int)
    requires batch != []
    ensures Fits(batch, next, maxBatchSize) <==> Feasible(batch + [next], maxBatchSize)
  {
    assert (batch + [next])[..|batch|] == batch;
  }

  /** What is left of a packing without its first `d` requests. */
  function DropFront(batches: seq<seq<Request>>, d: nat): seq<seq<Request>>
    decreases |batches|
  {
    if d == 0 || batches == [] then batches
    else if d >= |batches[0]| then DropFront(batches[1..], d - |batches[0]|)
    else [batches[0][d..]] + batches[1..]
  }

  lemma {:induction false} DropFrontIsPacking(batches: seq<seq<Request>>, d: nat, maxBatchSize: int)
    requires AllFeasible(batches, maxBatchSize) && d <= |Concat(batches)|
    ensures Packing(DropFront(batches, d), Concat(batches)[d..], maxBatchSize)
    ensures |DropFront(batches, d)| <= |batches|
    ensures batches != [] && d >= |batches[0]| ==> |DropFront(batches, d)| < |batches|
    decreases |batches|
  {
    if d > 0 && batches != [] {
      var first := batches[0];
      if d >= |first| {
        DropFrontIsPacking(batches[1..], d - |first|, maxBatchSize);
        assert Concat(batches)[d..] == Concat(batches[1..])[d - |first|..];
      } else {
        PartIsFeasible(first, d, |first|, maxBatchSize);
        assert first[d..|first|] == first[d..];
        assert DropFront(batches, d)[1..] == batches[1..];
        assert Concat(batches)[d..] == first[d..] + Concat(batches[1..]);
      }
    }
  }

  /** A packing starts with the open batch or less when the next request does
      not fit. */
  lemma FirstBatchIsShort(batch: seq<Request>, rest: seq<Request>, batches: seq<seq<Request>>, maxBatchSize: int)
    requires batch != [] && rest != [] && !Fits(batch, rest[0], maxBatchSize)
    requires Packing(batches, batch + rest, maxBatchSize)
    ensures batches != [] && |batches[0]| <= |batch|
  {
    var n := |batch| + 1;
    if batches != [] && |batches[0]| > |batch| {
      PartIsFeasible(batches[0], 0, n, maxBatchSize);
      assert batches[0][0..n] == Concat(batches)[..n] == batch + [rest[0]];
      FitsMeansFeasible(batch, rest[0], maxBatchSize);
    }
  }

  lemma {:induction false} GreedyFromIsOptimal(batch: seq<Request>, rest: seq<Request>, batches: seq<seq<Request>>, maxBatchSize: int)
    requires Packing(batches, batch + rest, maxBatchSize)
    ensures |GreedyFrom(batch, rest, maxBatchSize)| <= |batches|
    decreases |rest|, |batch|
  {
    if rest == [] {
    } else if batch == [] || Fits(batch, rest[0], maxBatchSize) {
      assert batch + [rest[0]] + rest[1..] == batch + rest;
      GreedyFromIsOptimal(batch + [rest[0]], rest[1..], batches, maxBatchSize);
    } else {
      FirstBatchIsShort(batch, rest, batches, maxBatchSize);
      DropFrontIsPacking(batches, |batch|, maxBatchSize);
      assert (batch + rest)[|batch|..] == [] + rest;
      GreedyFromIsOptimal([], rest, DropFront(batches, |batch|), maxBatchSize);
    }
  }

  lemma {:induction false} GreedyFromIsPacking(batch: seq<Request>, rest: seq<Request>, maxBatchSize: int)
    requires batch == [] || Feasible(batch, maxBatchSize)
    ensures Packing(GreedyFrom(batch, rest, maxBatchSize), batch + rest, maxBatchSize)
    decreases |rest|, |batch|
  {
    if rest == [] {
      assert batch + rest == batch;
      assert Concat([batch]) == batch + Concat([batch][1..]);
    } else if batch == [] || Fits(batch, rest[0], maxBatchSize) {
      assert batch + [rest[0]] + rest[1..] == batch + rest;
      if batch != [] {
        FitsMeansFeasible(batch, rest[0], maxBatchSize);
      }
      GreedyFromIsPacking(batch + [rest[0]], rest[1..], maxBatchSize);
    } else {
      GreedyFromIsPacking([], rest, maxBatchSize);
      var later := GreedyFrom([], rest, maxBatchSize);
      assert ([batch] + later)[1..] == later;
      assert [] + rest == rest;
    }
  }

  /** The batches of run_hf are an in-order packing of the requests within the
      limits, and no such packing has fewer batches. */
  lemma GreedyBatchingIsOptimal(requests: seq<Request>, maxBatchSize: int)
    ensures var greedy := GreedyFrom([], requests, maxBatchSize);
            && Packing(greedy, requests, maxBatchSize)
            && forall batches | Packing(batches, requests, maxBatchSize) :: |greedy| <= |batches|
  {
    assert [] + requests == requests;
    GreedyFromIsPacking([], requests, maxBatchSize);
    forall batches | Packing(batches, requests, maxBatchSize)
      ensures |GreedyFrom([], requests, maxBatchSize)| <= |batches|
    {
      GreedyFromIsOptimal([], requests, batches, maxBatchSize);
    }
  }
}
