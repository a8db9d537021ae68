/**
 The table that pads a batch size to a captured CUDA graph
 (CompilationConfig.init_with_cudagraph_sizes, VllmConfig.pad_for_cudagraph and
 the default size lists of VllmConfig._set_cudagraph_sizes in spexis/config.py).
 */
module CudaGraphTable {
  import opened Options

  ghost predicate Descending(s: seq<nat>) {
    forall i, j | 0 <= i < j < |s| :: s[i] >= s[j]
  }

  ghost predicate SameMembers(s: seq<nat>, t: seq<nat>) {
    forall x :: x in s <==> x in t
  }

  /** `p` is the least of `sizes` that is at least `b`. */
  ghost predicate IsPadding(sizes: seq<nat>, b: nat, p: nat) {
    p in sizes && b <= p && forall s | s in sizes && b <= s :: p <= s
  }

  ghost predicate IsLargest(sizes: seq<nat>, max: nat) {
    if sizes == [] then max == 0 else max in sizes && forall s | s in sizes :: s <= max
  }

  /** What the table promises: entry b is the least capture size that is at least
      b, and an empty batch is not padded. */
  ghost predicate PadsToLeast(sizes: seq<nat>, table: seq<nat>) {
    && |table| > 0 && IsLargest(sizes, |table| - 1)
    && table[0] == 0
    && forall b | 1 <= b < |table| :: IsPadding(sizes, b, table[b])
  }

  // ---------------------------------------------------------------------- filling it

  /** list.sort(reverse=True), by insertion. */
  function Insert(s: seq<nat>, x: nat): seq<nat> {
    if s == [] || x >= s[0] then [x] + s else [s[0]] + Insert(s[1..], x)
  }

  function SortDescending(s: seq<nat>): seq<nat> {
    if s == [] then [] else Insert(SortDescending(s[1..]), s[0])
  }

  function Deduplicated(s: seq<nat>): seq<nat> {
    if s == [] then [] else if s[0] in s[1..] then Deduplicated(s[1..]) else [s[0]] + Deduplicated(s[1..])
  }

  lemma {:induction false} InsertKeepsDescending(s: seq<nat>, x: nat)
    requires Descending(s)
    ensures Descending(Insert(s, x)) && (forall y :: y in Insert(s, x) <==> y == x || y in s)
  {
    if s != [] && x < s[0] {
      InsertKeepsDescending(s[1..], x);
      var t := Insert(s[1..], x);
      assert forall y | y in t :: y == x || y in s[1..];
      assert forall k | 0 <= k < |t| :: t[k] in t;
      assert s == [s[0]] + s[1..];
    }
  }

  lemma {:induction false} SortMeaning(s: seq<nat>)
    ensures Descending(SortDescending(s)) && SameMembers(SortDescending(s), s)
  {
    if s != [] {
      SortMeaning(s[1..]);
      InsertKeepsDescending(SortDescending(s[1..]), s[0]);
      assert s == [s[0]] + s[1..];
    }
  }

  lemma {:induction false} DeduplicatedMeaning(s: seq<nat>)
    ensures SameMembers(Deduplicated(s), s)
  {
    if s != [] {
      DeduplicatedMeaning(s[1..]);
      assert s == [s[0]] + s[1..];
    }
  }

  /** The members of CompilationConfig that the table needs. */
  class CompilationConfig {
    var captureSizes: Option<seq<nat>>
    var maxCaptureSize: nat
    var table: array<nat>

    ghost predicate Initialized()
      reads this, table
    {
      && captureSizes.Some? && Descending(captureSizes.value)
      && table.Length == maxCaptureSize + 1
      && PadsToLeast(captureSizes.value, table[..])
    }

    constructor (captureSizes: Option<seq<nat>>)
      ensures this.captureSizes == captureSizes && fresh(table)
    {
      this.captureSizes, maxCaptureSize := captureSizes, 0;
      table := new nat[0];
    }

    /** The list of the configuration wins over the list of the model runner;
        either way the table pads to the sizes of the list that is used. */
    method InitWithCudagraphSizes(sizes: seq<nat>)
      modifies this
      ensures Initialized() && fresh(table)
      ensures SameMembers(captureSizes.value, if old(captureSizes).None? then sizes else old(captureSizes).value)
    {
      var list := if captureSizes.None? then sizes else Deduplicated(captureSizes.value);
      if captureSizes.Some? {
        DeduplicatedMeaning(captureSizes.value);
      }
      SortMeaning(list);
      list := SortDescending(list);
      var max := if |list| > 0 then list[0] else 0;
      var filled := FillTable(list, max);
      captureSizes, maxCaptureSize, table := Some(list), max, filled;
    }

    /** None for the IndexError of a batch that is larger than every graph. */
    method PadForCudagraph(batchSize: nat) returns (r: Option<nat>)
      requires Initialized()
      ensures r.Some? <==> batchSize == 0 || exists s | s in captureSizes.value :: batchSize <= s
      ensures r.Some? ==> if batchSize == 0 then r.value == 0 else IsPadding(captureSizes.value, batchSize, r.value)
    {
      var entries := table[..];
      if batchSize < table.Length {
        assert table[batchSize] == entries[batchSize];
        return Some(table[batchSize]);
      }
      r := None;
    }
  }

  /** The nested loops that fill the table, one captured size at a time. */
  method FillTable(sizes: seq<nat>, max: nat) returns (table: array<nat>)
    requires Descending(sizes) && max == if |sizes| > 0 then sizes[0] else 0
    ensures fresh(table) && table.Length == max + 1
    ensures PadsToLeast(sizes, table[..])
  {
    table := new nat[max + 1](_ => 0);
    for i := 0 to |sizes|
      invariant table[0] == 0
      invariant forall b: nat | 1 <= b < max && From(sizes, i) <= b :: IsPadding(sizes, b, table[b])
    {
      var end, start := sizes[i], if i + 1 < |sizes| then sizes[i + 1] else 0;
      for bs := start to end
        invariant table[0] == 0
        invariant forall b: nat | 1 <= b < max && ((start <= b < bs) || From(sizes, i) <= b) :: IsPadding(sizes, b, table[b])
      {
        table[bs] := if bs == start then start else end;
      }
    }
    table[max] := max;
  }

  /** The entries at or above this bound are filled after `i` sizes. */
  ghost function From(sizes: seq<nat>, i: nat): nat
    requires i <= |sizes|
  {
    if i == 0 then if |sizes| > 0 then sizes[0] else 0 else if i < |sizes| then sizes[i] else 0
  }

  // ------------------------------------------------------------------- its properties

  /** Padding never shrinks as the batch grows, and padding a padded size again
      changes nothing. */
  lemma PaddingIsMonotoneAndIdempotent(sizes: seq<nat>, table: seq<nat>, a: nat, b: nat)
    requires PadsToLeast(sizes, table) && a <= b < |table|
    ensures b <= table[b] < |table| && table[a] <= table[b] && table[table[b]] == table[b]
  {
    if b > 0 {
      assert IsPadding(sizes, b, table[b]);
      assert IsPadding(sizes, table[b], table[table[b]]);
      if a > 0 {
        assert IsPadding(sizes, a, table[a]);
      }
    }
  }

  /** 1, 2, 4 and the first `n` multiples of 8. */
  function PossibleSizes(n: nat): seq<nat> {
    [1, 2, 4] + seq(n, (i: nat) => 8 * (i + 1))
  }

  function AtMost(s: seq<nat>, bound: nat): seq<nat> {
    if s == [] then [] else (if s[0] <= bound then [s[0]] else []) + AtMost(s[1..], bound)
  }

  function FirstAtLeast(s: seq<nat>, bound: nat): Option<nat> {
    if s == [] then None else if s[0] >= bound then Some(s[0]) else FirstAtLeast(s[1..], bound)
  }

  const V0_MULTIPLES: nat := 1024
  const V1_MULTIPLES: nat := 64

  /** The largest batch to capture in the V0 branch. */
  function MaxBatchToCapture(n: nat, maxNumSeqs: nat): nat {
    var larger := FirstAtLeast(PossibleSizes(n), maxNumSeqs);
    if larger.Some? then larger.value else PossibleSizes(n)[|PossibleSizes(n)| - 1]
  }

  /** batch_size_capture_list of the V0 branch; `graphs` when there are a scheduler
      and a model configuration and eager mode is not enforced. */
  function V0Sizes(graphs: bool, maxNumSeqs: nat): seq<nat> {
    if graphs then AtMost(PossibleSizes(V0_MULTIPLES), MaxBatchToCapture(V0_MULTIPLES, maxNumSeqs)) else []
  }

  /** ... and of the V1 branch. */
  function V1Sizes(graphs: bool, maxNumTokens: nat): seq<nat> {
    if graphs then AtMost(PossibleSizes(V1_MULTIPLES), maxNumTokens) else []
  }

  lemma {:induction false} AtMostMeaning(s: seq<nat>, bound: nat)
    ensures forall x :: x in AtMost(s, bound) <==> x in s && x <= bound
  {
    if s != [] {
      AtMostMeaning(s[1..], bound);
      var t := AtMost(s[1..], bound);
      assert forall x :: x in [s[0]] + t <==> x == s[0] || x in t;
      assert [] + t == t && s == [s[0]] + s[1..];
    }
  }

  lemma {:induction false} FirstAtLeastMeaning(s: seq<nat>, bound: nat)
    ensures match FirstAtLeast(s, bound)
            case None => forall x | x in s :: x < bound
            case Some(x) => x in s && x >= bound
  {
    if s != [] {
      FirstAtLeastMeaning(s[1..], bound);
      assert forall x :: x in s <==> x == s[0] || x in s[1..];
    }
  }

  lemma PossibleMeaning(n: nat, x: nat)
    ensures x in PossibleSizes(n) <==> x == 1 || x == 2 || x == 4 || (x % 8 == 0 && 8 <= x <= 8 * n)
  {
    var s := PossibleSizes(n);
    assert s[0] == 1 && s[1] == 2 && s[2] == 4;
    if x % 8 == 0 && 8 <= x <= 8 * n {
      assert s[x / 8 + 2] == x;
    }
    if x in s {
      var i :| 0 <= i < |s| && s[i] == x;
      assert i >= 3 ==> x == 8 * (i - 2);
    }
  }

  /** The least possible size for a batch. */
  function Natural(b: nat): nat {
    if b <= 1 then 1 else if b <= 2 then 2 else if b <= 4 then 4 else (b + 7) / 8 * 8
  }

  /** With sizes taken from the defaults up to any bound, padding adds at most
      seven and never doubles the batch. */
  lemma DefaultPaddingIsSmall(n: nat, bound: nat, sizes: seq<nat>, b: nat, p: nat)
    requires SameMembers(sizes, AtMost(PossibleSizes(n), bound))
    requires b >= 1 && IsPadding(sizes, b, p)
    ensures p - b <= 7 && p < 2 * b
  {
    AtMostMeaning(PossibleSizes(n), bound);
    PossibleMeaning(n, p);
    PossibleMeaning(n, Natural(b));
    assert Natural(b) in sizes;
  }

  lemma MaxBatchMeaning(n: nat, maxNumSeqs: nat)
    requires n >= 1
    ensures var max := MaxBatchToCapture(n, maxNumSeqs);
      && max in PossibleSizes(n) && (maxNumSeqs <= 8 * n ==> max >= maxNumSeqs) && max <= 8 * n
  {
    var s := PossibleSizes(n);
    FirstAtLeastMeaning(s, maxNumSeqs);
    PossibleMeaning(n, 8 * n);
    PossibleMeaning(n, MaxBatchToCapture(n, maxNumSeqs));
  }

  /** The table of the V0 branch: every batch the scheduler may form has an entry
      exactly when it forms none above 8192, and padding stays small. */
  lemma V0TableCoversTheScheduler(maxNumSeqs: nat, sizes: seq<nat>, table: seq<nat>)
    requires SameMembers(sizes, V0Sizes(true, maxNumSeqs)) && PadsToLeast(sizes, table)
    ensures maxNumSeqs < |table| <==> maxNumSeqs <= 8192
    ensures forall b | 1 <= b < |table| :: b <= table[b] <= b + 7 && table[b] < 2 * b
  {
    var n, max := V0_MULTIPLES, MaxBatchToCapture(V0_MULTIPLES, maxNumSeqs);
    MaxBatchMeaning(n, maxNumSeqs);
    AtMostMeaning(PossibleSizes(n), max);
    assert max in sizes;
    forall b | 1 <= b < |table| ensures b <= table[b] <= b + 7 && table[b] < 2 * b {
      DefaultPaddingIsSmall(n, max, sizes, b, table[b]);
    }
  }

  /** The table of the V1 branch covers the token budget exactly when the budget
      is itself a default size, and otherwise up to seven below it or to 512. */
  lemma V1TableCoversTheBudget(maxNumTokens: nat, sizes: seq<nat>, table: seq<nat>)
    requires SameMembers(sizes, V1Sizes(true, maxNumTokens)) && PadsToLeast(sizes, table)
    ensures maxNumTokens < |table| <==> maxNumTokens == 0 || maxNumTokens in PossibleSizes(V1_MULTIPLES)
    ensures if maxNumTokens > 512 then |table| == 513 else maxNumTokens - 7 < |table| <= maxNumTokens + 1
    ensures forall b | 1 <= b < |table| :: b <= table[b] <= b + 7 && table[b] < 2 * b
  {
    var n, s := V1_MULTIPLES, PossibleSizes(V1_MULTIPLES);
    AtMostMeaning(s, maxNumTokens);
    PossibleMeaning(n, |table| - 1);
    PossibleMeaning(n, maxNumTokens);
    V1Largest(maxNumTokens);
    if maxNumTokens > 0 {
      assert LargestV1(maxNumTokens) in sizes;
      assert |table| - 1 in s && |table| - 1 <= maxNumTokens;
    }
    forall b | 1 <= b < |table| ensures b <= table[b] <= b + 7 && table[b] < 2 * b {
      DefaultPaddingIsSmall(n, maxNumTokens, sizes, b, table[b]);
    }
  }

  /** The largest default size of the V1 branch up to a positive budget. */
  function LargestV1(bound: nat): nat {
    if bound >= 512 then 512 else if bound >= 8 then bound / 8 * 8 else if bound >= 4 then 4 else if bound >= 2 then 2 else 1
  }

  lemma V1Largest(bound: nat)
    ensures bound > 0 ==> LargestV1(bound) in AtMost(PossibleSizes(V1_MULTIPLES), bound)
    ensures bound in PossibleSizes(V1_MULTIPLES) ==> LargestV1(bound) == bound
  {
    AtMostMeaning(PossibleSizes(V1_MULTIPLES), bound);
    PossibleMeaning(V1_MULTIPLES, LargestV1(bound));
    PossibleMeaning(V1_MULTIPLES, bound);
  }
}
