/**
 Lookahead scheduling: which running requests keep speculating
 (_apply_confidence_drop and _length_aware_boost in
 spexis/spec_parallel/scheduler.py). A bucket sort by draft confidence keeps the
 best requests; the boost then keeps some of the dropped ones that are about to
 finish. Confidences are reals between 0 and 1, products of probabilities.
 */
module ConfidenceDrop {
  import opened BucketRanking

  /** What the selection reads of a request: `pendingReal` when its next step must
      run a target token, `alreadyDropped` when it is draining a drop, `short` when
      its predicted remaining length is the one to boost. */
  datatype Request = Request(
    shouldPreempt: bool, pendingReal: bool, alreadyDropped: bool, confidence: real, short: bool)
  {
    predicate Eligible() { !shouldPreempt && !pendingReal && !alreadyDropped }
  }

  datatype Config = Config(buckets: nat, dropRatio: real, boost: bool, boostMax: nat, boostConfidence: real)
  {
    ghost predicate Valid() { buckets > 0 && 0.0 <= dropRatio < 1.0 }
  }

  ghost predicate Confident(rs: seq<Request>) {
    forall k | 0 <= k < |rs| :: 0.0 <= rs[k].confidence <= 1.0
  }

  /** min(int(confidence / width), buckets - 1). */
  function BucketOf(c: Config, confidence: real): (b: nat)
    requires c.Valid() && 0.0 <= confidence <= 1.0
    ensures b < c.buckets
  {
    var product := confidence * c.buckets as real;
    assert product >= 0.0;
    Min(product.Floor, c.buckets - 1)
  }

  /** The bucket of every eligible request. */
  function LevelsOf(c: Config, rs: seq<Request>): (ls: Levels)
    requires c.Valid() && Confident(rs)
    ensures |ls| == |rs|
    ensures forall k | 0 <= k < |rs| :: ls[k] < c.buckets && (ls[k] >= 0 <==> rs[k].Eligible())
  {
    seq(|rs|, (k: nat) requires k < |rs| && 0.0 <= rs[k].confidence <= 1.0 =>
      if rs[k].Eligible() then BucketOf(c, rs[k].confidence) else -1)
  }

  function RealCount(rs: seq<Request>, n: nat): nat
    requires n <= |rs|
  {
    if n == 0 then 0
    else RealCount(rs, n - 1) + if !rs[n - 1].shouldPreempt && rs[n - 1].pendingReal then 1 else 0
  }

  /** How many requests may keep speculating. */
  function Budget(c: Config, rs: seq<Request>): nat {
    var pass := |rs| - (|rs| as real * c.dropRatio).Floor - RealCount(rs, |rs|);
    if pass > 0 then pass else 0
  }

  /** The requests that pass the drop: the best ones, as many as the budget. */
  function Chosen(c: Config, rs: seq<Request>): seq<nat>
    requires c.Valid() && Confident(rs)
  {
    Best(LevelsOf(c, rs), c.buckets, Budget(c, rs))
  }

  ghost predicate Dropped(c: Config, rs: seq<Request>, j: nat)
    requires c.Valid() && Confident(rs)
  {
    j < |rs| && rs[j].Eligible() && j !in Chosen(c, rs)
  }

  // ---------------------------------------------------------------- what is dropped

  lemma DroppedIsRanked(c: Config, rs: seq<Request>, k: nat)
    requires c.Valid() && Confident(rs)
    ensures k in Ranked(LevelsOf(c, rs), c.buckets) <==> k < |rs| && rs[k].Eligible()
  {
    RankedMembers(LevelsOf(c, rs), c.buckets);
  }

  /** If any eligible request is dropped, the budget is used up, and every request
      that passes is in a better bucket or earlier in the same one. */
  lemma ChosenAreTheBest(c: Config, rs: seq<Request>, i: nat, j: nat)
    requires c.Valid() && Confident(rs) && i in Chosen(c, rs) && Dropped(c, rs, j)
    ensures i < |rs| && rs[i].Eligible()
    ensures var (a, b) := (BucketOf(c, rs[i].confidence), BucketOf(c, rs[j].confidence)); a > b || (a == b && i < j)
    ensures |Chosen(c, rs)| == Budget(c, rs)
    ensures IsRatioOf(c, rs, |Chosen(c, rs)|)
  {
    BestAreBest(LevelsOf(c, rs), c.buckets, Budget(c, rs), i, j);
    ChosenCount(c, rs);
    ChosenIsDistinct(c, rs);
  }

  // ------------------------------------------------------------- how many are dropped

  /** The requests that may be dropped, and those that must run a target token. */
  ghost function EligibleSet(rs: seq<Request>, n: nat): set<nat>
    requires n <= |rs|
  {
    set k | 0 <= k < n && !rs[k].shouldPreempt && !rs[k].pendingReal && !rs[k].alreadyDropped
  }

  ghost function RealSet(rs: seq<Request>, n: nat): set<nat>
    requires n <= |rs|
  {
    set k | 0 <= k < n && rs[k].pendingReal && !rs[k].shouldPreempt
  }

  lemma {:induction false} RealCountIsCardinality(rs: seq<Request>, n: nat)
    requires n <= |rs|
    ensures RealCount(rs, n) == |RealSet(rs, n)|
  {
    if n == 0 {
      assert RealSet(rs, 0) == {};
    } else {
      RealCountIsCardinality(rs, n - 1);
      assert RealSet(rs, n) == RealSet(rs, n - 1) + if rs[n - 1].pendingReal && !rs[n - 1].shouldPreempt then {n - 1} else {};
    }
  }

  lemma {:induction false} DistinctElements(s: seq<nat>)
    requires forall i, j | 0 <= i < j < |s| :: s[i] != s[j]
    ensures |Elements(s)| == |s|
  {
    if s == [] {
      assert Elements(s) == {};
    } else {
      DistinctElements(s[1..]);
      assert s == [s[0]] + s[1..];
      assert Elements(s) == {s[0]} + Elements(s[1..]) && s[0] !in Elements(s[1..]);
    }
  }

  lemma RankedAreDistinct(ls: Levels, t: nat)
    ensures forall i, j | 0 <= i < j < |Ranked(ls, t)| :: Ranked(ls, t)[i] != Ranked(ls, t)[j]
  {
    RankedOrder(ls, t);
    var s := Ranked(ls, t);
    forall i, j | 0 <= i < j < |s| ensures s[i] != s[j] {
      assert Before(ls, s[i], s[j]);
    }
  }

  lemma RankedCount(c: Config, rs: seq<Request>)
    requires c.Valid() && Confident(rs)
    ensures |Ranked(LevelsOf(c, rs), c.buckets)| == |EligibleSet(rs, |rs|)|
  {
    var ranked := Ranked(LevelsOf(c, rs), c.buckets);
    RankedAreDistinct(LevelsOf(c, rs), c.buckets);
    DistinctElements(ranked);
    forall k: nat ensures k in Elements(ranked) <==> k in EligibleSet(rs, |rs|) {
      DroppedIsRanked(c, rs, k);
    }
    assert Elements(ranked) == EligibleSet(rs, |rs|);
  }

  lemma ChosenIsDistinct(c: Config, rs: seq<Request>)
    requires c.Valid() && Confident(rs)
    ensures |Elements(Chosen(c, rs))| == |Chosen(c, rs)|
  {
    RankedAreDistinct(LevelsOf(c, rs), c.buckets);
    DistinctElements(Chosen(c, rs));
  }

  lemma ChosenAreEligible(c: Config, rs: seq<Request>)
    requires c.Valid() && Confident(rs)
    ensures Elements(Chosen(c, rs)) <= EligibleSet(rs, |rs|)
  {
    forall k | k in Elements(Chosen(c, rs)) ensures k in EligibleSet(rs, |rs|) {
      PrefixMember(Ranked(LevelsOf(c, rs), c.buckets), |Chosen(c, rs)|, k);
      DroppedIsRanked(c, rs, k);
    }
  }

  lemma PrefixMember(s: seq<nat>, n: nat, k: nat)
    requires n <= |s| && k in s[..n]
    ensures k in s
  {
  }

  /** `n` is what the drop ratio leaves of the batch, less the requests that must
      run a target token; all eligible requests if there are no more than that. */
  ghost predicate IsRatioOf(c: Config, rs: seq<Request>, n: nat) {
    var eligible := |EligibleSet(rs, |rs|)|;
    var quota := |rs| - (|rs| as real * c.dropRatio).Floor - |RealSet(rs, |rs|)|;
    n == if quota <= 0 then 0 else if quota <= eligible then quota else eligible
  }

  lemma BudgetIsTheRatio(c: Config, rs: seq<Request>, n: nat)
    requires n == Min(Budget(c, rs), |EligibleSet(rs, |rs|)|)
    ensures IsRatioOf(c, rs, n)
  {
    RealCountIsCardinality(rs, |rs|);
  }

  /** The drop keeps exactly that many. */
  lemma ChosenCount(c: Config, rs: seq<Request>)
    requires c.Valid() && Confident(rs)
    ensures IsRatioOf(c, rs, |Elements(Chosen(c, rs))|)
  {
    RankedCount(c, rs);
    ChosenIsDistinct(c, rs);
    BudgetIsTheRatio(c, rs, |Chosen(c, rs)|);
  }

  lemma FloorBounds(x: real)
    ensures x.Floor as real <= x < x.Floor as real + 1.0
  {
  }

  lemma AtMostOne(x: real, n: real)
    requires x <= 1.0 && n >= 0.0
    ensures x * n <= n
  {
    Distribute(1.0, x, n);
    assert (1.0 - x) * n >= 0.0;
  }

  lemma BucketBounds(c: Config, confidence: real)
    requires c.Valid() && 0.0 <= confidence <= 1.0
    ensures var (b, product) := (BucketOf(c, confidence) as real, confidence * c.buckets as real);
            b <= product <= b + 1.0 && (BucketOf(c, confidence) < c.buckets - 1 ==> product < b + 1.0)
  {
    FloorBounds(confidence * c.buckets as real);
    AtMostOne(confidence, c.buckets as real);
  }

  lemma Distribute(x: real, y: real, n: real)
    ensures (x - y) * n == x * n - y * n
  {
  }

  /** `high` exceeds `low` by at most the width 1 / buckets of a bucket. */
  ghost predicate NoMoreThanOneWidth(c: Config, low: real, high: real) {
    (high - low) * c.buckets as real <= 1.0
  }

  lemma ChosenIsNotLower(c: Config, rs: seq<Request>, i: nat, j: nat)
    requires c.Valid() && Confident(rs) && i in Chosen(c, rs) && Dropped(c, rs, j)
    ensures i < |rs| && j < |rs| && BucketOf(c, rs[i].confidence) >= BucketOf(c, rs[j].confidence)
  {
    ChosenAreTheBest(c, rs, i, j);
  }

  /** Lowest confidence first, up to the width 1 / buckets of a bucket: what passes
      is never more than one width below what is dropped. */
  lemma ChosenWithinOneWidth(c: Config, rs: seq<Request>, i: nat, j: nat)
    requires c.Valid() && Confident(rs) && i in Chosen(c, rs) && Dropped(c, rs, j)
    ensures i < |rs| && NoMoreThanOneWidth(c, rs[i].confidence, rs[j].confidence)
  {
    ChosenIsNotLower(c, rs, i, j);
    BucketsBoundTheGap(c, rs[i].confidence, rs[j].confidence);
  }

  lemma BucketsBoundTheGap(c: Config, x: real, y: real)
    requires c.Valid() && 0.0 <= x <= 1.0 && 0.0 <= y <= 1.0 && BucketOf(c, x) >= BucketOf(c, y)
    ensures NoMoreThanOneWidth(c, x, y)
  {
    BucketBounds(c, y);
    BucketBounds(c, x);
    Distribute(y, x, c.buckets as real);
  }

  lemma ProductsInOrder(x: real, y: real, n: real)
    requires x <= y && n >= 0.0
    ensures x * n <= y * n
  {
    Distribute(y, x, n);
    assert (y - x) * n >= 0.0;
  }

  lemma FloorsInOrder(x: real, y: real)
    requires x <= y
    ensures x.Floor <= y.Floor
  {
  }

  lemma BucketsInOrder(c: Config, x: real, y: real)
    requires c.Valid() && 0.0 <= x <= y <= 1.0
    ensures BucketOf(c, x) <= BucketOf(c, y)
  {
    ProductsInOrder(x, y, c.buckets as real);
    FloorsInOrder(x * c.buckets as real, y * c.buckets as real);
  }

  lemma HigherBucketHigherConfidence(c: Config, x: real, y: real)
    requires c.Valid() && 0.0 <= x <= 1.0 && 0.0 <= y <= 1.0 && BucketOf(c, x) > BucketOf(c, y)
    ensures x >= y
  {
    if x <= y {
      BucketsInOrder(c, x, y);
    }
  }

  /** i and j are in the bucket that is cut, i passed and j did not. */
  ghost predicate SplitInCut(c: Config, rs: seq<Request>, i: nat, j: nat)
    requires c.Valid() && Confident(rs)
  {
    var ls := LevelsOf(c, rs);
    var (idx, reqIdx) := Cut(ls, Budget(c, rs), c.buckets);
    SplitByTheCut(ls, idx, reqIdx, i, j)
  }

  lemma DroppedLaterOrSplit(c: Config, rs: seq<Request>, i: nat, j: nat)
    requires c.Valid() && Confident(rs) && i in Chosen(c, rs) && Dropped(c, rs, j)
    ensures i < |rs| && (rs[i].confidence >= rs[j].confidence || SplitInCut(c, rs, i, j))
  {
    var ls, budget := LevelsOf(c, rs), Budget(c, rs);
    var (idx, reqIdx) := Cut(ls, budget, c.buckets);
    DroppedIsRanked(c, rs, j);
    BestIsAbove(ls, c.buckets, budget, i, j);
    DroppedIsRanked(c, rs, i);
    AboveRanksHigher(ls, c.buckets, idx, reqIdx, i, j);
    if ls[i] > ls[j] {
      HigherBucketHigherConfidence(c, rs[i].confidence, rs[j].confidence);
    }
  }

  lemma SplitIsChosenAndDropped(c: Config, rs: seq<Request>, i: nat, j: nat)
    requires c.Valid() && Confident(rs) && SplitInCut(c, rs, i, j)
    ensures i < |rs| && i in Chosen(c, rs) && Dropped(c, rs, j)
  {
    var ls, budget := LevelsOf(c, rs), Budget(c, rs);
    CutSplitsTheRanking(ls, budget, c.buckets);
    CutIsSplit(ls, c.buckets, budget, i, j);
    DroppedIsRanked(c, rs, j);
    BestIsAboveTheCut(ls, c.buckets, budget, i);
    DroppedIsRanked(c, rs, i);
  }

  /** Dropping by the documented rule, lowest confidence first, holds exactly when
      it holds inside the one bucket that is cut. */
  lemma LowestFirstExactlyWhen(c: Config, rs: seq<Request>)
    requires c.Valid() && Confident(rs)
    ensures (forall i: nat, j: nat | i < |rs| && i in Chosen(c, rs) && Dropped(c, rs, j) ::
               rs[i].confidence >= rs[j].confidence)
       <==> (forall i: nat, j: nat | i < |rs| && j < |rs| && SplitInCut(c, rs, i, j) ::
               rs[i].confidence >= rs[j].confidence)
  {
    forall i: nat, j: nat | i < |rs| && i in Chosen(c, rs) && Dropped(c, rs, j)
      ensures rs[i].confidence >= rs[j].confidence || SplitInCut(c, rs, i, j)
    {
      DroppedLaterOrSplit(c, rs, i, j);
    }
    forall i: nat, j: nat | i < |rs| && j < |rs| && SplitInCut(c, rs, i, j)
      ensures i in Chosen(c, rs) && Dropped(c, rs, j)
    {
      SplitIsChosenAndDropped(c, rs, i, j);
    }
  }

  // ------------------------------------------------------------------------- the boost

  predicate Qualifies(c: Config, r: Request) {
    r.short && r.confidence > c.boostConfidence
  }

  /** The first requests of the scan that qualify, at most `quota`. */
  function FirstQualifying(c: Config, rs: seq<Request>, scan: seq<nat>, quota: nat): seq<nat> {
    if scan == [] || quota == 0 then []
    else if scan[0] < |rs| && Qualifies(c, rs[scan[0]])
    then [scan[0]] + FirstQualifying(c, rs, scan[1..], quota - 1)
    else FirstQualifying(c, rs, scan[1..], quota)
  }

  /** What the boost adds, given where the selection stopped. */
  function BoostedFrom(c: Config, rs: seq<Request>, idx: int, reqIdx: nat): seq<nat>
    requires c.Valid() && Confident(rs) && -1 <= idx < c.buckets
  {
    if c.boost then FirstQualifying(c, rs, Scan(LevelsOf(c, rs), c.buckets, idx, reqIdx), c.boostMax) else []
  }

  function Boosted(c: Config, rs: seq<Request>): seq<nat>
    requires c.Valid() && Confident(rs)
  {
    CutSplitsTheRanking(LevelsOf(c, rs), Budget(c, rs), c.buckets);
    var (idx, reqIdx) := Cut(LevelsOf(c, rs), Budget(c, rs), c.buckets);
    BoostedFrom(c, rs, idx, reqIdx)
  }

  lemma {:induction false} FirstQualifyingMeaning(c: Config, rs: seq<Request>, scan: seq<nat>, quota: nat)
    ensures |FirstQualifying(c, rs, scan, quota)| <= quota
    ensures forall k | k in FirstQualifying(c, rs, scan, quota) :: k in scan && k < |rs| && Qualifies(c, rs[k])
    ensures quota >= |scan| ==>
      forall k | k in scan && k < |rs| && Qualifies(c, rs[k]) :: k in FirstQualifying(c, rs, scan, quota)
  {
    if scan != [] && quota > 0 {
      var q := scan[0] < |rs| && Qualifies(c, rs[scan[0]]);
      FirstQualifyingMeaning(c, rs, scan[1..], if q then quota - 1 else quota);
      assert forall k :: k in scan <==> k == scan[0] || k in scan[1..];
    }
  }

  /** The boost keeps at most its quota, and only requests that qualify. */
  lemma BoostIsBounded(c: Config, rs: seq<Request>)
    requires c.Valid() && Confident(rs)
    ensures |Boosted(c, rs)| <= c.boostMax
    ensures forall k | k in Boosted(c, rs) :: k < |rs| && rs[k].short && rs[k].confidence > c.boostConfidence
  {
    var ls := LevelsOf(c, rs);
    var (idx, reqIdx) := Cut(ls, Budget(c, rs), c.buckets);
    CutSplitsTheRanking(ls, Budget(c, rs), c.buckets);
    FirstQualifyingMeaning(c, rs, Scan(ls, c.buckets, idx, reqIdx), c.boostMax);
  }

  lemma {:induction false} NothingQualifies(c: Config, rs: seq<Request>, scan: seq<nat>, quota: nat)
    ensures FirstQualifying(c, rs, scan, quota) == []
       <==> quota == 0 || forall k | k in scan && k < |rs| :: !Qualifies(c, rs[k])
  {
    if scan != [] && quota > 0 {
      assert forall k :: k in scan <==> k == scan[0] || k in scan[1..];
      if !(scan[0] < |rs| && Qualifies(c, rs[scan[0]])) {
        NothingQualifies(c, rs, scan[1..], quota);
      }
    }
  }

  /** The flags when the boost looks at `scan`. */
  ghost function Flags(c: Config, rs: seq<Request>, scan: seq<nat>): set<nat>
    requires c.Valid() && Confident(rs)
  {
    Elements(Chosen(c, rs)) + Elements(FirstQualifying(c, rs, scan, c.boostMax))
  }

  /** The flags when it continues where the selection stopped. */
  ghost function Resumed(c: Config, rs: seq<Request>, idx: int, reqIdx: nat): set<nat>
    requires c.Valid() && Confident(rs) && IsCut(LevelsOf(c, rs), c.buckets, idx, reqIdx)
  {
    Flags(c, rs, Below(LevelsOf(c, rs), idx, reqIdx))
  }

  lemma FirstOfSkippedIsLost(c: Config, rs: seq<Request>, idx: int, reqIdx: nat)
    requires c.Valid() && Confident(rs)
    requires Cut(LevelsOf(c, rs), Budget(c, rs), c.buckets) == (idx, reqIdx)
    requires IsCut(LevelsOf(c, rs), c.buckets, idx, reqIdx)
    requires FirstQualifying(c, rs, Skipped(LevelsOf(c, rs), c.buckets, idx, reqIdx), c.boostMax) != []
    ensures Flags(c, rs, Scan(LevelsOf(c, rs), c.buckets, idx, reqIdx)) != Resumed(c, rs, idx, reqIdx)
  {
    var ls := LevelsOf(c, rs);
    var below, skipped := Below(ls, idx, reqIdx), Skipped(ls, c.buckets, idx, reqIdx);
    var scan := Scan(ls, c.buckets, idx, reqIdx);
    var lost := FirstQualifying(c, rs, skipped, c.boostMax);
    var k := lost[0];
    FirstQualifyingMeaning(c, rs, skipped, c.boostMax);
    SkippedIsBelow(ls, c.buckets, idx, reqIdx, k);
    ScanMissesTheSkipped(ls, c.buckets, idx, reqIdx, k);
    FirstQualifyingMeaning(c, rs, scan, c.boostMax);
    BestIsAboveTheCut(ls, c.buckets, Budget(c, rs), k);
    SkippedComesFirst(ls, c.buckets, idx, reqIdx);
    QualifyingOfConcat(c, rs, skipped, below[|skipped|..], c.boostMax);
    assert k in Resumed(c, rs, idx, reqIdx);
  }

  lemma SkippedComesFirst(ls: Levels, t: nat, idx: int, reqIdx: nat)
    requires t > 0 && IsCut(ls, t, idx, reqIdx)
    ensures var (below, skipped) := (Below(ls, idx, reqIdx), Skipped(ls, t, idx, reqIdx));
            skipped <= below && below == skipped + below[|skipped|..]
  {
    if reqIdx == 0 || t == 1 || idx >= 0 {
      BelowIsSkippedThenScan(ls, t, idx, reqIdx);
    }
  }

  lemma NothingSkippedNothingLost(c: Config, rs: seq<Request>, idx: int, reqIdx: nat)
    requires c.Valid() && Confident(rs)
    requires Cut(LevelsOf(c, rs), Budget(c, rs), c.buckets) == (idx, reqIdx)
    requires IsCut(LevelsOf(c, rs), c.buckets, idx, reqIdx)
    requires FirstQualifying(c, rs, Skipped(LevelsOf(c, rs), c.buckets, idx, reqIdx), c.boostMax) == []
    ensures Flags(c, rs, Scan(LevelsOf(c, rs), c.buckets, idx, reqIdx)) == Resumed(c, rs, idx, reqIdx)
  {
    var ls := LevelsOf(c, rs);
    if reqIdx == 0 || c.buckets == 1 || idx >= 0 {
      BelowIsSkippedThenScan(ls, c.buckets, idx, reqIdx);
      SkipsNothing(c, rs, Skipped(ls, c.buckets, idx, reqIdx), Scan(ls, c.buckets, idx, reqIdx), c.boostMax);
    } else {
      NothingNewFromTheTop(c, rs, reqIdx);
    }
  }

  lemma SkipsNothing(c: Config, rs: seq<Request>, skipped: seq<nat>, scan: seq<nat>, quota: nat)
    requires FirstQualifying(c, rs, skipped, quota) == []
    ensures FirstQualifying(c, rs, skipped + scan, quota) == FirstQualifying(c, rs, scan, quota)
  {
    QualifyingOfConcat(c, rs, skipped, scan, quota);
  }

  lemma NothingNewFromTheTop(c: Config, rs: seq<Request>, reqIdx: nat)
    requires c.Valid() && Confident(rs) && c.buckets > 1 && reqIdx > 0
    requires Cut(LevelsOf(c, rs), Budget(c, rs), c.buckets) == (-1, reqIdx)
    requires IsCut(LevelsOf(c, rs), c.buckets, -1, reqIdx)
    requires FirstQualifying(c, rs, Skipped(LevelsOf(c, rs), c.buckets, -1, reqIdx), c.boostMax) == []
    ensures Flags(c, rs, Scan(LevelsOf(c, rs), c.buckets, -1, reqIdx)) == Resumed(c, rs, -1, reqIdx)
  {
    var ls := LevelsOf(c, rs);
    var scan := Scan(ls, c.buckets, -1, reqIdx);
    FirstQualifyingMeaning(c, rs, scan, c.boostMax);
    forall k | k in FirstQualifying(c, rs, scan, c.boostMax) ensures k in Chosen(c, rs) {
      ScanFromTheTopHasPassed(ls, c.buckets, Budget(c, rs), reqIdx, k);
    }
    assert Below(ls, -1, reqIdx) == Skipped(ls, c.buckets, -1, reqIdx) by {
      assert Ranked(ls, 0) == [];
    }
  }

  /** For any quota, the boost keeps what it would keep by continuing where the
      selection stopped exactly when none of the requests it skips qualifies (or
      the quota is zero): once a bucket is cut, it starts inside the one below; and
      when the lowest was cut, index -1 makes it scan requests that passed. */
  lemma BoostResumesExactlyWhen(c: Config, rs: seq<Request>)
    requires c.Valid() && Confident(rs) && c.boost
    ensures var ls := LevelsOf(c, rs); var (idx, reqIdx) := Cut(ls, Budget(c, rs), c.buckets);
      && IsCut(ls, c.buckets, idx, reqIdx)
      && (Elements(Chosen(c, rs)) + Elements(Boosted(c, rs)) == Resumed(c, rs, idx, reqIdx)
          <==> c.boostMax == 0
               || forall k | k in Skipped(ls, c.buckets, idx, reqIdx) && k < |rs| :: !Qualifies(c, rs[k]))
  {
    var ls := LevelsOf(c, rs);
    var (idx, reqIdx) := Cut(ls, Budget(c, rs), c.buckets);
    CutSplitsTheRanking(ls, Budget(c, rs), c.buckets);
    assert Boosted(c, rs) == FirstQualifying(c, rs, Scan(ls, c.buckets, idx, reqIdx), c.boostMax);
    NothingQualifies(c, rs, Skipped(ls, c.buckets, idx, reqIdx), c.boostMax);
    if FirstQualifying(c, rs, Skipped(ls, c.buckets, idx, reqIdx), c.boostMax) == [] {
      NothingSkippedNothingLost(c, rs, idx, reqIdx);
    } else {
      FirstOfSkippedIsLost(c, rs, idx, reqIdx);
    }
  }

  lemma BelowIsDropped(c: Config, rs: seq<Request>, k: nat)
    requires c.Valid() && Confident(rs)
    ensures var (idx, reqIdx) := Cut(LevelsOf(c, rs), Budget(c, rs), c.buckets);
      && IsCut(LevelsOf(c, rs), c.buckets, idx, reqIdx)
      && (k in Below(LevelsOf(c, rs), idx, reqIdx) <==> Dropped(c, rs, k))
  {
    BestIsAboveTheCut(LevelsOf(c, rs), c.buckets, Budget(c, rs), k);
    DroppedIsRanked(c, rs, k);
  }

  /** ... and what continuing there would keep: with quota to spare, every dropped
      request that qualifies. */
  lemma ResumingKeepsAll(c: Config, rs: seq<Request>, k: nat, idx: int, reqIdx: nat)
    requires c.Valid() && Confident(rs)
    requires Cut(LevelsOf(c, rs), Budget(c, rs), c.buckets) == (idx, reqIdx)
    ensures IsCut(LevelsOf(c, rs), c.buckets, idx, reqIdx)
    ensures c.boostMax >= |Below(LevelsOf(c, rs), idx, reqIdx)| && Dropped(c, rs, k)
            && rs[k].short && rs[k].confidence > c.boostConfidence
        ==> k in Resumed(c, rs, idx, reqIdx)
  {
    BelowIsDropped(c, rs, k);
    FirstQualifyingMeaning(c, rs, Below(LevelsOf(c, rs), idx, reqIdx), c.boostMax);
  }

  lemma NothingBoosted(c: Config, rs: seq<Request>)
    requires c.Valid() && Confident(rs) && !c.boost
    ensures Elements(Chosen(c, rs)) + Elements(Boosted(c, rs)) == Elements(Chosen(c, rs))
  {
    assert Boosted(c, rs) == [];
  }

  // ------------------------------------------------------------------------ the loops

  /** The scheduler's knobs, its running requests and their confidence_passed. */
  class Scheduler {
    const config: Config
    const running: seq<Request>
    const confidencePassed: array<bool>

    ghost predicate Valid()
      reads this
    {
      config.Valid() && Confident(running) && confidencePassed.Length == |running|
    }

    constructor (config: Config, running: seq<Request>)
      requires config.Valid() && Confident(running)
      ensures Valid() && this.config == config && this.running == running && fresh(confidencePassed)
    {
      this.config, this.running := config, running;
      confidencePassed := new bool[|running|];
    }

    ghost function BatchLevels(): Levels
      requires Valid()
      reads this
    {
      LevelsOf(config, running)
    }

    ghost function Passed(): (r: set<nat>)
      requires Valid()
      reads this, confidencePassed
      ensures forall k: nat :: k in r <==> k < |running| && confidencePassed[k]
    {
      set k | 0 <= k < |running| && confidencePassed[k]
    }

    /** The histogram; every request starts out as not passed. */
    method FillBuckets() returns (buckets: seq<seq<nat>>, numReal: nat)
      requires Valid()
      modifies confidencePassed
      ensures Passed() == {} && numReal == RealCount(running, |running|)
      ensures |buckets| == config.buckets
      ensures forall b: nat | b < |buckets| :: buckets[b] == Bucket(BatchLevels(), b, |running|)
    {
      buckets := seq(config.buckets, _ => []);
      numReal := 0;
      for k := 0 to |running|
        invariant |buckets| == config.buckets && numReal == RealCount(running, k)
        invariant forall b: nat | b < |buckets| :: buckets[b] == Bucket(BatchLevels(), b, k)
        invariant forall j | 0 <= j < k :: !confidencePassed[j]
      {
        var r := running[k];
        confidencePassed[k] := false;
        if r.shouldPreempt {
          continue;
        }
        if r.pendingReal {
          numReal := numReal + 1;
          continue;
        }
        if r.alreadyDropped {
          continue;
        }
        var b := BucketOf(config, r.confidence);
        buckets := buckets[b := buckets[b] + [k]];
      }
    }

    method Mark(k: nat)
      requires Valid() && k < |running|
      modifies confidencePassed
      ensures Passed() == old(Passed()) + {k}
    {
      confidencePassed[k] := true;
    }

    /** Pass the first `n` requests of a bucket. */
    method Pass(bucket: seq<nat>, n: nat)
      requires Valid() && n <= |bucket| && forall k | k in bucket :: k < |running|
      modifies confidencePassed
      ensures Passed() == old(Passed()) + Elements(bucket[..n])
    {
      for i := 0 to n
        invariant Passed() == old(Passed()) + Elements(bucket[..i])
      {
        assert bucket[i] in bucket;
        Mark(bucket[i]);
        assert bucket[..i + 1] == bucket[..i] + [bucket[i]];
      }
    }

    /** Buckets pass from high confidence down until the budget is spent. */
    method PassBest(buckets: seq<seq<nat>>, budget: nat) returns (tmpIdx: int, tmpReqIdx: nat)
      requires Valid() && Passed() == {} && |buckets| == config.buckets
      requires forall b: nat | b < |buckets| :: buckets[b] == Bucket(BatchLevels(), b, |running|)
      modifies confidencePassed
      ensures var ranked := Ranked(BatchLevels(), config.buckets);
              Passed() == Elements(ranked[..Min(budget, |ranked|)])
      ensures (tmpIdx, tmpReqIdx) == Cut(BatchLevels(), budget, config.buckets)
    {
      ghost var ranked := Ranked(BatchLevels(), config.buckets);
      ghost var done: seq<nat> := [];
      var left: nat := budget;
      tmpIdx, tmpReqIdx := config.buckets - 1, 0;
      while left > 0 && tmpIdx >= 0
        invariant -1 <= tmpIdx < config.buckets
        invariant Passed() == Elements(done)
        invariant tmpReqIdx == 0 ==>
          && done + Ranked(BatchLevels(), tmpIdx + 1) == ranked && |done| + left == budget
          && Cut(BatchLevels(), left, tmpIdx + 1) == Cut(BatchLevels(), budget, config.buckets)
        invariant tmpReqIdx > 0 ==>
          && left == 0 && done == ranked[..Min(budget, |ranked|)]
          && (tmpIdx, tmpReqIdx) == Cut(BatchLevels(), budget, config.buckets)
      {
        var bucket := buckets[tmpIdx];
        BucketInBatch(BatchLevels(), tmpIdx);
        if |bucket| <= left {
          Pass(bucket, |bucket|);
          ElementsOfConcat(done, bucket);
          WholeBucket(BatchLevels(), tmpIdx, done, ranked);
          done := done + bucket;
          left := left - |bucket|;
        } else {
          Pass(bucket, left);
          ElementsOfConcat(done, bucket[..left]);
          PartOfBucket(BatchLevels(), tmpIdx, done, ranked, left);
          done := done + bucket[..left];
          tmpReqIdx := left;
          left := 0;
        }
        tmpIdx := tmpIdx - 1;
      }
      assert tmpReqIdx == 0 && tmpIdx == -1 ==> done + [] == done;
    }

    /** Pass the requests of a bucket that qualify, from `start` on, until the
        quota is used up; returns what is left of it. */
    method ScanBucket(bucket: seq<nat>, start: nat, quota: nat) returns (left: nat)
      requires Valid() && start <= |bucket| && forall k | k in bucket :: k < |running|
      modifies confidencePassed
      ensures var found := FirstQualifying(config, running, bucket[start..], quota);
              Passed() == old(Passed()) + Elements(found) && |found| + left == quota
    {
      left := quota;
      var i := start;
      ghost var found: seq<nat> := [];
      assert bucket[start..start] == [];
      while i < |bucket|
        invariant start <= i <= |bucket| && |found| + left == quota
        invariant Passed() == old(Passed()) + Elements(found)
        invariant found == FirstQualifying(config, running, bucket[start..i], quota)
      {
        assert bucket[i] in bucket;
        ScanStep(config, running, bucket, start, i, quota);
        if Qualifies(config, running[bucket[i]]) && left > 0 {
          Mark(bucket[i]);
          ElementsOfConcat(found, [bucket[i]]);
          left := left - 1;
          found := found + [bucket[i]];
        }
        i := i + 1;
        if left == 0 {
          break;
        }
      }
      ScanEnds(config, running, bucket, start, i, quota);
    }

    /** The buckets from `top` down, until the quota is used up. */
    method ScanDown(buckets: seq<seq<nat>>, top: int, quota: nat)
      requires Valid() && |buckets| == config.buckets && -1 <= top < config.buckets
      requires forall b: nat | b < |buckets| :: buckets[b] == Bucket(BatchLevels(), b, |running|)
      modifies confidencePassed
      ensures Passed() == old(Passed())
        + Elements(FirstQualifying(config, running, Ranked(BatchLevels(), top + 1), quota))
    {
      var left, idx := quota, top;
      ghost var goal := FirstQualifying(config, running, Ranked(BatchLevels(), top + 1), quota);
      ghost var found: seq<nat> := [];
      assert [] + goal == goal;
      while left != 0 && idx >= 0
        invariant -1 <= idx < config.buckets
        invariant Passed() == old(Passed()) + Elements(found)
        invariant goal == found + FirstQualifying(config, running, Ranked(BatchLevels(), idx + 1), left)
      {
        BucketInBatch(BatchLevels(), idx);
        RankedScan(config, running, BatchLevels(), idx, left);
        ghost var more := FirstQualifying(config, running, buckets[idx], left);
        assert buckets[idx][0..] == buckets[idx];
        left := ScanBucket(buckets[idx], 0, left);
        ElementsOfConcat(found, more);
        Regroup(found, more, FirstQualifying(config, running, Ranked(BatchLevels(), idx), left));
        found := found + more;
        idx := idx - 1;
      }
      assert found + [] == found;
    }

    /** Its first loop: the bucket at tmp_idx, behind its first tmp_req_idx requests. */
    method ScanCutBucket(buckets: seq<seq<nat>>, tmpIdx: int, tmpReqIdx: nat) returns (left: nat)
      requires Valid() && |buckets| == config.buckets && -1 <= tmpIdx < config.buckets
      requires forall b: nat | b < |buckets| :: buckets[b] == Bucket(BatchLevels(), b, |running|)
      modifies confidencePassed
      ensures var found := FirstQualifying(config, running, StartOf(BatchLevels(), config.buckets, tmpIdx, tmpReqIdx), config.boostMax);
              Passed() == old(Passed()) + Elements(found) && |found| + left == config.boostMax
    {
      var b: nat := if tmpIdx < 0 then tmpIdx + |buckets| else tmpIdx;
      BucketInBatch(BatchLevels(), b);
      left := ScanBucket(buckets[b], Min(tmpReqIdx, |buckets[b]|), config.boostMax);
    }

    method BoostBehindTheCut(buckets: seq<seq<nat>>, tmpIdx: int, tmpReqIdx: nat)
      requires Valid() && |buckets| == config.buckets && -1 <= tmpIdx < config.buckets && tmpReqIdx > 0
      requires forall b: nat | b < |buckets| :: buckets[b] == Bucket(BatchLevels(), b, |running|)
      modifies confidencePassed
      ensures Passed() == old(Passed())
        + Elements(FirstQualifying(config, running, Scan(BatchLevels(), config.buckets, tmpIdx, tmpReqIdx), config.boostMax))
    {
      ghost var before := Passed();
      ghost var first := FirstQualifying(config, running, StartOf(BatchLevels(), config.buckets, tmpIdx, tmpReqIdx), config.boostMax);
      var left := ScanCutBucket(buckets, tmpIdx, tmpReqIdx);
      assert Passed() == before + Elements(first);
      var below := if tmpIdx < 0 then tmpIdx else tmpIdx - 1;
      ScanDown(buckets, below, left);
      ghost var rest := FirstQualifying(config, running, Ranked(BatchLevels(), below + 1), left);
      assert Passed() == before + (Elements(first) + Elements(rest));
      ScanParts(config, running, BatchLevels(), config.buckets, tmpIdx, tmpReqIdx, config.boostMax);
    }

    /** _length_aware_boost: keep short, confident requests that were dropped. */
    method LengthAwareBoost(buckets: seq<seq<nat>>, tmpIdx: int, tmpReqIdx: nat)
      requires Valid() && |buckets| == config.buckets && -1 <= tmpIdx < config.buckets
      requires forall b: nat | b < |buckets| :: buckets[b] == Bucket(BatchLevels(), b, |running|)
      modifies confidencePassed
      ensures Passed() == old(Passed())
        + Elements(FirstQualifying(config, running, Scan(BatchLevels(), config.buckets, tmpIdx, tmpReqIdx), config.boostMax))
    {
      if tmpReqIdx == 0 {
        ScanDown(buckets, tmpIdx, config.boostMax);
      } else {
        BoostBehindTheCut(buckets, tmpIdx, tmpReqIdx);
      }
    }

    /** _apply_confidence_drop: afterwards exactly the chosen and the boosted
        requests have confidence_passed set. */
    method ApplyConfidenceDrop()
      requires Valid()
      modifies confidencePassed
      ensures Passed() == Elements(Chosen(config, running)) + Elements(Boosted(config, running))
      ensures !config.boost ==> Passed() <= EligibleSet(running, |running|) && IsRatioOf(config, running, |Passed()|)
    {
      var batchSize := |running|;
      var passNum := batchSize - (batchSize as real * config.dropRatio).Floor;
      var buckets, numReal := FillBuckets();
      var budget := if passNum - numReal > 0 then passNum - numReal else 0;
      assert budget == Budget(config, running);
      var tmpIdx, tmpReqIdx := PassBest(buckets, budget);
      assert Passed() == Elements(Chosen(config, running));
      CutSplitsTheRanking(BatchLevels(), budget, config.buckets);
      if config.boost {
        LengthAwareBoost(buckets, tmpIdx, tmpReqIdx);
      } else {
        ChosenAreEligible(config, running);
        ChosenCount(config, running);
        NothingBoosted(config, running);
      }
    }
  }

  lemma RankedScan(c: Config, rs: seq<Request>, ls: Levels, idx: nat, quota: nat)
    ensures var more := FirstQualifying(c, rs, Bucket(ls, idx, |ls|), quota);
      && |more| <= quota
      && FirstQualifying(c, rs, Ranked(ls, idx + 1), quota)
         == more + FirstQualifying(c, rs, Ranked(ls, idx), quota - |more|)
  {
    QualifyingOfConcat(c, rs, Bucket(ls, idx, |ls|), Ranked(ls, idx), quota);
  }

  lemma WholeBucket(ls: Levels, b: nat, done: seq<nat>, ranked: seq<nat>)
    requires done + Ranked(ls, b + 1) == ranked
    ensures var bucket := Bucket(ls, b, |ls|); bucket[..|bucket|] == bucket && done + bucket + Ranked(ls, b) == ranked
  {
    Regroup(done, Bucket(ls, b, |ls|), Ranked(ls, b));
  }

  lemma PartOfBucket(ls: Levels, b: nat, done: seq<nat>, ranked: seq<nat>, left: nat)
    requires done + Ranked(ls, b + 1) == ranked && left <= |Bucket(ls, b, |ls|)|
    ensures |done| + left <= |ranked| && done + Bucket(ls, b, |ls|)[..left] == ranked[..|done| + left]
  {
    WholeBucket(ls, b, done, ranked);
    var bucket := Bucket(ls, b, |ls|);
    assert (done + bucket + Ranked(ls, b))[..|done| + left] == done + bucket[..left];
  }

  lemma BucketInBatch(ls: Levels, b: nat)
    ensures forall k | k in Bucket(ls, b, |ls|) :: k < |ls|
  {
    BucketMembers(ls, b, |ls|);
  }

  function StartOf(ls: Levels, t: nat, idx: int, reqIdx: nat): seq<nat>
    requires -1 <= idx < t && t > 0
  {
    var bucket := Bucket(ls, if idx >= 0 then idx else t - 1, |ls|);
    bucket[Min(reqIdx, |bucket|)..]
  }

  /** What the boost finds: in the bucket it starts in, then in the lower ones. */
  lemma ScanParts(c: Config, rs: seq<Request>, ls: Levels, t: nat, idx: int, reqIdx: nat, quota: nat)
    requires -1 <= idx < t && t > 0 && reqIdx > 0
    ensures var first := FirstQualifying(c, rs, StartOf(ls, t, idx, reqIdx), quota);
      && |first| <= quota
      && Elements(FirstQualifying(c, rs, Scan(ls, t, idx, reqIdx), quota))
         == Elements(first) + Elements(FirstQualifying(c, rs, Ranked(ls, if idx >= 0 then idx else 0), quota - |first|))
  {
    var start, rest := StartOf(ls, t, idx, reqIdx), Ranked(ls, if idx >= 0 then idx else 0);
    QualifyingOfConcat(c, rs, start, rest, quota);
    var first := FirstQualifying(c, rs, start, quota);
    ElementsOfConcat(first, FirstQualifying(c, rs, rest, quota - |first|));
  }

  lemma Regroup(a: seq<nat>, b: seq<nat>, c: seq<nat>)
    ensures a + (b + c) == a + b + c
  {
  }

  lemma QualifyingStep(c: Config, rs: seq<Request>, scan: seq<nat>, quota: nat)
    requires scan != [] && scan[0] < |rs|
    ensures FirstQualifying(c, rs, scan, quota)
         == if quota > 0 && Qualifies(c, rs[scan[0]]) then [scan[0]] + FirstQualifying(c, rs, scan[1..], quota - 1)
            else FirstQualifying(c, rs, scan[1..], quota)
  {
    if quota == 0 {
      assert FirstQualifying(c, rs, scan[1..], 0) == [];
    }
  }

  /** One more request joins what was found, or does not. */
  lemma ScanStep(c: Config, rs: seq<Request>, bucket: seq<nat>, start: nat, i: nat, quota: nat)
    requires start <= i < |bucket| && bucket[i] < |rs|
    ensures var found := FirstQualifying(c, rs, bucket[start..i], quota);
            FirstQualifying(c, rs, bucket[start..i + 1], quota)
            == found + if |found| < quota && Qualifies(c, rs[bucket[i]]) then [bucket[i]] else []
  {
    assert bucket[start..i + 1] == bucket[start..i] + [bucket[i]];
    QualifyingOfConcat(c, rs, bucket[start..i], [bucket[i]], quota);
    QualifyingStep(c, rs, [bucket[i]], quota - |FirstQualifying(c, rs, bucket[start..i], quota)|);
    assert [bucket[i]][1..] == [];
  }

  lemma ScanEnds(c: Config, rs: seq<Request>, bucket: seq<nat>, start: nat, i: nat, quota: nat)
    requires start <= i <= |bucket|
    requires i == |bucket| || |FirstQualifying(c, rs, bucket[start..i], quota)| == quota
    ensures FirstQualifying(c, rs, bucket[start..], quota) == FirstQualifying(c, rs, bucket[start..i], quota)
  {
    assert bucket[start..] == bucket[start..i] + bucket[i..];
    QualifyingOfConcat(c, rs, bucket[start..i], bucket[i..], quota);
  }

  lemma {:induction false} QualifyingOfConcat(c: Config, rs: seq<Request>, a: seq<nat>, b: seq<nat>, quota: nat)
    ensures |FirstQualifying(c, rs, a, quota)| <= quota
    ensures FirstQualifying(c, rs, a + b, quota)
         == FirstQualifying(c, rs, a, quota) + FirstQualifying(c, rs, b, quota - |FirstQualifying(c, rs, a, quota)|)
  {
    if a == [] {
      assert a + b == b;
    } else if quota > 0 {
      assert (a + b)[1..] == a[1..] + b;
      var q := a[0] < |rs| && Qualifies(c, rs[a[0]]);
      QualifyingOfConcat(c, rs, a[1..], b, if q then quota - 1 else quota);
    }
  }

  ghost function Elements(s: seq<nat>): set<nat> {
    set k | k in s
  }

  lemma ElementsOfConcat(a: seq<nat>, b: seq<nat>)
    ensures Elements(a + b) == Elements(a) + Elements(b)
  {
  }
}
