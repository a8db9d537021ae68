/**
 The bucket sort behind lookahead scheduling (spexis/spec_parallel/scheduler.py):
 the ranking that a histogram of buckets stands for, where a scan from the best
 bucket down is cut, and what the scan that follows looks at. A request is its
 position in the batch; its level is its bucket.
 */
module BucketRanking {
  /** A level of -1 stands for a request that takes no part. */
  type Levels = seq<int>

  function Min(a: int, b: int): int { if a <= b then a else b }

  /** Bucket b: the positions of its requests among the first n, in batch order. */
  function Bucket(ls: Levels, b: nat, n: nat): seq<nat>
    requires n <= |ls|
  {
    if n == 0 then [] else Bucket(ls, b, n - 1) + if ls[n - 1] == b then [n - 1] else []
  }

  /** The requests of the lowest t buckets, best bucket first. */
  function Ranked(ls: Levels, t: nat): seq<nat> {
    if t == 0 then [] else Bucket(ls, t - 1, |ls|) + Ranked(ls, t - 1)
  }

  /** The best `budget` requests of the lowest t buckets, or all of them. */
  function Best(ls: Levels, t: nat, budget: nat): seq<nat> {
    Ranked(ls, t)[..Min(budget, |Ranked(ls, t)|)]
  }

  // ------------------------------------------------------------------------ the ranking

  lemma InConcat(s: seq<nat>, t: seq<nat>, k: nat)
    ensures k in s + t <==> k in s || k in t
  {
  }

  lemma {:induction false} BucketMemberUpTo(ls: Levels, b: nat, n: nat, k: nat)
    requires n <= |ls|
    ensures k in Bucket(ls, b, n) <==> k < n && ls[k] == b
  {
    if n > 0 {
      BucketMemberUpTo(ls, b, n - 1, k);
      InConcat(Bucket(ls, b, n - 1), if ls[n - 1] == b then [n - 1] else [], k);
    }
  }

  lemma BucketMembers(ls: Levels, b: nat, n: nat)
    requires n <= |ls|
    ensures forall k: nat :: k in Bucket(ls, b, n) <==> k < n && ls[k] == b
  {
    forall k: nat ensures k in Bucket(ls, b, n) <==> k < n && ls[k] == b {
      BucketMemberUpTo(ls, b, n, k);
    }
  }

  lemma BucketMember(ls: Levels, b: nat, k: nat)
    ensures k in Bucket(ls, b, |ls|) <==> k < |ls| && ls[k] == b
  {
    BucketMemberUpTo(ls, b, |ls|, k);
  }

  ghost predicate Ascending(s: seq<nat>) {
    forall i, j | 0 <= i < j < |s| :: s[i] < s[j]
  }

  lemma {:induction false} BucketAscends(ls: Levels, b: nat, n: nat)
    requires n <= |ls|
    ensures Ascending(Bucket(ls, b, n))
  {
    if n > 0 {
      BucketAscends(ls, b, n - 1);
      BucketMembers(ls, b, n - 1);
      var t := Bucket(ls, b, n - 1);
      assert forall i | 0 <= i < |t| :: t[i] in t;
    }
  }

  /** i ranks before j: in a better bucket, or earlier in the same one. */
  predicate Before(ls: Levels, i: nat, j: nat) {
    && i < |ls| && j < |ls| && ls[i] >= 0 && ls[j] >= 0
    && (ls[i] > ls[j] || (ls[i] == ls[j] && i < j))
  }

  predicate Takes(ls: Levels, t: nat, k: nat) {
    k < |ls| && 0 <= ls[k] < t
  }

  lemma {:induction false} RankedMember(ls: Levels, t: nat, k: nat)
    ensures k in Ranked(ls, t) <==> Takes(ls, t, k)
  {
    if t > 0 {
      RankedMember(ls, t - 1, k);
      TopBucketMember(ls, t - 1, k);
    }
  }

  lemma TopBucketMember(ls: Levels, b: nat, k: nat)
    ensures k in Ranked(ls, b + 1) <==> k in Ranked(ls, b) || (Takes(ls, b + 1, k) && !Takes(ls, b, k))
  {
    BucketMember(ls, b, k);
    InConcat(Bucket(ls, b, |ls|), Ranked(ls, b), k);
  }

  /** The ranking holds the requests that take part, and no others... */
  lemma RankedMembers(ls: Levels, t: nat)
    ensures forall k: nat :: k in Ranked(ls, t) <==> Takes(ls, t, k)
  {
    forall k: nat ensures k in Ranked(ls, t) <==> Takes(ls, t, k) {
      RankedMember(ls, t, k);
    }
  }

  ghost predicate InOrder(ls: Levels, s: seq<nat>) {
    forall i, j | 0 <= i < j < |s| :: Before(ls, s[i], s[j])
  }

  lemma OrderOfConcat(ls: Levels, a: seq<nat>, b: seq<nat>)
    requires InOrder(ls, a) && InOrder(ls, b)
    requires forall x, y | x in a && y in b :: Before(ls, x, y)
    ensures InOrder(ls, a + b)
  {
    forall i, j | 0 <= i < j < |a + b| ensures Before(ls, (a + b)[i], (a + b)[j]) {
      if i < |a| && |a| <= j {
        assert a[i] in a && b[j - |a|] in b;
      }
    }
  }

  lemma BucketInOrder(ls: Levels, b: nat)
    ensures InOrder(ls, Bucket(ls, b, |ls|))
  {
    var s := Bucket(ls, b, |ls|);
    BucketMembers(ls, b, |ls|);
    BucketAscends(ls, b, |ls|);
    assert forall i | 0 <= i < |s| :: s[i] in s;
  }

  /** ... each once, best first. */
  lemma {:induction false} RankedOrder(ls: Levels, t: nat)
    ensures InOrder(ls, Ranked(ls, t))
  {
    if t > 0 {
      RankedOrder(ls, t - 1);
      RankedMembers(ls, t - 1);
      BucketMembers(ls, t - 1, |ls|);
      BucketInOrder(ls, t - 1);
      OrderOfConcat(ls, Bucket(ls, t - 1, |ls|), Ranked(ls, t - 1));
    }
  }

  /** Whatever is not among the best although it takes part ranks behind all that
      are, and the budget is used up. */
  lemma BestAreBest(ls: Levels, t: nat, budget: nat, i: nat, j: nat)
    requires i in Best(ls, t, budget)
    requires j < |ls| && ls[j] >= 0 && ls[j] < t && j !in Best(ls, t, budget)
    ensures Before(ls, i, j) && |Best(ls, t, budget)| == budget
  {
    var ranked, best := Ranked(ls, t), Best(ls, t, budget);
    RankedMember(ls, t, j);
    RankedOrder(ls, t);
    forall q | 0 <= q < |best| ensures ranked[q] in best {
      assert ranked[q] == best[q];
    }
    var p :| 0 <= p < |best| && best[p] == i;
    assert ranked[p] == i && i in ranked;
    var q :| 0 <= q < |ranked| && ranked[q] == j;
  }

  // ---------------------------------------------------------------- where the scan stops

  /** tmp_idx and tmp_req_idx when the selection ends: with `left` of the budget
      left and the lowest t buckets to go. A bucket that is cut leaves the number
      of its requests that passed. */
  function Cut(ls: Levels, left: nat, t: nat): (int, nat)
    decreases t
  {
    if left == 0 || t == 0 then (t - 1, 0)
    else
      var size := |Bucket(ls, t - 1, |ls|)|;
      if size <= left then Cut(ls, left - size, t - 1) else (t - 2, left)
  }

  predicate IsCut(ls: Levels, t: nat, idx: int, reqIdx: nat) {
    -1 <= idx < t && (reqIdx > 0 ==> idx + 1 < t && reqIdx < |Bucket(ls, idx + 1, |ls|)|)
  }

  /** The requests below the cut, best first: what the selection drops. */
  function Below(ls: Levels, idx: int, reqIdx: nat): seq<nat>
    requires -1 <= idx && (reqIdx > 0 ==> reqIdx < |Bucket(ls, idx + 1, |ls|)|)
  {
    if reqIdx == 0 then Ranked(ls, idx + 1)
    else Bucket(ls, idx + 1, |ls|)[reqIdx..] + Ranked(ls, idx + 1)
  }

  /** The two indices describe exactly what is not among the best. */
  lemma {:induction false} CutSplitsTheRanking(ls: Levels, left: nat, t: nat)
    ensures var (idx, reqIdx) := Cut(ls, left, t);
      && IsCut(ls, t, idx, reqIdx)
      && Below(ls, idx, reqIdx) == Ranked(ls, t)[Min(left, |Ranked(ls, t)|)..]
    decreases t
  {
    if left > 0 && t > 0 {
      var bucket := Bucket(ls, t - 1, |ls|);
      var rest := Ranked(ls, t - 1);
      if |bucket| <= left {
        CutSplitsTheRanking(ls, left - |bucket|, t - 1);
        var n := Min(left - |bucket|, |rest|);
        assert (bucket + rest)[|bucket| + n..] == rest[n..];
      } else {
        assert (bucket + rest)[left..] == bucket[left..] + rest;
      }
    }
  }

  lemma SplitOfDistinct(s: seq<nat>, n: nat, k: nat)
    requires n <= |s| && forall i, j | 0 <= i < j < |s| :: s[i] != s[j]
    ensures k in s[..n] <==> k in s && k !in s[n..]
    ensures k in s[n..] ==> k in s
  {
    assert s == s[..n] + s[n..];
    if k in s[..n] {
      var i :| 0 <= i < n && s[i] == k;
      forall j | 0 <= j < |s[n..]| ensures s[n..][j] != k {
        assert s[n..][j] == s[n + j];
      }
    }
  }

  /** The best are what is ranked and not below the cut. */
  lemma BestIsAboveTheCut(ls: Levels, t: nat, budget: nat, k: nat)
    ensures var (idx, reqIdx) := Cut(ls, budget, t);
      && IsCut(ls, t, idx, reqIdx)
      && (k in Best(ls, t, budget) <==> k in Ranked(ls, t) && k !in Below(ls, idx, reqIdx))
      && (k in Below(ls, idx, reqIdx) ==> k in Ranked(ls, t))
  {
    CutSplitsTheRanking(ls, budget, t);
    RankedOrder(ls, t);
    var ranked := Ranked(ls, t);
    forall i, j | 0 <= i < j < |ranked| ensures ranked[i] != ranked[j] {
      assert Before(ls, ranked[i], ranked[j]);
    }
    SplitOfDistinct(ranked, Min(budget, |ranked|), k);
  }

  lemma HalvesAreDisjoint(s: seq<nat>, n: nat)
    requires n <= |s| && Ascending(s)
    ensures forall k: nat :: k in s <==> k in s[..n] || k in s[n..]
    ensures forall k | k in s[..n] :: k !in s[n..]
  {
    assert s == s[..n] + s[n..];
    forall k | k in s[..n] ensures k !in s[n..] {
      SplitOfDistinct(s, n, k);
    }
  }

  lemma BelowMember(ls: Levels, idx: int, reqIdx: nat, k: nat)
    requires -1 <= idx && 0 < reqIdx < |Bucket(ls, idx + 1, |ls|)|
    ensures k in Below(ls, idx, reqIdx) <==> k in Bucket(ls, idx + 1, |ls|)[reqIdx..] || k in Ranked(ls, idx + 1)
  {
    InConcat(Bucket(ls, idx + 1, |ls|)[reqIdx..], Ranked(ls, idx + 1), k);
  }

  lemma Halves(s: seq<nat>, n: nat, k: nat)
    requires n <= |s|
    ensures k in s <==> k in s[..n] || k in s[n..]
  {
    InConcat(s[..n], s[n..], k);
    assert s == s[..n] + s[n..];
  }

  /** Above a cut: in the bucket that is cut, before the cut, or in a higher one. */
  lemma AboveBucket(ls: Levels, t: nat, idx: int, reqIdx: nat, i: nat)
    requires IsCut(ls, t, idx, reqIdx) && i in Ranked(ls, t) && i !in Below(ls, idx, reqIdx)
    ensures i < |ls| && ls[i] >= 0 && idx < ls[i]
    ensures reqIdx > 0 && ls[i] == idx + 1 ==> i in Bucket(ls, idx + 1, |ls|)[..reqIdx]
  {
    RankedMember(ls, t, i);
    RankedMember(ls, idx + 1, i);
    if reqIdx > 0 {
      BucketMember(ls, idx + 1, i);
      BelowMember(ls, idx, reqIdx, i);
      Halves(Bucket(ls, idx + 1, |ls|), reqIdx, i);
    }
  }

  /** Below it: in that bucket, behind the cut, or in a lower one. */
  lemma BelowBucket(ls: Levels, t: nat, idx: int, reqIdx: nat, j: nat)
    requires IsCut(ls, t, idx, reqIdx) && j in Below(ls, idx, reqIdx)
    ensures j < |ls| && ls[j] >= 0 && ls[j] <= idx + 1
    ensures ls[j] == idx + 1 ==> reqIdx > 0 && j in Bucket(ls, idx + 1, |ls|)[reqIdx..]
  {
    RankedMember(ls, idx + 1, j);
    if reqIdx > 0 {
      BucketMember(ls, idx + 1, j);
      BelowMember(ls, idx, reqIdx, j);
      Halves(Bucket(ls, idx + 1, |ls|), reqIdx, j);
    }
  }

  /** i is in the bucket that is cut, before the cut, and j is in it, behind the cut. */
  predicate SplitByTheCut(ls: Levels, idx: int, reqIdx: nat, i: nat, j: nat) {
    -1 <= idx && 0 < reqIdx < |Bucket(ls, idx + 1, |ls|)|
    && i in Bucket(ls, idx + 1, |ls|)[..reqIdx] && j in Bucket(ls, idx + 1, |ls|)[reqIdx..]
  }

  lemma AboveRanksHigher(ls: Levels, t: nat, idx: int, reqIdx: nat, i: nat, j: nat)
    requires IsCut(ls, t, idx, reqIdx)
    requires i in Ranked(ls, t) && i !in Below(ls, idx, reqIdx) && j in Below(ls, idx, reqIdx)
    ensures i < |ls| && ls[i] >= 0 && j < |ls| && ls[j] >= 0
    ensures ls[i] <= ls[j] ==> SplitByTheCut(ls, idx, reqIdx, i, j)
  {
    AboveBucket(ls, t, idx, reqIdx, i);
    BelowBucket(ls, t, idx, reqIdx, j);
  }

  lemma BestIsAbove(ls: Levels, t: nat, budget: nat, i: nat, j: nat)
    requires i in Best(ls, t, budget) && j in Ranked(ls, t) && j !in Best(ls, t, budget)
    ensures var (idx, reqIdx) := Cut(ls, budget, t);
      && IsCut(ls, t, idx, reqIdx)
      && i in Ranked(ls, t) && i !in Below(ls, idx, reqIdx) && j in Below(ls, idx, reqIdx)
  {
    BestIsAboveTheCut(ls, t, budget, i);
    BestIsAboveTheCut(ls, t, budget, j);
  }

  /** The two parts of the bucket that is cut. */
  lemma CutParts(ls: Levels, t: nat, idx: int, reqIdx: nat, i: nat, j: nat)
    requires IsCut(ls, t, idx, reqIdx) && SplitByTheCut(ls, idx, reqIdx, i, j)
    ensures i in Ranked(ls, t) && i !in Below(ls, idx, reqIdx)
    ensures j in Below(ls, idx, reqIdx)
  {
    var cut := Bucket(ls, idx + 1, |ls|);
    Halves(cut, reqIdx, i);
    BucketMember(ls, idx + 1, i);
    RankedMember(ls, t, i);
    RankedMember(ls, idx + 1, i);
    BucketAscends(ls, idx + 1, |ls|);
    SplitOfDistinct(cut, reqIdx, i);
    BelowMember(ls, idx, reqIdx, i);
    BelowMember(ls, idx, reqIdx, j);
  }

  lemma CutIsSplit(ls: Levels, t: nat, budget: nat, i: nat, j: nat)
    requires var (idx, reqIdx) := Cut(ls, budget, t); IsCut(ls, t, idx, reqIdx) && SplitByTheCut(ls, idx, reqIdx, i, j)
    ensures i in Best(ls, t, budget)
    ensures j in Ranked(ls, t) && j !in Best(ls, t, budget)
  {
    BestIsAboveTheCut(ls, t, budget, i);
    BestIsAboveTheCut(ls, t, budget, j);
    var (idx, reqIdx) := Cut(ls, budget, t);
    CutParts(ls, t, idx, reqIdx, i, j);
  }

  // -------------------------------------------------------------- the scan that follows

  /** The requests that the boost looks at: tmp_idx is the bucket after the one
      that was cut, and Python counts -1 from the end. */
  function Scan(ls: Levels, t: nat, idx: int, reqIdx: nat): seq<nat>
    requires -1 <= idx < t && t > 0
  {
    if reqIdx == 0 then Ranked(ls, idx + 1)
    else
      var bucket := Bucket(ls, if idx >= 0 then idx else t - 1, |ls|);
      bucket[Min(reqIdx, |bucket|)..] + if idx < 0 then [] else Ranked(ls, idx)
  }

  /** The requests below the cut that it does not look at. */
  function Skipped(ls: Levels, t: nat, idx: int, reqIdx: nat): seq<nat>
    requires IsCut(ls, t, idx, reqIdx)
  {
    if reqIdx == 0 || t == 1 then []
    else
      Bucket(ls, idx + 1, |ls|)[reqIdx..]
      + if idx < 0 then [] else var b := Bucket(ls, idx, |ls|); b[..Min(reqIdx, |b|)]
  }

  ghost predicate Disjoint(s: seq<nat>, t: seq<nat>) {
    forall x | x in s :: x !in t
  }

  lemma BucketsAreDisjoint(ls: Levels, b: nat, t: nat)
    requires t <= b
    ensures Disjoint(Bucket(ls, b, |ls|), Ranked(ls, t))
  {
    BucketMembers(ls, b, |ls|);
    RankedMembers(ls, t);
  }

  lemma OnlySkipped(cut: seq<nat>, next: seq<nat>, rest: seq<nat>, r: nat, n: nat, k: nat)
    requires r <= |cut| && n <= |next| && Ascending(next)
    requires Disjoint(cut, next + rest) && Disjoint(next, rest)
    requires k in cut[r..] + (next + rest)
    ensures k in next[n..] + rest <==> k !in cut[r..] + next[..n]
  {
    HalvesAreDisjoint(next, n);
    assert forall x | x in cut[r..] :: x in cut;
  }

  lemma CutShapes(ls: Levels, t: nat, idx: nat, reqIdx: nat)
    requires IsCut(ls, t, idx, reqIdx) && reqIdx > 0
    ensures var (cut, next, rest) := (Bucket(ls, idx + 1, |ls|), Bucket(ls, idx, |ls|), Ranked(ls, idx));
            var n := Min(reqIdx, |next|);
      && Below(ls, idx, reqIdx) == cut[reqIdx..] + (next + rest)
      && Scan(ls, t, idx, reqIdx) == next[n..] + rest
      && Skipped(ls, t, idx, reqIdx) == cut[reqIdx..] + next[..n]
  {
  }

  lemma CutBuckets(ls: Levels, idx: nat)
    ensures var (cut, next, rest) := (Bucket(ls, idx + 1, |ls|), Bucket(ls, idx, |ls|), Ranked(ls, idx));
            Disjoint(cut, next + rest) && Disjoint(next, rest) && Ascending(next)
  {
    BucketsAreDisjoint(ls, idx + 1, idx + 1);
    BucketsAreDisjoint(ls, idx, idx);
    BucketAscends(ls, idx, |ls|);
  }

  lemma CutIsSkipped(ls: Levels, t: nat, idx: nat, reqIdx: nat, k: nat)
    requires IsCut(ls, t, idx, reqIdx) && reqIdx > 0 && k in Below(ls, idx, reqIdx)
    ensures k in Scan(ls, t, idx, reqIdx) <==> k !in Skipped(ls, t, idx, reqIdx)
  {
    CutShapes(ls, t, idx, reqIdx);
    CutBuckets(ls, idx);
    var cut, next, rest := Bucket(ls, idx + 1, |ls|), Bucket(ls, idx, |ls|), Ranked(ls, idx);
    OnlySkipped(cut, next, rest, reqIdx, Min(reqIdx, |next|), k);
  }

  lemma LowestCutIsSkipped(ls: Levels, t: nat, reqIdx: nat, k: nat)
    requires t > 1 && IsCut(ls, t, -1, reqIdx) && reqIdx > 0 && k in Below(ls, -1, reqIdx)
    ensures k !in Scan(ls, t, -1, reqIdx) && k in Skipped(ls, t, -1, reqIdx)
  {
    var cut, last := Bucket(ls, 0, |ls|), Bucket(ls, t - 1, |ls|);
    assert Ranked(ls, 0) == [];
    assert forall x | x in cut[reqIdx..] :: x in cut;
    assert forall x | x in last[Min(reqIdx, |last|)..] :: x in last;
    BucketMembers(ls, 0, |ls|);
    BucketMembers(ls, t - 1, |ls|);
  }

  /** A request below the cut is scanned exactly when it is not skipped. */
  lemma ScanMissesTheSkipped(ls: Levels, t: nat, idx: int, reqIdx: nat, k: nat)
    requires t > 0 && IsCut(ls, t, idx, reqIdx) && k in Below(ls, idx, reqIdx)
    ensures k in Scan(ls, t, idx, reqIdx) <==> k !in Skipped(ls, t, idx, reqIdx)
  {
    if reqIdx > 0 {
      if t == 1 {
        assert Below(ls, idx, reqIdx) == Scan(ls, t, idx, reqIdx);
      } else if idx < 0 {
        LowestCutIsSkipped(ls, t, reqIdx, k);
      } else {
        CutIsSkipped(ls, t, idx, reqIdx, k);
      }
    }
  }

  lemma SkippedIsBelow(ls: Levels, t: nat, idx: int, reqIdx: nat, k: nat)
    requires IsCut(ls, t, idx, reqIdx) && k in Skipped(ls, t, idx, reqIdx)
    ensures k in Below(ls, idx, reqIdx)
  {
    if idx >= 0 {
      var b := Bucket(ls, idx, |ls|);
      assert b == b[..Min(reqIdx, |b|)] + b[Min(reqIdx, |b|)..];
      assert Ranked(ls, idx + 1) == b + Ranked(ls, idx);
    }
  }

  /** Unless the lowest of several buckets was cut, the scan starts behind what it
      skips. */
  lemma BelowIsSkippedThenScan(ls: Levels, t: nat, idx: int, reqIdx: nat)
    requires t > 0 && IsCut(ls, t, idx, reqIdx) && (reqIdx == 0 || t == 1 || idx >= 0)
    ensures Below(ls, idx, reqIdx) == Skipped(ls, t, idx, reqIdx) + Scan(ls, t, idx, reqIdx)
  {
    if reqIdx == 0 {
      assert Below(ls, idx, reqIdx) == [] + Ranked(ls, idx + 1);
    } else if t == 1 {
      assert Ranked(ls, 0) == [];
    } else {
      CutShapes(ls, t, idx, reqIdx);
      var cut, next := Bucket(ls, idx + 1, |ls|), Bucket(ls, idx, |ls|);
      SplitInside(cut[reqIdx..], next, Min(reqIdx, |next|), Ranked(ls, idx));
    }
  }

  lemma SplitInside(a: seq<nat>, b: seq<nat>, n: nat, c: seq<nat>)
    requires n <= |b|
    ensures a + (b + c) == (a + b[..n]) + (b[n..] + c)
  {
  }

  /** When it was, the scan finds only requests that passed already. */
  lemma ScanFromTheTopHasPassed(ls: Levels, t: nat, budget: nat, reqIdx: nat, k: nat)
    requires t > 1 && reqIdx > 0 && Cut(ls, budget, t) == (-1, reqIdx)
    requires k in Scan(ls, t, -1, reqIdx)
    ensures IsCut(ls, t, -1, reqIdx)
    ensures k in Best(ls, t, budget) && Below(ls, -1, reqIdx) == Skipped(ls, t, -1, reqIdx)
  {
    BestIsAboveTheCut(ls, t, budget, k);
    var top := Bucket(ls, t - 1, |ls|);
    Halves(top, Min(reqIdx, |top|), k);
    BucketMember(ls, t - 1, k);
    RankedMember(ls, t, k);
    if k in Below(ls, -1, reqIdx) {
      BelowBucket(ls, t, -1, reqIdx, k);
    }
  }
}
