/**
 The hidden states that the scorer hands to the proposer (HiddenStates in
 spexis/sequence.py): a tensor whose rows belong to the sequence ids beside it.
 A row is kept abstract; `zero` is the dummy row of zeros.
 */
module HiddenStates {
  import opened Options

  datatype State<R> = Tensors(ids: seq<nat>, rows: seq<R>, second: Option<seq<R>>)

  ghost predicate Distinct(ids: seq<nat>) {
    forall i, j | 0 <= i < j < |ids| :: ids[i] != ids[j]
  }

  ghost predicate Shaped<R>(s: State<R>) {
    && |s.rows| == |s.ids|
    && (s.second.Some? ==> |s.second.value| == |s.ids|)
  }

  /** list.index of a member: where it first occurs. */
  function Index(ids: seq<nat>, id: nat): (i: nat)
    requires id in ids
    ensures i < |ids| && ids[i] == id && id !in ids[..i]
  {
    if ids[0] == id then 0 else 1 + Index(ids[1..], id)
  }

  function Zeros<R>(n: nat, zero: R): seq<R> {
    seq(n, _ => zero)
  }

  // ------------------------------------------------------------------- what it is for

  /** The last rows recorded for an id. */
  datatype Record<R> = Record(row: R, secondRow: R)

  /** Row k is what was last recorded for the id at k. */
  ghost predicate Aligned<R>(s: State<R>, latest: map<nat, Record<R>>) {
    && Shaped(s) && Distinct(s.ids)
    && forall k | 0 <= k < |s.ids| ::
         && s.ids[k] in latest
         && s.rows[k] == latest[s.ids[k]].row
         && (s.second.Some? ==> s.second.value[k] == latest[s.ids[k]].secondRow)
  }

  // -------------------------------------------------------------------- its operations

  function Extend<R>(s: State<R>, ids: seq<nat>, rows: seq<R>, second: Option<seq<R>>, zero: R): State<R> {
    Tensors(s.ids + ids, s.rows + rows,
          if s.second.None? then None
          else Some(s.second.value + if second.Some? then second.value else Zeros(|rows|, zero)))
  }

  ghost predicate Below(index: seq<nat>, n: nat) {
    forall k | 0 <= k < |index| :: index[k] < n
  }

  predicate AllIn(keep: seq<nat>, ids: seq<nat>) {
    forall k | 0 <= k < |keep| :: keep[k] in ids
  }

  /** torch indexing with a list of positions. */
  function Pick<R>(rows: seq<R>, index: seq<nat>): seq<R>
    requires Below(index, |rows|)
  {
    seq(|index|, (k: nat) requires k < |index| && index[k] < |rows| => rows[index[k]])
  }

  function Positions(ids: seq<nat>, keep: seq<nat>): (r: seq<nat>)
    requires AllIn(keep, ids)
    ensures Below(r, |ids|)
  {
    seq(|keep|, (k: nat) requires k < |keep| && keep[k] in ids => Index(ids, keep[k]))
  }

  /** None for the ValueError of an id that is not there. */
  function PruneTo<R>(s: State<R>, keep: seq<nat>): Option<State<R>>
    requires Shaped(s)
  {
    if keep == s.ids then Some(s)
    else if !AllIn(keep, s.ids) then None
    else var index := Positions(s.ids, keep);
         Some(Tensors(keep, Pick(s.rows, index),
                    if s.second.None? then None else Some(Pick(s.second.value, index))))
  }

  /** Where expand_with_bonus_tokens takes its rows from, in the concatenation of
      the last rows and the second-last rows. */
  function ExpandIndex(ids: seq<nat>, bonus: set<nat>, upTo: nat): (r: seq<nat>)
    requires upTo <= |ids|
    ensures Below(r, 2 * |ids|)
  {
    if upTo == 0 then [] else
      assert ids[upTo - 1] in ids;
      var i := Index(ids, ids[upTo - 1]);
      ExpandIndex(ids, bonus, upTo - 1) + (if ids[upTo - 1] in bonus then [i + |ids|] else []) + [i]
  }

  function Expand<R>(s: State<R>, bonus: set<nat>): State<R>
    requires Shaped(s)
  {
    if s.second.None? || bonus == {} then s
    else s.(rows := Pick(s.rows + s.second.value, ExpandIndex(s.ids, bonus, |s.ids|)))
  }

  class HiddenStates<R(==)> {
    const zero: R
    var seqIds: seq<nat>
    var hiddenStates: seq<R>
    var secondLastTokenHiddenStates: Option<seq<R>>

    ghost function State(): State<R>
      reads this
    {
      Tensors(seqIds, hiddenStates, secondLastTokenHiddenStates)
    }

    /** __post_init__: one id per row. */
    constructor (rows: seq<R>, ids: seq<nat>, second: Option<seq<R>>, zero: R)
      requires |ids| == |rows| && (second.Some? ==> |second.value| == |rows|)
      ensures State() == Tensors(ids, rows, second) && Shaped(State()) && this.zero == zero
    {
      seqIds, hiddenStates, secondLastTokenHiddenStates, this.zero := ids, rows, second, zero;
    }

    method Update(rows: seq<R>, ids: seq<nat>, second: Option<seq<R>>)
      requires Shaped(State()) && |ids| == |rows| && (second.Some? ==> |second.value| == |rows|)
      modifies this
      ensures State() == Extend(old(State()), ids, rows, second, zero) && Shaped(State())
      ensures seqIds == old(seqIds) + ids && hiddenStates == old(hiddenStates) + rows
      ensures secondLastTokenHiddenStates == match old(secondLastTokenHiddenStates)
        case None => None
        case Some(rows') => Some(rows' + if second.Some? then second.value else seq(|rows|, _ => zero))
    {
      seqIds := seqIds + ids;
      hiddenStates := hiddenStates + rows;
      if secondLastTokenHiddenStates.Some? {
        secondLastTokenHiddenStates := Some(secondLastTokenHiddenStates.value
                                            + if second.None? then Zeros(|rows|, zero) else second.value);
      }
    }

    method Prune(keep: seq<nat>) returns (ok: bool)
      requires Shaped(State())
      modifies this
      ensures ok == PruneTo(old(State()), keep).Some?
      ensures State() == if ok then PruneTo(old(State()), keep).value else old(State())
      ensures Shaped(State())
    {
      ok := true;
      if keep != seqIds {
        var index: seq<nat> := [];
        for k := 0 to |keep|
          invariant AllIn(keep[..k], seqIds)
          invariant index == Positions(seqIds, keep[..k])
        {
          if keep[k] !in seqIds {
            return false;
          }
          index := index + [Index(seqIds, keep[k])];
        }
        assert keep[..|keep|] == keep;
        hiddenStates := Pick(hiddenStates, index);
        if secondLastTokenHiddenStates.Some? {
          secondLastTokenHiddenStates := Some(Pick(secondLastTokenHiddenStates.value, index));
        }
        seqIds := keep;
      }
    }

    /** Its loop: which rows of the last and second-last ones, put together. */
    method BonusIndex(bonus: set<nat>) returns (index: seq<nat>)
      requires Shaped(State())
      ensures index == ExpandIndex(seqIds, bonus, |seqIds|)
    {
      index := [];
      for k := 0 to |seqIds|
        invariant index == ExpandIndex(seqIds, bonus, k)
      {
        assert seqIds[k] in seqIds;
        var i := Index(seqIds, seqIds[k]);
        if seqIds[k] in bonus {
          index := index + [i + |seqIds|];
        }
        index := index + [i];
      }
    }

    method ExpandWithBonusTokens(bonus: set<nat>)
      requires Shaped(State())
      modifies this`hiddenStates
      ensures State() == Expand(old(State()), bonus)
    {
      if secondLastTokenHiddenStates.None? || bonus == {} {
        return;
      }
      var index := BonusIndex(bonus);
      hiddenStates := Pick(hiddenStates + secondLastTokenHiddenStates.value, index);
    }
  }

  // ------------------------------------------------------------------------ every run

  datatype Op<R> =
    | UpdateOp(ids: seq<nat>, rows: seq<R>, second: Option<seq<R>>)
    | PruneOp(keep: seq<nat>)

  /** The state beside the history of what was recorded for each id. */
  datatype Run<R> = Run(state: State<R>, latest: map<nat, Record<R>>)

  /** The records of an update; a missing second-last row is recorded as zeros. */
  function Records<R>(rows: seq<R>, second: Option<seq<R>>, zero: R): seq<Record<R>>
    requires second.Some? ==> |second.value| == |rows|
  {
    seq(|rows|, (k: nat) requires k < |rows| =>
      Record(rows[k], if second.Some? && k < |second.value| then second.value[k] else zero))
  }

  function Recorded<R>(latest: map<nat, Record<R>>, ids: seq<nat>, records: seq<Record<R>>): map<nat, Record<R>>
    requires |records| == |ids|
  {
    if ids == [] then latest
    else var n := |ids| - 1;
         Recorded(latest, ids[..n], records[..n])[ids[n] := records[n]]
  }

  /** The steps of the decode phase: an update adds ids that are not there, a prune
      keeps ids that are. */
  ghost predicate Allowed<R>(r: Run<R>, op: Op<R>) {
    match op
    case UpdateOp(ids, rows, second) =>
      && |ids| == |rows| && (second.Some? ==> |second.value| == |rows|)
      && Distinct(r.state.ids + ids)
    case PruneOp(keep) => Distinct(keep) && AllIn(keep, r.state.ids)
  }

  ghost function Step<R>(r: Run<R>, op: Op<R>, zero: R): Run<R>
    requires Shaped(r.state) && Allowed(r, op)
  {
    match op
    case UpdateOp(ids, rows, second) =>
      Run(Extend(r.state, ids, rows, second, zero), Recorded(r.latest, ids, Records(rows, second, zero)))
    case PruneOp(keep) => r.(state := PruneTo(r.state, keep).value)
  }

  /** `runs` is a run: it starts with a fresh object and follows `ops`. */
  ghost predicate IsRun<R>(runs: seq<Run<R>>, ops: seq<Op<R>>, zero: R) {
    && |runs| == |ops| + 1
    && Shaped(runs[0].state) && Distinct(runs[0].state.ids)
    && runs[0].latest == Recorded(map[], runs[0].state.ids, Records(runs[0].state.rows, runs[0].state.second, zero))
    && forall i | 0 <= i < |ops| ::
         Shaped(runs[i].state) && Allowed(runs[i], ops[i]) && runs[i + 1] == Step(runs[i], ops[i], zero)
  }

  lemma {:induction false} RecordedMeaning<R>(latest: map<nat, Record<R>>, ids: seq<nat>, records: seq<Record<R>>)
    requires |records| == |ids| && Distinct(ids)
    ensures var l := Recorded(latest, ids, records);
      && (forall k | 0 <= k < |ids| :: ids[k] in l && l[ids[k]] == records[k])
      && (forall id | id in latest && id !in ids :: id in l && l[id] == latest[id])
  {
    if ids != [] {
      var n := |ids| - 1;
      RecordedMeaning(latest, ids[..n], records[..n]);
      assert forall id | id !in ids :: id !in ids[..n];
    }
  }

  lemma DistinctParts(a: seq<nat>, b: seq<nat>)
    requires Distinct(a + b)
    ensures Distinct(a) && Distinct(b) && forall k | 0 <= k < |a| :: a[k] !in b
  {
    var s := a + b;
    forall i | 0 <= i < |b| ensures b[i] == s[|a| + i] {
    }
    forall i | 0 <= i < |a| ensures a[i] == s[i] {
    }
    forall i, j | 0 <= i < j < |b| ensures b[i] != b[j] {
      assert s[|a| + i] != s[|a| + j];
    }
  }

  lemma UpdateKeepsAligned<R>(
      s: State<R>, latest: map<nat, Record<R>>, ids: seq<nat>, rows: seq<R>, second: Option<seq<R>>, zero: R)
    requires Aligned(s, latest) && Distinct(s.ids + ids)
    requires |ids| == |rows| && (second.Some? ==> |second.value| == |rows|)
    ensures Aligned(Extend(s, ids, rows, second, zero), Recorded(latest, ids, Records(rows, second, zero)))
  {
    DistinctParts(s.ids, ids);
    RecordedMeaning(latest, ids, Records(rows, second, zero));
  }

  lemma PruneKeepsAligned<R>(s: State<R>, latest: map<nat, Record<R>>, keep: seq<nat>)
    requires Aligned(s, latest) && Distinct(keep) && AllIn(keep, s.ids)
    ensures PruneTo(s, keep).Some? && PruneTo(s, keep).value.ids == keep && Aligned(PruneTo(s, keep).value, latest)
  {
    if keep != s.ids {
      var index := Positions(s.ids, keep);
      assert forall k | 0 <= k < |index| :: s.ids[index[k]] == keep[k];
    }
  }

  /** After any run of updates and prunes, row k is the latest recorded for id k. */
  lemma {:induction false} RowsStayAligned<R>(runs: seq<Run<R>>, ops: seq<Op<R>>, zero: R)
    requires IsRun(runs, ops, zero)
    ensures Aligned(runs[|ops|].state, runs[|ops|].latest)
  {
    if ops == [] {
      var s := runs[0].state;
      RecordedMeaning(map[], s.ids, Records(s.rows, s.second, zero));
    } else {
      var n := |ops| - 1;
      RowsStayAligned(runs[..n + 1], ops[..n], zero);
      var r := runs[n];
      assert runs[n + 1] == Step(r, ops[n], zero);
      match ops[n]
      case UpdateOp(ids, rows, second) => UpdateKeepsAligned(r.state, r.latest, ids, rows, second, zero);
      case PruneOp(keep) => PruneKeepsAligned(r.state, r.latest, keep);
    }
  }

  /** An id that an update repeats breaks this: pruning takes the first row of the
      id, so where the rows differ it keeps the latest exactly when the id occurs
      once. */
  lemma PruneKeepsTheLatestExactlyWhenUnique<R>(s: State<R>, keep: seq<nat>, k: nat, last: nat)
    requires Shaped(s) && keep != s.ids && AllIn(keep, s.ids) && k < |keep|
    requires last < |s.ids| && s.ids[last] == keep[k] && (forall j | last < j < |s.ids| :: s.ids[j] != keep[k])
    requires forall i, j | 0 <= i < j < |s.rows| :: s.rows[i] != s.rows[j]
    ensures PruneTo(s, keep).Some? && |PruneTo(s, keep).value.rows| == |keep|
    ensures PruneTo(s, keep).value.rows[k] == s.rows[last] <==> forall j | 0 <= j < |s.ids| && s.ids[j] == keep[k] :: j == last
  {
    var index := Positions(s.ids, keep);
    var first := Index(s.ids, keep[k]);
    assert index[k] == first;
    assert forall j | 0 <= j < first :: s.ids[..first][j] == s.ids[j];
  }

  // -------------------------------------------------------------------- the expansion

  /** How many of the first `n` ids have a bonus token. */
  function BonusUpTo(ids: seq<nat>, bonus: set<nat>, n: nat): nat
    requires n <= |ids|
  {
    if n == 0 then 0 else BonusUpTo(ids, bonus, n - 1) + if ids[n - 1] in bonus then 1 else 0
  }

  lemma IndexOfDistinct(ids: seq<nat>, k: nat)
    requires Distinct(ids) && k < |ids|
    ensures ids[k] in ids && Index(ids, ids[k]) == k
  {
    assert ids[Index(ids, ids[k])] == ids[k];
  }

  /** Where the row of the id at `k` ends up. */
  function At(ids: seq<nat>, bonus: set<nat>, k: nat): nat
    requires k < |ids|
  {
    k + BonusUpTo(ids, bonus, k + 1)
  }

  lemma {:induction false} ExpandIndexLength(ids: seq<nat>, bonus: set<nat>, n: nat)
    requires n <= |ids|
    ensures |ExpandIndex(ids, bonus, n)| == n + BonusUpTo(ids, bonus, n)
  {
    if n > 0 {
      ExpandIndexLength(ids, bonus, n - 1);
    }
  }

  /** Row k is at its place, and the second-last row right before it for a bonus id. */
  ghost predicate Placed(ids: seq<nat>, bonus: set<nat>, index: seq<nat>, k: nat)
    requires k < |ids|
  {
    var at := At(ids, bonus, k);
    && at < |index| && index[at] == k
    && (ids[k] in bonus ==> at > 0 && index[at - 1] == k + |ids|)
  }

  lemma {:induction false} ExpandIndexMeaning(ids: seq<nat>, bonus: set<nat>, n: nat, k: nat)
    requires Distinct(ids) && k < n <= |ids|
    ensures Placed(ids, bonus, ExpandIndex(ids, bonus, n), k)
  {
    ExpandIndexLength(ids, bonus, n - 1);
    if k < n - 1 {
      ExpandIndexMeaning(ids, bonus, n - 1, k);
    } else {
      IndexOfDistinct(ids, k);
    }
  }

  ghost function Elements(ids: seq<nat>): set<nat> {
    set id | id in ids
  }

  /** How many of the first `n` ids are in `bonus`, as a set. */
  ghost function BonusAmong(ids: seq<nat>, bonus: set<nat>, n: nat): nat
    requires n <= |ids|
  {
    |bonus * Elements(ids[..n])|
  }

  lemma {:induction false} BonusCount(ids: seq<nat>, bonus: set<nat>, n: nat)
    requires Distinct(ids) && n <= |ids|
    ensures BonusUpTo(ids, bonus, n) == BonusAmong(ids, bonus, n)
  {
    if n == 0 {
      assert bonus * Elements(ids[..n]) == {};
    } else {
      BonusCount(ids, bonus, n - 1);
      BonusAmongNext(ids, bonus, n);
    }
  }

  lemma BonusAmongNext(ids: seq<nat>, bonus: set<nat>, n: nat)
    requires Distinct(ids) && 0 < n <= |ids|
    ensures BonusAmong(ids, bonus, n) == BonusAmong(ids, bonus, n - 1) + if ids[n - 1] in bonus then 1 else 0
  {
    ElementsOfPrefix(ids, n);
    OneMore(bonus, Elements(ids[..n - 1]), Elements(ids[..n]), ids[n - 1]);
  }

  lemma ElementsOfPrefix(ids: seq<nat>, n: nat)
    requires Distinct(ids) && 0 < n <= |ids|
    ensures ids[n - 1] !in Elements(ids[..n - 1]) && Elements(ids[..n]) == Elements(ids[..n - 1]) + {ids[n - 1]}
  {
    assert ids[..n] == ids[..n - 1] + [ids[n - 1]];
  }

  lemma OneMore(bonus: set<nat>, before: set<nat>, after: set<nat>, last: nat)
    requires last !in before && after == before + {last}
    ensures |bonus * after| == |bonus * before| + if last in bonus then 1 else 0
  {
    assert bonus * after == bonus * before + if last in bonus then {last} else {};
  }

  lemma {:induction false} NoBonus(ids: seq<nat>, n: nat)
    requires n <= |ids|
    ensures BonusUpTo(ids, {}, n) == 0
  {
    if n > 0 {
      NoBonus(ids, n - 1);
    }
  }

  lemma ExpandRows<R>(s: State<R>, bonus: set<nat>, k: nat)
    requires Shaped(s) && Distinct(s.ids) && s.second.Some? && k < |s.ids|
    ensures var (rows, at) := (Expand(s, bonus).rows, At(s.ids, bonus, k));
      && at < |rows| && rows[at] == s.rows[k]
      && (s.ids[k] in bonus ==> at > 0 && rows[at - 1] == s.second.value[k])
  {
    if bonus == {} {
      NoBonus(s.ids, k + 1);
    } else {
      ExpandIndexMeaning(s.ids, bonus, |s.ids|, k);
    }
  }

  lemma ExpandLength<R>(s: State<R>, bonus: set<nat>)
    requires Shaped(s) && Distinct(s.ids) && s.second.Some?
    ensures |Expand(s, bonus).rows| == |s.ids| + |bonus * Elements(s.ids)|
  {
    ExpandIndexLength(s.ids, bonus, |s.ids|);
    BonusCount(s.ids, bonus, |s.ids|);
    assert s.ids[..|s.ids|] == s.ids;
    if bonus == {} {
      assert bonus * Elements(s.ids) == {};
    }
  }

  /** The expansion of an aligned state: in the order of the ids, the latest row of
      each, and right before it the second-last row for exactly the bonus ids;
      there is nothing else. */
  lemma ExpansionInterleaves<R>(s: State<R>, latest: map<nat, Record<R>>, bonus: set<nat>)
    requires Aligned(s, latest) && s.second.Some?
    ensures |Expand(s, bonus).rows| == |s.ids| + |bonus * Elements(s.ids)|
    ensures forall k: nat | k < |s.ids| ::
      var (rows, at) := (Expand(s, bonus).rows, At(s.ids, bonus, k));
      && at < |rows| && rows[at] == latest[s.ids[k]].row
      && (s.ids[k] in bonus ==> at > 0 && rows[at - 1] == latest[s.ids[k]].secondRow)
  {
    ExpandLength(s, bonus);
    forall k: nat | k < |s.ids|
      ensures var (rows, at) := (Expand(s, bonus).rows, At(s.ids, bonus, k));
        && at < |rows| && rows[at] == latest[s.ids[k]].row
        && (s.ids[k] in bonus ==> at > 0 && rows[at - 1] == latest[s.ids[k]].secondRow)
    {
      ExpandRows(s, bonus, k);
    }
  }
}
