/**
 The inclusion property of least-recently-used replacement, for LRUCache with
 entries of size one and no pins (spexis/utils.py): on any one trace, a cache of
 smaller capacity holds a subset of what a larger one holds.
 */
module LruInclusion {
  import opened LruCache

  /** A consistent cache of entries of size one, none pinned. */
  ghost predicate Unit<K(!new), V(!new)>(c: Cache<K, V>) {
    Valid(c) && c.pins == {} && forall k | k in c.data :: c.data[k].size == 1
  }

  /** The common keys are in the same relative order, and the larger cache is
      ahead by no more entries than its capacity allows. */
  ghost predicate Ordered<K(!new)>(small: seq<K>, large: seq<K>, n: nat, m: nat) {
    && Distinct(small) && Distinct(large)
    && Restrict(large, Elements(small)) == small
    && |small| <= n && |large| <= m && |large| - |small| <= m - n
  }

  ghost predicate Included<K(!new), V(!new)>(small: Cache<K, V>, large: Cache<K, V>) {
    && Unit(small) && Unit(large)
    && (forall k | k in small.data :: k in large.data && large.data[k] == small.data[k])
    && Ordered(small.order, large.order, small.capacity, large.capacity)
  }

  /** put on a recency order with room for `n` keys. */
  ghost function InsertKey<K(!new)>(order: seq<K>, n: nat, k: K): seq<K> {
    if n == 0 then order
    else if k in order then Without(order, k) + [k]
    else (if |order| >= n then order[1..] else order) + [k]
  }

  ghost function OrderAfter<K(!new), V(!new)>(order: seq<K>, n: nat, op: Op<K, V>): seq<K> {
    match op
    case PutOp(k, v, size) => InsertKey(order, n, k)
    case GetOp(k) => if k in order then Without(order, k) + [k] else order
    case TouchOp(k) => Without(order, k) + [k]
    case PopOp(k) => Without(order, k)
    case _ => order
  }

  /** The operations of the trace. */
  ghost predicate Plain<K(!new), V(!new)>(op: Op<K, V>) {
    match op
    case PutOp(_, _, size) => size == 1
    case GetOp(_) => true
    case PopOp(_) => true
    case TouchOp(_) => true
    case _ => false
  }

  // ----------------------------------------------------- unit caches follow the orders

  lemma {:induction false} UnitSize<K(!new), V(!new)>(s: seq<K>, data: map<K, Entry<V>>)
    requires forall k | k in s :: k in data && data[k].size == 1
    ensures TotalSize(s, data) == |s|
  {
    if s != [] {
      assert s[0] in s;
      UnitSize(s[1..], data);
    }
  }

  /** Making room for one entry evicts the oldest key when the cache is full. */
  lemma UnitMakesRoom<K(!new), V(!new)>(c: Cache<K, V>)
    requires Unit(c) && c.capacity > 0
    ensures c.currsize == |c.order|
    ensures |c.order| < c.capacity ==> MakeRoom(c, 1) == (c, Room)
    ensures |c.order| >= c.capacity ==> c.order != [] && MakeRoom(c, 1) == (Remove(c, c.order[0]), Room)
  {
    UnitSize(c.order, c.data);
    if |c.order| >= c.capacity {
      assert c.order[0] in c.order;
      assert Victim(c, false).value == c.order[0];
      VictimIsResident(c, false);
      RemoveKeepsValid(c, c.order[0]);
    }
  }

  lemma UnitInsertOrder<K(!new), V(!new)>(c: Cache<K, V>, k: K, v: V)
    requires Unit(c)
    ensures Insert(c, k, v, 1).0.order == InsertKey(c.order, c.capacity, k)
  {
    UnitSize(c.order, c.data);
    if c.capacity > 0 && k !in c.data {
      UnitMakesRoom(c);
      var room := MakeRoom(c, 1).0;
      if |c.order| >= c.capacity {
        assert c.order[0] in c.order;
        assert room.order == c.order[1..];
        assert k !in c.order[1..];
      }
      WithoutAbsent(room.order, k);
    }
  }

  lemma UnitInsertEntries<K(!new), V(!new)>(c: Cache<K, V>, k: K, v: V)
    requires Unit(c)
    ensures var c' := Insert(c, k, v, 1).0;
      && c'.capacity == c.capacity && c'.pins == {}
      && c'.data == if c.capacity == 0 then c.data
                    else (if k !in c.data && |c.order| >= c.capacity then c.data - {c.order[0]} else c.data)[k := Entry(v, 1)]
  {
    if c.capacity > 0 {
      UnitMakesRoom(c);
      if k !in c.data && |c.order| >= c.capacity {
        assert c.order[0] in c.order;
        assert Insert(c, k, v, 1).0 == Store(Remove(c, c.order[0]), k, v, 1);
      }
    }
  }

  lemma UnitInsertData<K(!new), V(!new)>(c: Cache<K, V>, k: K, v: V)
    requires Unit(c)
    ensures var c' := Insert(c, k, v, 1).0;
      && Unit(c') && c'.capacity == c.capacity
      && forall x | x in c'.data :: if x == k && c.capacity > 0 then c'.data[x] == Entry(v, 1)
                                    else x in c.data && c'.data[x] == c.data[x]
  {
    InsertKeepsValid(c, k, v, 1);
    UnitInsertEntries(c, k, v);
  }

  lemma UnitStep<K(!new), V(!new)>(c: Cache<K, V>, op: Op<K, V>)
    requires Unit(c) && Plain(op) && (op.TouchOp? ==> op.key in c.data)
    ensures Unit(Step(c, op)) && Step(c, op).capacity == c.capacity
    ensures Step(c, op).order == OrderAfter(c.order, c.capacity, op)
    ensures forall x | x in Step(c, op).data ::
      if op.PutOp? && x == op.key && c.capacity > 0 then Step(c, op).data[x] == Entry(op.value, 1)
      else x in c.data && Step(c, op).data[x] == c.data[x]
  {
    StepKeepsValid(c, op);
    match op
    case PutOp(k, v, size) =>
      UnitInsertOrder(c, k, v);
      UnitInsertData(c, k, v);
    case PopOp(k) =>
      if k !in c.data {
        WithoutAbsent(c.order, k);
      }
    case _ =>
  }

  // --------------------------------------------------------- the orders stay included

  lemma OrderedSubset<K(!new)>(small: seq<K>, large: seq<K>)
    requires Restrict(large, Elements(small)) == small
    ensures forall x | x in small :: x in large
  {
    RestrictMeaning(large, Elements(small));
  }

  /** Removing a key from both orders, or from the larger where the smaller lacks it. */
  lemma OrderedWithout<K(!new)>(small: seq<K>, large: seq<K>, n: nat, m: nat, k: K)
    requires Ordered(small, large, n, m)
    ensures Ordered(Without(small, k), Without(large, k), n, m)
    ensures Restrict(Without(large, k), Elements(Without(small, k))) == Without(small, k)
  {
    OrderedSubset(small, large);
    WithoutMeaning(small, k);
    WithoutMeaning(large, k);
    assert Elements(Without(small, k)) == Elements(small) - {k};
    WithoutRestricts(large, k, Elements(small) - {k});
    WithoutOfRestriction(large, k, Elements(small));
    assert Elements(small) - {k} - {k} == Elements(small) - {k};
  }

  /** Adding a new key at the recent end of both. */
  lemma RestrictBothSnoc<K(!new)>(small: seq<K>, large: seq<K>, k: K)
    requires Restrict(large, Elements(small)) == small && k !in large
    requires Distinct(small) && Distinct(large)
    ensures Restrict(large + [k], Elements(small + [k])) == small + [k]
    ensures Distinct(small + [k]) && Distinct(large + [k])
  {
    OrderedSubset(small, large);
    assert Elements(small + [k]) == Elements(small) + {k};
    RestrictSnoc(large, k, Elements(small) + {k});
    SameRestriction(large, Elements(small) + {k}, Elements(small));
  }

  /** Adding it at the recent end of the larger only. */
  lemma RestrictLargeSnoc<K(!new)>(small: seq<K>, large: seq<K>, k: K)
    requires Restrict(large, Elements(small)) == small && k !in large
    requires Distinct(large)
    ensures Restrict(large + [k], Elements(small)) == small && Distinct(large + [k])
  {
    OrderedSubset(small, large);
    RestrictSnoc(large, k, Elements(small));
  }

  /** The smaller order loses its oldest key: so does the restriction. */
  lemma RestrictSmallTail<K(!new)>(small: seq<K>, large: seq<K>)
    requires Restrict(large, Elements(small)) == small && Distinct(small) && Distinct(large) && small != []
    ensures Restrict(large, Elements(small[1..])) == small[1..]
  {
    assert small[0] !in small[1..];
    assert Elements(small[1..]) == Elements(small) - {small[0]} by {
      ElementsSplit(small);
    }
    WithoutOfRestriction(large, small[0], Elements(small));
  }

  /** The larger order loses its oldest key, which the smaller does not hold. */
  lemma RestrictLargeTail<K(!new)>(small: seq<K>, large: seq<K>)
    requires Restrict(large, Elements(small)) == small && large != [] && large[0] !in small
    ensures Restrict(large[1..], Elements(small)) == small
  {
  }

  /** The larger order's oldest key, if the smaller holds it, is its oldest too. */
  lemma OldestIsOldest<K(!new)>(small: seq<K>, large: seq<K>)
    requires Restrict(large, Elements(small)) == small && large != [] && large[0] in small
    ensures small != [] && small[0] == large[0]
  {
  }

  lemma InsertNewKeepsOrdered<K(!new)>(small: seq<K>, large: seq<K>, n: nat, m: nat, k: K)
    requires Ordered(small, large, n, m) && 0 < n <= m && k !in large
    ensures Ordered(InsertKey(small, n, k), InsertKey(large, m, k), n, m)
  {
    OrderedSubset(small, large);
    var s := if |small| >= n then small[1..] else small;
    var l := if |large| >= m then large[1..] else large;
    if |small| >= n {
      RestrictSmallTail(small, large);
    }
    if |large| >= m {
      if large[0] in small {
        OldestIsOldest(small, large);
        assert large[0] !in s;
      }
      RestrictLargeTail(s, large);
    }
    RestrictBothSnoc(s, l, k);
  }

  lemma UseOldKeepsOrdered<K(!new)>(small: seq<K>, large: seq<K>, n: nat, m: nat, k: K)
    requires Ordered(small, large, n, m) && 0 < n <= m && k in large && k in small
    ensures Ordered(InsertKey(small, n, k), InsertKey(large, m, k), n, m)
  {
    WithoutMeaning(large, k);
    WithoutMeaning(small, k);
    OrderedWithout(small, large, n, m, k);
    RestrictBothSnoc(Without(small, k), Without(large, k), k);
  }

  /** Only the larger order holds the key: there it moves, and the smaller one may
      lose its oldest key for it. */
  lemma RestrictMoved<K(!new)>(small: seq<K>, large: seq<K>, k: K)
    requires Distinct(small) && Distinct(large) && Restrict(large, Elements(small)) == small && k in large && k !in small
    ensures var l := Without(large, k);
      && Distinct(l) && k !in l && |l| == |large| - 1
      && Restrict(l, Elements(small)) == small
  {
    WithoutMeaning(large, k);
    WithoutRestricts(large, k, Elements(small));
    assert Elements(small) - {k} == Elements(small);
  }

  lemma SmallLosesOldest<K(!new)>(small: seq<K>, large: seq<K>, n: nat, k: K)
    requires Distinct(small) && Distinct(large) && Restrict(large, Elements(small)) == small && k !in large && 0 < n
    ensures var s := if |small| >= n then small[1..] else small;
      && Restrict(large + [k], Elements(s + [k])) == s + [k] && Distinct(s + [k]) && Distinct(large + [k])
  {
    if |small| >= n {
      RestrictSmallTail(small, large);
      RestrictBothSnoc(small[1..], large, k);
    } else {
      RestrictBothSnoc(small, large, k);
    }
  }

  lemma InsertOldInSmall<K(!new)>(small: seq<K>, large: seq<K>, n: nat, m: nat, k: K)
    requires Ordered(small, large, n, m) && 0 < n <= m && k in large && k !in small
    ensures Ordered(InsertKey(small, n, k), InsertKey(large, m, k), n, m)
  {
    RestrictMoved(small, large, k);
    SmallLosesOldest(small, Without(large, k), n, k);
  }

  lemma InsertOldKeepsOrdered<K(!new)>(small: seq<K>, large: seq<K>, n: nat, m: nat, k: K)
    requires Ordered(small, large, n, m) && 0 < n <= m && k in large
    ensures Ordered(InsertKey(small, n, k), InsertKey(large, m, k), n, m)
  {
    if k in small {
      UseOldKeepsOrdered(small, large, n, m, k);
    } else {
      InsertOldInSmall(small, large, n, m, k);
    }
  }

  lemma InsertOnlyLargeKeepsOrdered<K(!new)>(large: seq<K>, m: nat, k: K)
    requires Ordered([], large, 0, m)
    ensures Ordered([], InsertKey(large, m, k), 0, m)
  {
    assert Elements<K>([]) == {};
    RestrictToNothing(InsertKey(large, m, k));
    WithoutMeaning(large, k);
  }

  lemma UseKeepsOrdered<K(!new)>(small: seq<K>, large: seq<K>, n: nat, m: nat, k: K)
    requires Ordered(small, large, n, m) && k in large
    ensures Ordered(if k in small then Without(small, k) + [k] else small, Without(large, k) + [k], n, m)
  {
    WithoutMeaning(large, k);
    WithoutMeaning(small, k);
    OrderedWithout(small, large, n, m, k);
    if k in small {
      RestrictBothSnoc(Without(small, k), Without(large, k), k);
    } else {
      RestrictLargeSnoc(small, Without(large, k), k);
    }
  }

  lemma OrderAfterKeepsOrdered<K(!new), V(!new)>(small: seq<K>, large: seq<K>, n: nat, m: nat, op: Op<K, V>)
    requires Ordered(small, large, n, m) && n <= m && Plain(op) && (op.TouchOp? ==> op.key in small)
    ensures Ordered(OrderAfter(small, n, op), OrderAfter(large, m, op), n, m)
  {
    OrderedSubset(small, large);
    match op
    case PutOp(k, v, size) =>
      if n == 0 {
        assert small == [];
        InsertOnlyLargeKeepsOrdered(large, m, k);
      } else if k in large {
        InsertOldKeepsOrdered(small, large, n, m, k);
      } else {
        InsertNewKeepsOrdered(small, large, n, m, k);
      }
    case GetOp(k) =>
      if k in large {
        UseKeepsOrdered(small, large, n, m, k);
      }
    case TouchOp(k) =>
      UseKeepsOrdered(small, large, n, m, k);
    case PopOp(k) =>
      OrderedWithout(small, large, n, m, k);
  }

  // -------------------------------------------------------------------- the theorem

  lemma StepKeepsIncluded<K(!new), V(!new)>(small: Cache<K, V>, large: Cache<K, V>, op: Op<K, V>)
    requires Included(small, large) && small.capacity <= large.capacity
    requires Plain(op) && (op.TouchOp? ==> op.key in small.data)
    ensures Included(Step(small, op), Step(large, op))
  {
    UnitStep(small, op);
    UnitStep(large, op);
    OrderAfterKeepsOrdered(small.order, large.order, small.capacity, large.capacity, op);
    var s, l := Step(small, op), Step(large, op);
    OrderedSubset(s.order, l.order);
    forall k | k in s.data ensures k in l.data && l.data[k] == s.data[k] {
      assert k in s.order && k in l.order;
    }
  }

  /** On any trace of puts, gets, pops and touches of keys the smaller cache holds,
      the smaller cache holds a subset of the larger, with the same values and in
      the same relative order: every hit of the smaller is a hit of the larger. */
  lemma {:induction false} SmallerCacheIsIncluded<K(!new), V(!new)>(n: nat, m: nat, ops: seq<Op<K, V>>)
    requires n <= m && (forall i | 0 <= i < |ops| :: Plain(ops[i]))
    requires TouchesResident(Empty<K, V>(n), ops)
    ensures Included(Run(Empty<K, V>(n), ops), Run(Empty<K, V>(m), ops))
    ensures Run(Empty<K, V>(n), ops).capacity == n && Run(Empty<K, V>(m), ops).capacity == m
  {
    if ops != [] {
      var prefix, last := ops[..|ops| - 1], ops[|ops| - 1];
      forall i | 0 <= i < |prefix|
        ensures Plain(prefix[i])
        ensures prefix[i].TouchOp? ==> prefix[i].key in Run(Empty<K, V>(n), prefix[..i]).data
      {
        assert prefix[i] == ops[i] && prefix[..i] == ops[..i];
      }
      SmallerCacheIsIncluded<K, V>(n, m, prefix);
      var small, large := Run(Empty<K, V>(n), prefix), Run(Empty<K, V>(m), prefix);
      StepKeepsIncluded(small, large, last);
      UnitStep(small, last);
      OrderedSubset(small.order, large.order);
      UnitStep(large, last);
    }
  }
}
