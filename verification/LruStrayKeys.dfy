/**
 Keys that are in the recency order of LRUCache without an entry in the cache
 (spexis/utils.py). LRUCache.touch puts them there, popitem finds them, and the
 loops that wait for popitem to make room or to empty the cache may never end.
 */
module LruStrayKeys {
  import opened Options
  import opened LruCache

  // ---------------------------------------------------------------- making room

  /** The sizes of the unpinned keys older than the first unpinned key without an
      entry, and whether there is such a key. */
  function OlderThanStray<K(==, !new), V(!new)>(order: seq<K>, pins: set<K>, data: map<K, Entry<V>>): (nat, bool) {
    if order == [] then (0, false)
    else if order[0] in pins then OlderThanStray(order[1..], pins, data)
    else if order[0] !in data then (0, true)
    else
      var (size, stray) := OlderThanStray(order[1..], pins, data);
      (data[order[0]].size + size, stray)
  }

  /** How making room ends, for any cache: evicting the keys older than the first
      stray one must leave enough. */
  lemma {:induction false} MakeRoomEndsExactly<K(!new), V(!new)>(c: Cache<K, V>, size: nat)
    requires Distinct(c.order)
    ensures var (older, stray) := OlderThanStray(c.order, c.pins, c.data);
      MakeRoom(c, size).1 == if c.currsize - older + size <= c.capacity then Room else if stray then Endless else AllPinned
    decreases |c.order|
  {
    OlderThanVictim(c.order, c.pins, c.data);
    var older: nat := OlderThanStray(c.order, c.pins, c.data).0;
    if c.currsize + size > c.capacity && Victim(c, false).Some? && Victim(c, false).value in c.data {
      var k := Victim(c, false).value;
      OldestUnpinnedShortens(c.order, c.pins);
      WithoutMeaning(c.order, k);
      OlderAfterEviction(c.order, c.pins, c.data, k);
      OldestUnpinnedMeaning(c.order, c.pins);
      assert c.pins - {k} == c.pins;
      MakeRoomEndsExactly(Remove(c, k), size);
    }
  }

  lemma {:induction false} OlderThanVictim<K(!new), V(!new)>(order: seq<K>, pins: set<K>, data: map<K, Entry<V>>)
    ensures var v := OldestUnpinned(order, pins);
      && (v.None? ==> OlderThanStray(order, pins, data) == (0, false))
      && (v.Some? && v.value !in data ==> OlderThanStray(order, pins, data) == (0, true))
  {
    if order != [] && order[0] in pins {
      OlderThanVictim(order[1..], pins, data);
    }
  }

  lemma {:induction false} OlderAfterEviction<K(!new), V(!new)>(order: seq<K>, pins: set<K>, data: map<K, Entry<V>>, k: K)
    requires Distinct(order) && OldestUnpinned(order, pins) == Some(k) && k in data
    ensures OlderThanStray(order, pins, data).0 == data[k].size + OlderThanStray(Without(order, k), pins, data - {k}).0
    ensures OlderThanStray(order, pins, data).1 == OlderThanStray(Without(order, k), pins, data - {k}).1
  {
    var rest := Without(order[1..], k);
    if order[0] in pins {
      OldestUnpinnedMeaning(order[1..], pins);
      OlderAfterEviction(order[1..], pins, data, k);
      assert ([order[0]] + rest)[1..] == rest;
    } else {
      assert k !in order[1..];
      SameOlder(order[1..], pins, data, data - {k});
    }
  }

  lemma {:induction false} SameOlder<K(!new), V(!new)>(
      order: seq<K>, pins: set<K>, data: map<K, Entry<V>>, data': map<K, Entry<V>>)
    requires forall x | x in order :: (x in data <==> x in data') && (x in data ==> data[x] == data'[x])
    ensures OlderThanStray(order, pins, data) == OlderThanStray(order, pins, data')
  {
    if order != [] {
      assert order[0] in order;
      SameOlder(order[1..], pins, data, data');
    }
  }

  /** put never ends exactly when it needs room, a key without an entry is
      unpinned, and evicting the unpinned keys older than it leaves too little:
      whether or not the keys behind it would make room. */
  lemma PutHangsExactlyWhen<K(!new), V(!new)>(c: Cache<K, V>, k: K, v: V, size: nat)
    requires Distinct(c.order)
    ensures var (older, stray) := OlderThanStray(c.order, c.pins, c.data);
      Insert(c, k, v, size).1.Hangs? <==>
        size <= c.capacity && NeedsRoom(c, k, size) && stray && c.currsize - older + size > c.capacity
  {
    MakeRoomEndsExactly(c, size);
  }

  // ---------------------------------------------------------------------- clear

  /** No key without an entry is older than one with an entry. */
  ghost predicate StraysAreRecent<K(!new), V(!new)>(order: seq<K>, data: map<K, Entry<V>>) {
    forall i, j | 0 <= i < j < |order| :: order[j] in data ==> order[i] in data
  }

  /** Every entry is in the order, once; pinned keys have an entry. The order may
      hold more keys. */
  ghost predicate Loose<K(!new), V(!new)>(c: Cache<K, V>) {
    Distinct(c.order) && (forall k | k in c.data :: k in c.order) && c.pins <= c.data.Keys
  }

  lemma RemoveKeepsLoose<K(!new), V(!new)>(c: Cache<K, V>, k: K)
    requires Loose(c)
    ensures Loose(Remove(c, k))
  {
    WithoutMeaning(c.order, k);
  }

  /** clear ends exactly when no key without an entry is older than an entry; then
      only keys without an entry are left. */
  lemma {:induction false} ClearEndsExactlyWhen<K(!new), V(!new)>(c: Cache<K, V>)
    requires Loose(c)
    ensures ClearLoop(c).1 <==> StraysAreRecent(c.order, c.data)
    ensures ClearLoop(c).1 ==> ClearLoop(c).0.data == map[] && ClearLoop(c).0.pins == {}
    decreases |c.order|
  {
    if |c.data| == 0 {
      assert c.data.Keys == {};
    } else {
      var e :| e in c.data.Keys;
      assert e in c.order;
      var k := c.order[0];
      if k in c.data {
        RemoveKeepsLoose(c, k);
        ClearEndsExactlyWhen(Remove(c, k));
        RecentWithoutOldest(c.order, c.data);
      } else {
        StrayBefore(c.order, c.data, e);
      }
    }
  }

  lemma RecentWithoutOldest<K(!new), V(!new)>(order: seq<K>, data: map<K, Entry<V>>)
    requires Distinct(order) && order != [] && order[0] in data
    ensures StraysAreRecent(order, data) <==> StraysAreRecent(order[1..], data - {order[0]})
  {
    var d := data - {order[0]};
    assert forall i | 0 < i < |order| :: order[i] == order[1..][i - 1] && order[i] != order[0];
    if StraysAreRecent(order[1..], d) {
      forall i, j | 0 <= i < j < |order| && order[j] in data ensures order[i] in data {
        assert i > 0 ==> order[1..][i - 1] in d;
      }
    }
  }

  lemma StrayBefore<K(!new), V(!new)>(order: seq<K>, data: map<K, Entry<V>>, e: K)
    requires order != [] && order[0] !in data && e in data && e in order
    ensures !StraysAreRecent(order, data)
  {
    var j :| 0 <= j < |order| && order[j] == e;
  }

  // ----------------------------------------------------------------- ... in any run

  lemma {:induction false} MakeRoomKeepsLoose<K(!new), V(!new)>(c: Cache<K, V>, size: nat)
    requires Loose(c)
    ensures Loose(MakeRoom(c, size).0)
    decreases |c.order|
  {
    if c.currsize + size > c.capacity && Victim(c, false).Some? && Victim(c, false).value in c.data {
      OldestUnpinnedShortens(c.order, c.pins);
      RemoveKeepsLoose(c, Victim(c, false).value);
      MakeRoomKeepsLoose(Remove(c, Victim(c, false).value), size);
    }
  }

  lemma {:induction false} ClearKeepsLoose<K(!new), V(!new)>(c: Cache<K, V>)
    requires Loose(c)
    ensures Loose(ClearLoop(c).0)
    decreases |c.order|
  {
    if |c.data| > 0 && Victim(c, true).Some? && Victim(c, true).value in c.data {
      RemoveKeepsLoose(c, c.order[0]);
      ClearKeepsLoose(Remove(c, c.order[0]));
    }
  }

  lemma MoveKeepsLoose<K(!new)>(order: seq<K>, k: K)
    requires Distinct(order)
    ensures Distinct(Without(order, k) + [k])
    ensures forall x :: x in Without(order, k) + [k] <==> x in order || x == k
  {
    WithoutMeaning(order, k);
  }

  lemma StepKeepsLoose<K(!new), V(!new)>(c: Cache<K, V>, op: Op<K, V>)
    requires Loose(c)
    ensures Loose(Step(c, op))
  {
    match op
    case PutOp(k, v, size) =>
      MakeRoomKeepsLoose(c, size);
      MoveKeepsLoose(c.order, k);
      MoveKeepsLoose(MakeRoom(c, size).0.order, k);
    case GetOp(k) => MoveKeepsLoose(c.order, k);
    case PopOp(k) => RemoveKeepsLoose(c, k);
    case TouchOp(k) => MoveKeepsLoose(c.order, k);
    case PinOp(k) =>
    case DeleteOp(k) => RemoveKeepsLoose(c, k);
    case PopItemOp(removePinned) =>
      if Victim(c, removePinned).Some? { RemoveKeepsLoose(c, Victim(c, removePinned).value); }
    case ClearOp => ClearKeepsLoose(c);
  }

  /** After any run, whatever it touched: when the next put, and a clear, hang. */
  lemma {:induction false} HangsInAnyRun<K(!new), V(!new)>(capacity: nat, ops: seq<Op<K, V>>, k: K, v: V, size: nat)
    ensures var c := Run(Empty<K, V>(capacity), ops);
      var (older, stray) := OlderThanStray(c.order, c.pins, c.data);
      && Loose(c)
      && (Insert(c, k, v, size).1.Hangs? <==>
            size <= c.capacity && NeedsRoom(c, k, size) && stray && c.currsize - older + size > c.capacity)
      && (ClearLoop(c).1 <==> StraysAreRecent(c.order, c.data))
  {
    RunKeepsLoose(capacity, ops);
    PutHangsExactlyWhen(Run(Empty<K, V>(capacity), ops), k, v, size);
    ClearEndsExactlyWhen(Run(Empty<K, V>(capacity), ops));
  }

  lemma {:induction false} RunKeepsLoose<K(!new), V(!new)>(capacity: nat, ops: seq<Op<K, V>>)
    ensures Loose(Run(Empty<K, V>(capacity), ops))
  {
    if ops != [] {
      RunKeepsLoose(capacity, ops[..|ops| - 1]);
      StepKeepsLoose(Run(Empty<K, V>(capacity), ops[..|ops| - 1]), ops[|ops| - 1]);
    }
  }

  // ---------------------------------------------------------- ordinary puts that hang

  /** Entries of size one for `keys`, nothing pinned. */
  ghost predicate Units<K(!new), V(!new)>(c: Cache<K, V>, capacity: nat, order: seq<K>, keys: set<K>, used: nat) {
    && c.capacity == capacity && c.order == order && c.data.Keys == keys && c.currsize == used && c.pins == {}
    && forall k | k in c.data :: c.data[k].size == 1
  }

  lemma PutFits<K(!new), V(!new)>(c: Cache<K, V>, k: K, v: V, order: seq<K>, keys: set<K>, used: nat)
    requires Units(c, c.capacity, order, keys, used) && used + 1 <= c.capacity && k !in order && k !in keys
    ensures Units(Step(c, PutOp(k, v, 1)), c.capacity, order + [k], keys + {k}, used + 1)
  {
    WithoutAbsent(order, k);
  }

  lemma PutEvicts<K(!new), V(!new)>(c: Cache<K, V>, k: K, v: V, order: seq<K>, keys: set<K>, used: nat)
    requires Units(c, c.capacity, order, keys, used) && 0 < used == c.capacity && k !in order && k !in keys
    requires order != [] && order[0] in keys
    ensures Insert(c, k, v, 1).1.Stored?
    ensures Units(Step(c, PutOp(k, v, 1)), c.capacity, order[1..] + [k], keys - {order[0]} + {k}, used)
  {
    var d := Remove(c, order[0]);
    assert d.order == order[1..] && MakeRoom(c, 1) == MakeRoom(d, 1) == (d, Room);
    assert forall x | x in order[1..] :: x in order;
    WithoutAbsent(order[1..], k);
  }

  lemma RunSnoc<K(!new), V(!new)>(c: Cache<K, V>, ops: seq<Op<K, V>>, op: Op<K, V>)
    ensures Run(c, ops + [op]) == Step(Run(c, ops), op)
  {
    assert (ops + [op])[..|ops|] == ops;
  }

  lemma RunOfTwo<K(!new), V(!new)>(c: Cache<K, V>, o1: Op<K, V>, o2: Op<K, V>)
    ensures Run(c, [o1, o2]) == Step(Step(c, o1), o2)
  {
    RunSnoc(c, [], o1);
    RunSnoc(c, [o1], o2);
    assert [] + [o1] == [o1] && [o1] + [o2] == [o1, o2];
  }

  lemma RunAppendTwo<K(!new), V(!new)>(c: Cache<K, V>, ops: seq<Op<K, V>>, o1: Op<K, V>, o2: Op<K, V>)
    ensures Run(c, ops + [o1, o2]) == Step(Step(Run(c, ops), o1), o2)
  {
    var ops1, ops2 := ops + [o1], ops + [o1, o2];
    RunSnoc(c, ops, o1);
    assert ops2 == ops1 + [o2];
    RunSnoc(c, ops1, o2);
  }

  lemma TwoPuts<K(!new), V(!new)>(c: Cache<K, V>, a: K, b: K, v: V)
    requires a != b && c == Empty(2)
    ensures Units(Step(Step(c, PutOp(a, v, 1)), PutOp(b, v, 1)), 2, [a, b], {a, b}, 2)
  {
    assert c.data.Keys == {};
    PutFits(c, a, v, [], {}, 0);
    assert [] + [a] == [a] && {} + {a} == {a};
    PutFits(Step(c, PutOp(a, v, 1)), b, v, [a], {a}, 1);
    assert [a] + [b] == [a, b] && {a} + {b} == {a, b};
  }

  lemma TouchAddsStray<K(!new), V(!new)>(c: Cache<K, V>, a: K, b: K, missing: K)
    requires Units(c, 2, [a, b], {a, b}, 2) && missing !in {a, b}
    ensures Units(Step(c, TouchOp(missing)), 2, [a, b, missing], {a, b}, 2)
  {
    WithoutAbsent([a, b], missing);
  }

  lemma StrayBlocks<K(!new), V(!new)>(c: Cache<K, V>, missing: K, x: K, y: K, z: K, v: V)
    requires Units(c, 2, [missing, x, y], {x, y}, 2) && missing !in {x, y} && x != y && z !in {x, y}
    ensures Insert(c, z, v, 1).1.Hangs? && !ClearLoop(c).1
  {
    assert c.order[1] in c.data && c.order[0] !in c.data;
    ClearEndsExactlyWhen(c);
    PutHangsExactlyWhen(c, z, v, 1);
  }

  /** Two entries fit. Two puts, a touch of a key that is not there, and two more
      puts, which evict as they should: now the next put never ends, nor does
      clear. Without the touch the put stores its value and clear ends. */
  lemma OrdinaryPutHangs<K(!new), V(!new)>(a: K, b: K, missing: K, x: K, y: K, z: K, v: V)
    requires a != b && missing !in {a, b} && x !in {a, b, missing} && y !in {a, b, missing, x} && z !in {x, y}
    ensures var ops := [PutOp(a, v, 1), PutOp(b, v, 1), TouchOp(missing), PutOp(x, v, 1), PutOp(y, v, 1)];
            var c := Run(Empty<K, V>(2), ops);
      && c.order == [missing, x, y] && c.data.Keys == {x, y}
      && Insert(c, z, v, 1).1.Hangs? && !ClearLoop(c).1
    ensures var c := Run(Empty<K, V>(2), [PutOp(a, v, 1), PutOp(b, v, 1), PutOp(x, v, 1), PutOp(y, v, 1)]);
      && c.order == [x, y] && c.data.Keys == {x, y}
      && Insert(c, z, v, 1).1.Stored? && ClearLoop(c).1
  {
    var c := Empty<K, V>(2);
    var pa, pb, t, px, py := PutOp(a, v, 1), PutOp(b, v, 1), TouchOp(missing), PutOp(x, v, 1), PutOp(y, v, 1);
    TwoPuts(c, a, b, v);
    var c2 := Run(c, [pa, pb]);
    RunOfTwo(c, pa, pb);
    TouchAddsStray(c2, a, b, missing);
    RunSnoc(c, [pa, pb], t);
    assert [pa, pb] + [t] == [pa, pb, t] && [pa, pb, t] + [px, py] == [pa, pb, t, px, py];
    RunAppendTwo(c, [pa, pb, t], px, py);
    TwoEvictions(Step(c2, t), a, b, [missing], x, y, v);
    StrayBlocks(Run(c, [pa, pb, t, px, py]), missing, x, y, z, v);
    assert [pa, pb] + [px, py] == [pa, pb, px, py];
    RunAppendTwo(c, [pa, pb], px, py);
    TwoEvictions(c2, a, b, [], x, y, v);
    NothingBlocks(Run(c, [pa, pb, px, py]), x, y, z, v);
  }

  lemma TwoEvictions<K(!new), V(!new)>(c: Cache<K, V>, a: K, b: K, strays: seq<K>, x: K, y: K, v: V)
    requires a != b && x !in {a, b} && y !in {a, b, x} && x !in strays && y !in strays
    requires Units(c, 2, [a, b] + strays, {a, b}, 2)
    ensures Units(Step(Step(c, PutOp(x, v, 1)), PutOp(y, v, 1)), 2, strays + [x, y], {x, y}, 2)
  {
    PutEvicts(c, x, v, [a, b] + strays, {a, b}, 2);
    assert ([a, b] + strays)[1..] + [x] == [b] + strays + [x] && {a, b} - {a} + {x} == {b, x};
    PutEvicts(Step(c, PutOp(x, v, 1)), y, v, [b] + strays + [x], {b, x}, 2);
    assert ([b] + strays + [x])[1..] + [y] == strays + [x, y] && {b, x} - {b} + {y} == {x, y};
  }

  lemma NothingBlocks<K(!new), V(!new)>(c: Cache<K, V>, x: K, y: K, z: K, v: V)
    requires Units(c, 2, [x, y], {x, y}, 2) && x != y && z !in {x, y}
    ensures Insert(c, z, v, 1).1.Stored? && ClearLoop(c).1
  {
    assert c.order[0] in c.data && c.order[1] in c.data;
    ClearEndsExactlyWhen(c);
    PutEvicts(c, z, v, [x, y], {x, y}, 2);
  }

  /** touch of a key that is not resident breaks the cache: it enters the order
      without an entry, and a later put that would have failed for want of
      unpinned keys now never ends. */
  lemma {:induction false} TouchOfMissingKeyHangs<K(!new), V(!new)>(c: Cache<K, V>, missing: K, size: nat)
    requires Valid(c) && missing !in c.data
    ensures !Valid(Refresh(c, missing))
    ensures MakeRoom(Refresh(c, missing), size).1 == (if MakeRoom(c, size).1.AllPinned? then Endless else Room)
    decreases |c.order|
  {
    TouchOfMissingKey(c, missing);
    if c.currsize + size > c.capacity {
      MakeRoomUnfolds(c, size);
      if Victim(c, false).Some? {
        var k := Victim(c, false).value;
        TouchThenEvict(c, missing, k);
        TouchOfMissingKeyHangs(Remove(c, k), missing, size);
      }
    }
  }

  lemma TouchOfMissingKey<K(!new), V(!new)>(c: Cache<K, V>, missing: K)
    requires Valid(c) && missing !in c.data
    ensures !Valid(Refresh(c, missing))
    ensures Victim(Refresh(c, missing), false)
         == if Victim(c, false).None? then Some(missing) else Victim(c, false)
  {
    WithoutAbsent(c.order, missing);
    assert Refresh(c, missing).order[|c.order|] == missing;
    OldestUnpinnedSnoc(c.order, missing, c.pins);
  }

  lemma TouchThenEvict<K(!new), V(!new)>(c: Cache<K, V>, missing: K, k: K)
    requires Valid(c) && missing !in c.data && k in c.data && Victim(c, false) == Some(k)
    ensures Refresh(Remove(c, k), missing) == Remove(Refresh(c, missing), k)
    ensures missing !in Remove(c, k).data
  {
    WithoutAbsent(c.order, missing);
    WithoutMeaning(c.order, k);
    WithoutAbsent(Without(c.order, k), missing);
    WithoutSnoc(c.order, k, missing);
  }

  lemma {:induction false} OldestUnpinnedSnoc<K(!new)>(order: seq<K>, k: K, pins: set<K>)
    requires k !in pins
    ensures OldestUnpinned(order + [k], pins)
         == if OldestUnpinned(order, pins).None? then Some(k) else OldestUnpinned(order, pins)
  {
    if order == [] {
      assert [] + [k] == [k];
    } else {
      assert (order + [k])[1..] == order[1..] + [k];
      OldestUnpinnedSnoc(order[1..], k, pins);
    }
  }

  lemma {:induction false} WithoutSnoc<K(!new)>(s: seq<K>, k: K, last: K)
    requires k in s
    ensures Without(s + [last], k) == Without(s, k) + [last]
  {
    assert (s + [last])[1..] == s[1..] + [last];
    if s[0] != k {
      WithoutSnoc(s[1..], k, last);
    }
  }
}
