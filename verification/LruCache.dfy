/**
 The least-recently-used cache with pinned keys (LRUCache in spexis/utils.py).
 The base class, cachetools.LRUCache, is not part of this model's source: it is
 taken to keep one recency order over its keys, to move a key to the recent end
 when it is read or written, and to make room in __setitem__ by calling popitem.
 */
module LruCache {
  import opened Options

  datatype Entry<V> = Entry(value: V, size: nat)

  /** `order` lists the keys, least recently used first; `removed` is the history
      of the calls of the remove hook, `inserted` that of the insertions. */
  datatype Cache<!K, V> = Cache(
    capacity: nat,
    order: seq<K>,
    data: map<K, Entry<V>>,
    currsize: int,
    pins: set<K>,
    removed: seq<(K, V)>,
    inserted: multiset<K>
  )

  function Without<K(==, !new)>(s: seq<K>, k: K): seq<K> {
    if s == [] then [] else if s[0] == k then s[1..] else [s[0]] + Without(s[1..], k)
  }

  function TotalSize<K(==, !new), V(!new)>(s: seq<K>, data: map<K, Entry<V>>): nat
    requires forall k | k in s :: k in data
  {
    if s == [] then 0 else
      assert s[0] in s;
      data[s[0]].size + TotalSize(s[1..], data)
  }

  function RemovedKeys<K(==, !new), V(!new)>(removed: seq<(K, V)>): multiset<K> {
    if removed == [] then multiset{}
    else RemovedKeys(removed[..|removed| - 1]) + multiset{removed[|removed| - 1].0}
  }

  ghost predicate Distinct<K(!new)>(s: seq<K>) {
    forall i, j | 0 <= i < j < |s| :: s[i] != s[j]
  }

  /** One order over the keys, pins among the keys, the size is the sum of the
      sizes and within capacity, and every key inserted is resident or was
      handed to the remove hook, each time once. */
  ghost predicate Valid<K(!new), V(!new)>(c: Cache<K, V>) {
    && Distinct(c.order)
    && (forall k :: k in c.order <==> k in c.data)
    && c.pins <= c.data.Keys
    && c.currsize == TotalSize(c.order, c.data) <= c.capacity
    && RemovedKeys(c.removed) + multiset(c.order) == c.inserted
  }

  function Empty<K(==, !new), V(!new)>(capacity: nat): Cache<K, V> {
    Cache(capacity, [], map[], 0, {}, [], multiset{})
  }

  // ------------------------------------------------------------------- operations

  function Refresh<K(==, !new), V(!new)>(c: Cache<K, V>, k: K): Cache<K, V> {
    c.(order := Without(c.order, k) + [k])
  }

  /** __delitem__; deleting a key that is not there raises and changes nothing. */
  function Remove<K(==, !new), V(!new)>(c: Cache<K, V>, k: K): Cache<K, V> {
    if k !in c.data then c else
      c.(order := Without(c.order, k), data := c.data - {k}, currsize := c.currsize - c.data[k].size,
         pins := c.pins - {k}, removed := c.removed + [(k, c.data[k].value)])
  }

  function OldestUnpinned<K(==, !new)>(order: seq<K>, pins: set<K>): Option<K> {
    if order == [] then None
    else if order[0] !in pins then Some(order[0])
    else OldestUnpinned(order[1..], pins)
  }

  /** Which key popitem removes; None for its RuntimeError or StopIteration. */
  function Victim<K(==, !new), V(!new)>(c: Cache<K, V>, removePinned: bool): Option<K> {
    if removePinned then if c.order == [] then None else Some(c.order[0])
    else OldestUnpinned(c.order, c.pins)
  }

  /** How the loop that makes room ends: with room, with the RuntimeError that
      all keys are pinned, or not at all (popitem finds a key without entry). */
  datatype Outcome = Room | AllPinned | Endless

  /** The loop of cachetools' __setitem__: popitem until `size` more fits. */
  function MakeRoom<K(==, !new), V(!new)>(c: Cache<K, V>, size: nat): (Cache<K, V>, Outcome)
    decreases |c.order|
  {
    if c.currsize + size <= c.capacity then (c, Room)
    else match Victim(c, false)
         case None => (c, AllPinned)
         case Some(k) =>
           if k !in c.data then (c, Endless) else
             OldestUnpinnedShortens(c.order, c.pins);
             MakeRoom(Remove(c, k), size)
  }

  lemma {:induction false} OldestUnpinnedShortens<K(!new)>(order: seq<K>, pins: set<K>)
    ensures var v := OldestUnpinned(order, pins); v.Some? ==> |Without(order, v.value)| == |order| - 1
  {
    if order != [] && order[0] in pins {
      OldestUnpinnedShortens(order[1..], pins);
    }
  }

  datatype InsertResult = Stored | TooLarge | NoRoom | Hangs

  /** put: cachetools' __setitem__ with the overridden popitem. The keys evicted
      before it fails stay evicted. */
  function Insert<K(==, !new), V(!new)>(c: Cache<K, V>, k: K, v: V, size: nat): (Cache<K, V>, InsertResult) {
    if size > c.capacity then (c, TooLarge) else
      var (room, outcome) := if k !in c.data || c.data[k].size < size then MakeRoom(c, size) else (c, Room);
      match outcome
      case Room => (Store(room, k, v, size), Stored)
      case AllPinned => (room, NoRoom)
      case Endless => (room, Hangs)
  }

  function Store<K(==, !new), V(!new)>(c: Cache<K, V>, k: K, v: V, size: nat): Cache<K, V> {
    var before := if k in c.data then c.data[k].size else 0;
    c.(order := Without(c.order, k) + [k], data := c.data[k := Entry(v, size)],
       currsize := c.currsize + size - before,
       inserted := if k in c.data then c.inserted else c.inserted + multiset{k})
  }

  function Lookup<K(==, !new), V(!new)>(c: Cache<K, V>, k: K): (Cache<K, V>, Option<V>) {
    if k in c.data then (Refresh(c, k), Some(c.data[k].value)) else (c, None)
  }

  function Take<K(==, !new), V(!new)>(c: Cache<K, V>, k: K): (Cache<K, V>, Option<V>) {
    if k in c.data then (Remove(c, k), Some(c.data[k].value)) else (c, None)
  }

  function PinKey<K(==, !new), V(!new)>(c: Cache<K, V>, k: K): (Cache<K, V>, bool) {
    if k in c.data then (c.(pins := c.pins + {k}), true) else (c, false)
  }

  // -------------------------------------------------------------------- their lemmas

  lemma {:induction false} WithoutMeaning<K(!new)>(s: seq<K>, k: K)
    requires Distinct(s)
    ensures forall x :: x in Without(s, k) <==> x in s && x != k
    ensures Distinct(Without(s, k))
    ensures k in s ==> |Without(s, k)| == |s| - 1
    ensures k !in s ==> Without(s, k) == s
  {
    if s != [] {
      WithoutMeaning(s[1..], k);
      assert forall x :: x in s <==> x == s[0] || x in s[1..];
      assert s[0] !in s[1..];
      if s[0] != k {
        var r := Without(s[1..], k);
        assert s[0] !in r;
        assert forall x :: x in [s[0]] + r <==> x == s[0] || x in r;
      }
    }
  }

  lemma {:induction false} WithoutMultiset<K(!new)>(s: seq<K>, k: K)
    ensures multiset(s) == multiset(Without(s, k)) + if k in s then multiset{k} else multiset{}
  {
    if s != [] {
      assert s == [s[0]] + s[1..];
      if s[0] != k {
        WithoutMultiset(s[1..], k);
        assert k in s <==> k in s[1..];
      }
    }
  }

  lemma {:induction false} SizeWithout<K(!new), V(!new)>(s: seq<K>, k: K, data: map<K, Entry<V>>, data': map<K, Entry<V>>)
    requires Distinct(s) && (forall x | x in s :: x in data) && k in s
    requires forall x | x in s && x != k :: x in data' && data'[x] == data[x]
    ensures forall x | x in Without(s, k) :: x in data'
    ensures TotalSize(Without(s, k), data') == TotalSize(s, data) - data[k].size
  {
    WithoutMeaning(s, k);
    if s[0] == k {
      assert forall x | x in s[1..] :: x != k;
      SameSizes(s[1..], data, data');
    } else {
      SizeWithout(s[1..], k, data, data');
    }
  }

  lemma {:induction false} SameSizes<K(!new), V(!new)>(s: seq<K>, data: map<K, Entry<V>>, data': map<K, Entry<V>>)
    requires forall x | x in s :: x in data && x in data' && data'[x] == data[x]
    ensures TotalSize(s, data') == TotalSize(s, data)
  {
    if s != [] {
      assert s[0] in s;
      SameSizes(s[1..], data, data');
    }
  }

  lemma {:induction false} SizeSnoc<K(!new), V(!new)>(s: seq<K>, k: K, data: map<K, Entry<V>>)
    requires forall x | x in s + [k] :: x in data
    ensures forall x | x in s :: x in data
    ensures TotalSize(s + [k], data) == TotalSize(s, data) + data[k].size
  {
    forall x | x in s ensures x in data {
      assert x in s + [k];
    }
    if s == [] {
      assert [k][1..] == [];
    } else {
      assert (s + [k])[1..] == s[1..] + [k];
      SizeSnoc(s[1..], k, data);
    }
  }

  lemma {:induction false} SizeOfMember<K(!new), V(!new)>(s: seq<K>, k: K, data: map<K, Entry<V>>)
    requires (forall x | x in s :: x in data) && k in s
    ensures data[k].size <= TotalSize(s, data)
  {
    if s[0] != k {
      SizeOfMember(s[1..], k, data);
    }
  }

  lemma RemovedSnoc<K(!new), V(!new)>(removed: seq<(K, V)>, e: (K, V))
    ensures RemovedKeys(removed + [e]) == RemovedKeys(removed) + multiset{e.0}
  {
    assert (removed + [e])[..|removed|] == removed;
  }

  lemma {:induction false} OldestUnpinnedMeaning<K(!new)>(order: seq<K>, pins: set<K>)
    ensures match OldestUnpinned(order, pins)
            case None => forall k | k in order :: k in pins
            case Some(k) => k !in pins && exists i :: 0 <= i < |order| && order[i] == k && forall j | 0 <= j < i :: order[j] in pins
  {
    if order != [] && order[0] in pins {
      OldestUnpinnedMeaning(order[1..], pins);
      match OldestUnpinned(order[1..], pins)
      case None =>
      case Some(k) =>
        var i :| 0 <= i < |order[1..]| && order[1..][i] == k && forall j | 0 <= j < i :: order[1..][j] in pins;
        assert order[i + 1] == k;
        forall j | 0 <= j < i + 1 ensures order[j] in pins {
          assert j > 0 ==> order[j] == order[1..][j - 1];
        }
    }
  }

  lemma VictimIsResident<K(!new), V(!new)>(c: Cache<K, V>, removePinned: bool)
    requires Valid(c)
    ensures var v := Victim(c, removePinned); v.Some? ==> v.value in c.data && c.data[v.value].size <= c.currsize
    ensures Victim(c, false).Some? ==> Victim(c, false).value !in c.pins
  {
    OldestUnpinnedMeaning(c.order, c.pins);
    var v := Victim(c, removePinned);
    if v.Some? {
      assert v.value in c.order;
      SizeOfMember(c.order, v.value, c.data);
    }
  }

  lemma ResidentSize<K(!new), V(!new)>(c: Cache<K, V>, k: K)
    requires Valid(c) && k in c.data
    ensures c.data[k].size <= c.currsize
  {
    SizeOfMember(c.order, k, c.data);
  }

  lemma RemoveKeepsValid<K(!new), V(!new)>(c: Cache<K, V>, k: K)
    requires Valid(c) && k in c.data
    ensures c.data[k].size <= c.currsize
    ensures Valid(Remove(c, k)) && |Remove(c, k).order| == |c.order| - 1
    ensures k !in Remove(c, k).data && k !in Remove(c, k).pins
  {
    ResidentSize(c, k);
    var c' := Remove(c, k);
    WithoutMeaning(c.order, k);
    WithoutMultiset(c.order, k);
    SizeWithout(c.order, k, c.data, c'.data);
    RemovedSnoc(c.removed, (k, c.data[k].value));
    assert multiset(c.order)[k] > 0;
  }

  lemma RefreshKeepsValid<K(!new), V(!new)>(c: Cache<K, V>, k: K)
    requires Valid(c) && k in c.data
    ensures Valid(Refresh(c, k))
  {
    WithoutMeaning(c.order, k);
    WithoutMultiset(c.order, k);
    SizeWithout(c.order, k, c.data, c.data);
    var rest := Without(c.order, k);
    SizeSnoc(rest, k, c.data);
    assert k in c.order && multiset(c.order)[k] > 0;
    assert multiset(rest + [k]) == multiset(c.order);
  }

  lemma StoreSize<K(!new), V(!new)>(c: Cache<K, V>, k: K, v: V, size: nat)
    requires Valid(c)
    ensures var c' := Store(c, k, v, size);
            && (forall x :: x in c'.order <==> x in c'.data)
            && TotalSize(c'.order, c'.data) == c.currsize + size - (if k in c.data then c.data[k].size else 0)
  {
    var c' := Store(c, k, v, size);
    var rest := Without(c.order, k);
    WithoutMeaning(c.order, k);
    if k in c.data {
      SizeWithout(c.order, k, c.data, c'.data);
    } else {
      SameSizes(c.order, c.data, c'.data);
    }
    assert forall x :: x in rest + [k] <==> x in rest || x == k;
    SizeSnoc(rest, k, c'.data);
  }

  lemma StoreConserves<K(!new), V(!new)>(c: Cache<K, V>, k: K, v: V, size: nat)
    requires Valid(c)
    ensures var c' := Store(c, k, v, size);
            Distinct(c'.order) && RemovedKeys(c'.removed) + multiset(c'.order) == c'.inserted
  {
    var rest := Without(c.order, k);
    WithoutMeaning(c.order, k);
    WithoutMultiset(c.order, k);
    assert multiset(rest + [k]) == multiset(rest) + multiset{k};
  }

  lemma StoreKeepsValid<K(!new), V(!new)>(c: Cache<K, V>, k: K, v: V, size: nat)
    requires Valid(c)
    requires c.currsize + size - (if k in c.data then c.data[k].size else 0) <= c.capacity
    ensures Valid(Store(c, k, v, size))
  {
    StoreSize(c, k, v, size);
    StoreConserves(c, k, v, size);
    if k in c.data {
      ResidentSize(c, k);
    }
  }

  // ------------------------------------------------------------------- eviction

  /** The keys of `s` that are in `keep`, in their order. */
  ghost function Restrict<K(!new)>(s: seq<K>, keep: set<K>): seq<K> {
    if s == [] then [] else (if s[0] in keep then [s[0]] else []) + Restrict(s[1..], keep)
  }

  ghost function Unpinned<K(!new)>(order: seq<K>, pins: set<K>): seq<K> {
    if order == [] then [] else (if order[0] in pins then [] else [order[0]]) + Unpinned(order[1..], pins)
  }

  ghost function PinnedSize<K(!new), V(!new)>(s: seq<K>, pins: set<K>, data: map<K, Entry<V>>): nat
    requires forall k | k in s :: k in data
  {
    if s == [] then 0 else
      assert s[0] in s;
      (if s[0] in pins then data[s[0]].size else 0) + PinnedSize(s[1..], pins, data)
  }

  ghost function Pairs<K(!new), V(!new)>(s: seq<K>, data: map<K, Entry<V>>): seq<(K, V)>
    requires forall k | k in s :: k in data
  {
    if s == [] then [] else assert s[0] in s; [(s[0], data[s[0]].value)] + Pairs(s[1..], data)
  }

  lemma {:induction false} RestrictMeaning<K(!new)>(s: seq<K>, keep: set<K>)
    ensures forall x :: x in Restrict(s, keep) <==> x in s && x in keep
    ensures (forall x | x in s :: x in keep) ==> Restrict(s, keep) == s
  {
    if s != [] {
      RestrictMeaning(s[1..], keep);
    }
  }

  /** Deleting a key restricts the order to the other keys. */
  lemma {:induction false} WithoutRestricts<K(!new)>(s: seq<K>, k: K, keep: set<K>)
    requires Distinct(s)
    ensures Restrict(Without(s, k), keep) == Restrict(s, keep - {k})
  {
    if s != [] {
      if s[0] == k {
        assert k !in s[1..];
        SameRestriction(s[1..], keep, keep - {k});
      } else {
        WithoutRestricts(s[1..], k, keep);
        var t := Without(s[1..], k);
        assert ([s[0]] + t)[1..] == t;
      }
    }
  }

  lemma {:induction false} WithoutOfRestriction<K(!new)>(s: seq<K>, k: K, keep: set<K>)
    requires Distinct(s)
    ensures Without(Restrict(s, keep), k) == Restrict(s, keep - {k})
  {
    if s != [] {
      var t := Restrict(s[1..], keep);
      if s[0] == k {
        assert k !in s[1..];
        SameRestriction(s[1..], keep, keep - {k});
        RestrictMeaning(s[1..], keep);
        WithoutAbsent(t, k);
      } else {
        WithoutOfRestriction(s[1..], k, keep);
      }
      assert ([s[0]] + t)[1..] == t && [] + t == t;
      if s[0] in keep && s[0] != k {
        assert Without([s[0]] + t, k) == [s[0]] + Without(t, k);
      }
    }
  }

  lemma {:induction false} WithoutAbsent<K(!new)>(s: seq<K>, k: K)
    requires k !in s
    ensures Without(s, k) == s
  {
    if s != [] {
      WithoutAbsent(s[1..], k);
    }
  }

  lemma {:induction false} SameRestriction<K(!new)>(s: seq<K>, a: set<K>, b: set<K>)
    requires forall x | x in s :: x in a <==> x in b
    ensures Restrict(s, a) == Restrict(s, b)
  {
    if s != [] {
      assert s[0] in s;
      SameRestriction(s[1..], a, b);
    }
  }

  lemma {:induction false} RestrictSnoc<K(!new)>(s: seq<K>, k: K, keep: set<K>)
    ensures Restrict(s + [k], keep) == Restrict(s, keep) + if k in keep then [k] else []
  {
    var head := if s != [] && s[0] in keep then [s[0]] else [];
    if s == [] {
      assert s + [k] == [k] && [k][1..] == [];
    } else {
      assert (s + [k])[1..] == s[1..] + [k];
      RestrictSnoc(s[1..], k, keep);
      assert head + (Restrict(s[1..], keep) + if k in keep then [k] else [])
          == head + Restrict(s[1..], keep) + if k in keep then [k] else [];
    }
  }

  /** Which keys are unpinned, oldest first; evicting the oldest leaves the rest. */
  lemma {:induction false} UnpinnedMeaning<K(!new)>(order: seq<K>, pins: set<K>)
    requires Distinct(order)
    ensures forall x :: x in Unpinned(order, pins) <==> x in order && x !in pins
    ensures match OldestUnpinned(order, pins)
            case None => Unpinned(order, pins) == []
            case Some(k) => Unpinned(order, pins) == [k] + Unpinned(Without(order, k), pins)
  {
    if order != [] {
      UnpinnedMeaning(order[1..], pins);
      if order[0] in pins {
        OldestUnpinnedMeaning(order[1..], pins);
        match OldestUnpinned(order[1..], pins)
        case None =>
        case Some(k) =>
          var rest := Without(order[1..], k);
          assert Without(order, k) == [order[0]] + rest;
          assert ([order[0]] + rest)[1..] == rest;
      }
    }
  }

  lemma {:induction false} PinnedSizeBounds<K(!new), V(!new)>(s: seq<K>, pins: set<K>, data: map<K, Entry<V>>)
    requires forall k | k in s :: k in data
    ensures PinnedSize(s, pins, data) <= TotalSize(s, data)
    ensures (forall k | k in s :: k in pins) ==> PinnedSize(s, pins, data) == TotalSize(s, data)
  {
    if s != [] {
      assert s[0] in s;
      PinnedSizeBounds(s[1..], pins, data);
    }
  }

  lemma {:induction false} PinnedSizeWithout<K(!new), V(!new)>(
      s: seq<K>, k: K, pins: set<K>, data: map<K, Entry<V>>, data': map<K, Entry<V>>)
    requires Distinct(s) && (forall x | x in s :: x in data) && k in s && k !in pins
    requires forall x | x in s && x != k :: x in data' && data'[x] == data[x]
    ensures forall x | x in Without(s, k) :: x in data'
    ensures PinnedSize(Without(s, k), pins, data') == PinnedSize(s, pins, data)
  {
    WithoutMeaning(s, k);
    if s[0] == k {
      assert forall x | x in s[1..] :: x != k;
      SamePinnedSizes(s[1..], pins, data, data');
    } else {
      PinnedSizeWithout(s[1..], k, pins, data, data');
    }
  }

  lemma {:induction false} SamePinnedSizes<K(!new), V(!new)>(
      s: seq<K>, pins: set<K>, data: map<K, Entry<V>>, data': map<K, Entry<V>>)
    requires forall x | x in s :: x in data && x in data' && data'[x] == data[x]
    ensures PinnedSize(s, pins, data') == PinnedSize(s, pins, data)
  {
    if s != [] {
      assert s[0] in s;
      SamePinnedSizes(s[1..], pins, data, data');
    }
  }

  function RemoveAll<K(==, !new), V(!new)>(c: Cache<K, V>, ks: seq<K>): Cache<K, V>
    decreases |ks|
  {
    if ks == [] then c else RemoveAll(Remove(c, ks[0]), ks[1..])
  }

  lemma {:induction false} SamePairs<K(!new), V(!new)>(s: seq<K>, data: map<K, Entry<V>>, data': map<K, Entry<V>>)
    requires forall x | x in s :: x in data && x in data' && data'[x] == data[x]
    ensures Pairs(s, data') == Pairs(s, data)
  {
    if s != [] {
      assert s[0] in s;
      SamePairs(s[1..], data, data');
    }
  }

  ghost function Elements<K(!new)>(s: seq<K>): set<K> {
    set x | x in s
  }

  lemma ElementsSplit<K(!new)>(s: seq<K>)
    requires s != []
    ensures Elements(s) == {s[0]} + Elements(s[1..])
  {
    assert s == [s[0]] + s[1..];
  }

  /** Distinct keys with an entry: they can be deleted one after the other. */
  ghost predicate Resident<K(!new), V(!new)>(c: Cache<K, V>, ks: seq<K>) {
    Distinct(ks) && forall k | k in ks :: k in c.data
  }

  lemma ResidentTail<K(!new), V(!new)>(c: Cache<K, V>, ks: seq<K>)
    requires Resident(c, ks) && ks != []
    ensures ks[0] in c.data && ks[0] !in ks[1..] && Resident(Remove(c, ks[0]), ks[1..])
  {
    assert ks[0] in ks;
    forall k | k in ks[1..] ensures k in c.data && k != ks[0] {
      var i :| 0 <= i < |ks[1..]| && ks[1..][i] == k;
      assert ks[i + 1] == k;
    }
  }

  /** What deleting `ks` removes: those keys, each handed to the hook once and in
      that order; the others keep their entries and their pins. */
  lemma {:induction false} RemoveAllMeaning<K(!new), V(!new)>(c: Cache<K, V>, ks: seq<K>)
    requires Resident(c, ks)
    ensures RemoveAll(c, ks).removed == c.removed + Pairs(ks, c.data)
    ensures RemoveAll(c, ks).data == c.data - Elements(ks)
    ensures RemoveAll(c, ks).pins == c.pins - Elements(ks)
    ensures RemoveAll(c, ks).capacity == c.capacity && RemoveAll(c, ks).inserted == c.inserted
    decreases |ks|
  {
    if ks == [] {
      assert Pairs<K, V>([], c.data) == [];
    } else {
      ResidentTail(c, ks);
      var d := Remove(c, ks[0]);
      RemoveAllMeaning(d, ks[1..]);
      ElementsSplit(ks);
      SamePairs(ks[1..], c.data, d.data);
      assert c.data - Elements(ks) == c.data - {ks[0]} - Elements(ks[1..]);
      assert c.pins - Elements(ks) == c.pins - {ks[0]} - Elements(ks[1..]);
    }
  }

  /** ... and what is left keeps its order. */
  lemma {:induction false} RemoveAllKeepsOrder<K(!new), V(!new)>(c: Cache<K, V>, ks: seq<K>)
    requires Valid(c) && Resident(c, ks)
    ensures Valid(RemoveAll(c, ks))
    ensures RemoveAll(c, ks).order == Restrict(c.order, c.data.Keys - Elements(ks))
    decreases |ks|
  {
    if ks == [] {
      RestrictMeaning(c.order, c.data.Keys - Elements(ks));
    } else {
      ResidentTail(c, ks);
      RemoveKeepsValid(c, ks[0]);
      var d := Remove(c, ks[0]);
      var keep := d.data.Keys - Elements(ks[1..]);
      RemoveAllKeepsOrder(d, ks[1..]);
      ElementsSplit(ks);
      WithoutRestricts(c.order, ks[0], keep);
      assert keep - {ks[0]} == keep == c.data.Keys - Elements(ks);
    }
  }

  lemma {:induction false} UnpinnedDistinct<K(!new)>(order: seq<K>, pins: set<K>)
    requires Distinct(order)
    ensures Distinct(Unpinned(order, pins))
  {
    if order != [] {
      UnpinnedMeaning(order[1..], pins);
      UnpinnedDistinct(order[1..], pins);
      assert order[0] !in order[1..];
    }
  }

  /** `c` after its `n` oldest unpinned keys were evicted. */
  ghost function Evicted<K(!new), V(!new)>(c: Cache<K, V>, n: nat): Cache<K, V>
    requires n <= |Unpinned(c.order, c.pins)|
  {
    RemoveAll(c, Unpinned(c.order, c.pins)[..n])
  }

  /** How many keys making room for `size` evicts. */
  ghost function Evictions<K(!new), V(!new)>(c: Cache<K, V>, size: nat): nat
    decreases |c.order|
  {
    if c.currsize + size <= c.capacity then 0
    else match Victim(c, false)
         case None => 0
         case Some(k) =>
           if k !in c.data then 0 else
             OldestUnpinnedShortens(c.order, c.pins);
             1 + Evictions(Remove(c, k), size)
  }

  /** Evicting the oldest unpinned key and then n more evicts the n + 1 oldest. */
  lemma EvictedStep<K(!new), V(!new)>(c: Cache<K, V>, k: K, n: nat)
    requires Distinct(c.order) && Victim(c, false) == Some(k) && k in c.data
    requires n <= |Unpinned(Remove(c, k).order, c.pins)|
    ensures k !in c.pins && Remove(c, k).pins == c.pins && Distinct(Remove(c, k).order)
    ensures |Unpinned(c.order, c.pins)| == 1 + |Unpinned(Remove(c, k).order, c.pins)|
    ensures Evicted(c, n + 1) == Evicted(Remove(c, k), n)
  {
    OldestUnpinnedMeaning(c.order, c.pins);
    WithoutMeaning(c.order, k);
    UnpinnedMeaning(c.order, c.pins);
    assert c.pins - {k} == c.pins;
    ConsPrefix(k, Unpinned(Remove(c, k).order, c.pins), n);
  }

  lemma ConsPrefix<K(!new)>(k: K, t: seq<K>, n: nat)
    requires n <= |t|
    ensures ([k] + t)[..n + 1][0] == k && ([k] + t)[..n + 1][1..] == t[..n]
  {
  }

  /** Making room evicts the oldest unpinned keys and no other, in that order. */
  lemma {:induction false} MakeRoomEvictsOldestUnpinned<K(!new), V(!new)>(c: Cache<K, V>, size: nat)
    requires Distinct(c.order)
    ensures Evictions(c, size) <= |Unpinned(c.order, c.pins)|
    ensures MakeRoom(c, size).0 == Evicted(c, Evictions(c, size))
    decreases |c.order|
  {
    assert Unpinned(c.order, c.pins)[..0] == [];
    if c.currsize + size > c.capacity && Victim(c, false).Some? && Victim(c, false).value in c.data {
      var k := Victim(c, false).value;
      OldestUnpinnedShortens(c.order, c.pins);
      EvictedStep(c, k, 0);
      MakeRoomEvictsOldestUnpinned(Remove(c, k), size);
      EvictedStep(c, k, Evictions(Remove(c, k), size));
    }
  }

  /** ... and it stops as soon as there is room. */
  lemma {:induction false} MakeRoomEvictsNoMoreThanNeeded<K(!new), V(!new)>(c: Cache<K, V>, size: nat, m: nat)
    requires Distinct(c.order) && m < Evictions(c, size) <= |Unpinned(c.order, c.pins)|
    ensures Evicted(c, m).currsize + size > c.capacity
    decreases |c.order|
  {
    var k := Victim(c, false).value;
    OldestUnpinnedShortens(c.order, c.pins);
    EvictedStep(c, k, 0);
    if m == 0 {
      assert Unpinned(c.order, c.pins)[..0] == [];
    } else {
      EvictedStep(c, k, m - 1);
      MakeRoomEvictsNoMoreThanNeeded(Remove(c, k), size, m - 1);
    }
  }

  lemma {:induction false} MakeRoomKeepsValid<K(!new), V(!new)>(c: Cache<K, V>, size: nat)
    requires Valid(c)
    ensures Valid(MakeRoom(c, size).0) && MakeRoom(c, size).0.pins == c.pins
    ensures MakeRoom(c, size).1.Room? ==> MakeRoom(c, size).0.currsize + size <= c.capacity
    decreases |c.order|
  {
    if c.currsize + size > c.capacity && Victim(c, false).Some? {
      var k := Victim(c, false).value;
      VictimIsResident(c, false);
      RemoveKeepsValid(c, k);
      assert c.pins - {k} == c.pins;
      MakeRoomKeepsValid(Remove(c, k), size);
    }
  }

  /** On a consistent cache making room ends, and fails exactly when the pinned
      keys alone leave too little. */
  lemma {:induction false} MakeRoomFailsOnPins<K(!new), V(!new)>(c: Cache<K, V>, size: nat)
    requires Valid(c)
    ensures MakeRoom(c, size).1
         == if PinnedSize(c.order, c.pins, c.data) + size <= c.capacity then Room else AllPinned
    decreases |c.order|
  {
    PinnedSizeBounds(c.order, c.pins, c.data);
    if c.currsize + size > c.capacity {
      OldestUnpinnedMeaning(c.order, c.pins);
      if Victim(c, false).Some? {
        var k := Victim(c, false).value;
        VictimIsResident(c, false);
        RemoveKeepsValid(c, k);
        PinnedSizeWithout(c.order, k, c.pins, c.data, Remove(c, k).data);
        assert c.pins - {k} == c.pins;
        MakeRoomFailsOnPins(Remove(c, k), size);
      }
    }
  }

  // ------------------------------------------------------------------- insertion

  ghost predicate NeedsRoom<K(!new), V(!new)>(c: Cache<K, V>, k: K, size: nat) {
    k in c.data ==> c.data[k].size < size
  }

  lemma InsertKeepsValid<K(!new), V(!new)>(c: Cache<K, V>, k: K, v: V, size: nat)
    requires Valid(c)
    ensures Valid(Insert(c, k, v, size).0)
  {
    if size <= c.capacity {
      if NeedsRoom(c, k, size) {
        var (room, outcome) := MakeRoom(c, size);
        MakeRoomKeepsValid(c, size);
        MakeRoomKeepsCapacity(c, size);
        if outcome.Room? {
          StoreKeepsValid(room, k, v, size);
        }
      } else {
        StoreKeepsValid(c, k, v, size);
      }
    }
  }

  lemma {:induction false} MakeRoomKeepsCapacity<K(!new), V(!new)>(c: Cache<K, V>, size: nat)
    ensures MakeRoom(c, size).0.capacity == c.capacity
    decreases |c.order|
  {
    if c.currsize + size > c.capacity && Victim(c, false).Some? && Victim(c, false).value in c.data {
      OldestUnpinnedShortens(c.order, c.pins);
      MakeRoomKeepsCapacity(Remove(c, Victim(c, false).value), size);
    }
  }

  /** put always ends. It fails exactly when the value is larger than the cache,
      changing nothing, or when room is needed and the pinned keys leave too
      little; it never unpins a key. */
  lemma InsertFailsExactlyWhen<K(!new), V(!new)>(c: Cache<K, V>, k: K, v: V, size: nat)
    requires Valid(c)
    ensures var (c', r) := Insert(c, k, v, size);
      && (r.TooLarge? <==> size > c.capacity) && (r.TooLarge? ==> c' == c)
      && (r.NoRoom? <==> && size <= c.capacity && NeedsRoom(c, k, size)
                         && PinnedSize(c.order, c.pins, c.data) + size > c.capacity)
      && !r.Hangs?
      && c'.pins == c.pins <= c'.data.Keys
      && (r.Stored? ==> k in c'.data && c'.data[k] == Entry(v, size)
                        && |c'.order| > 0 && c'.order[|c'.order| - 1] == k)
  {
    InsertKeepsValid(c, k, v, size);
    if size <= c.capacity && NeedsRoom(c, k, size) {
      MakeRoomFailsOnPins(c, size);
      MakeRoomKeepsValid(c, size);
    }
  }

  /** put evicts `n` of the oldest unpinned keys, no more than needed, and stores. */
  lemma InsertEvictsThenStores<K(!new), V(!new)>(c: Cache<K, V>, k: K, v: V, size: nat) returns (n: nat)
    requires Distinct(c.order)
    ensures n <= |Unpinned(c.order, c.pins)|
    ensures Insert(c, k, v, size).0
         == if Insert(c, k, v, size).1.Stored? then Store(Evicted(c, n), k, v, size) else Evicted(c, n)
    ensures forall m: nat | m < n :: Evicted(c, m).currsize + size > c.capacity
  {
    n := 0;
    assert Unpinned(c.order, c.pins)[..0] == [];
    if size <= c.capacity && NeedsRoom(c, k, size) {
      n := Evictions(c, size);
      MakeRoomEvictsOldestUnpinned(c, size);
      forall m: nat | m < n ensures Evicted(c, m).currsize + size > c.capacity {
        MakeRoomEvictsNoMoreThanNeeded(c, size, m);
      }
    }
  }

  /** What put evicts: the `n` oldest unpinned keys, where `n` is the least number
      that makes room. Each is handed to the hook once, with its value, oldest
      first; every other entry stays and keeps its place. */
  lemma InsertEvictsTheOldestUnpinned<K(!new), V(!new)>(c: Cache<K, V>, k: K, v: V, size: nat) returns (n: nat)
    requires Valid(c)
    ensures n <= |Unpinned(c.order, c.pins)|
    ensures Resident(c, Unpinned(c.order, c.pins)[..n])
    ensures var (c', r) := Insert(c, k, v, size);
            var u := Unpinned(c.order, c.pins)[..n];
            var rest := c.data - Elements(u);
      && c'.removed == c.removed + Pairs(u, c.data)
      && c'.data == (if r.Stored? then rest[k := Entry(v, size)] else rest)
      && c'.order == (if r.Stored? then Restrict(c.order, c.data.Keys - Elements(u) - {k}) + [k]
                      else Restrict(c.order, c.data.Keys - Elements(u)))
    ensures forall m: nat | m < n :: Evicted(c, m).currsize + size > c.capacity
  {
    n := InsertEvictsThenStores(c, k, v, size);
    EvictedIsConsistent(c, n);
    WithoutOfRestriction(c.order, k, c.data.Keys - Elements(Unpinned(c.order, c.pins)[..n]));
  }

  lemma EvictedIsConsistent<K(!new), V(!new)>(c: Cache<K, V>, n: nat)
    requires Valid(c) && n <= |Unpinned(c.order, c.pins)|
    ensures var u := Unpinned(c.order, c.pins)[..n];
      && Resident(c, u)
      && Evicted(c, n).removed == c.removed + Pairs(u, c.data)
      && Evicted(c, n).data == c.data - Elements(u)
      && Evicted(c, n).order == Restrict(c.order, c.data.Keys - Elements(u))
  {
    var u := Unpinned(c.order, c.pins);
    UnpinnedMeaning(c.order, c.pins);
    UnpinnedDistinct(c.order, c.pins);
    assert forall x | x in u[..n] :: x in u;
    RemoveAllMeaning(c, u[..n]);
    RemoveAllKeepsOrder(c, u[..n]);
  }

  // ------------------------------------------------------------------------ runs

  datatype Op<K, V> =
    | PutOp(key: K, value: V, size: nat)
    | GetOp(key: K)
    | PopOp(key: K)
    | TouchOp(key: K)
    | PinOp(key: K)
    | DeleteOp(key: K)
    | PopItemOp(removePinned: bool)
    | ClearOp

  function RemoveVictim<K(==, !new), V(!new)>(c: Cache<K, V>, removePinned: bool): Cache<K, V> {
    match Victim(c, removePinned)
    case None => c
    case Some(k) => Remove(c, k)
  }

  /** The loop of clear: popitem takes the oldest key, pinned or not, until no
      entry is left; it does not end once that key has no entry. */
  function ClearLoop<K(==, !new), V(!new)>(c: Cache<K, V>): (Cache<K, V>, bool)
    decreases |c.order|
  {
    if |c.data| == 0 then (c, true)
    else match Victim(c, true)
         case None => (c, false)
         case Some(k) => if k !in c.data then (c, false) else ClearLoop(Remove(c, k))
  }

  function Step<K(==, !new), V(!new)>(c: Cache<K, V>, op: Op<K, V>): Cache<K, V> {
    match op
    case PutOp(k, v, size) => Insert(c, k, v, size).0
    case GetOp(k) => Lookup(c, k).0
    case PopOp(k) => Take(c, k).0
    case TouchOp(k) => Refresh(c, k)
    case PinOp(k) => PinKey(c, k).0
    case DeleteOp(k) => Remove(c, k)
    case PopItemOp(removePinned) => RemoveVictim(c, removePinned)
    case ClearOp => ClearLoop(c).0
  }

  function Run<K(==, !new), V(!new)>(c: Cache<K, V>, ops: seq<Op<K, V>>): Cache<K, V> {
    if ops == [] then c else Step(Run(c, ops[..|ops| - 1]), ops[|ops| - 1])
  }

  /** Every touch of the run is of a key that is resident at that time. */
  ghost predicate TouchesResident<K(!new), V(!new)>(c: Cache<K, V>, ops: seq<Op<K, V>>) {
    forall i | 0 <= i < |ops| :: ops[i].TouchOp? ==> ops[i].key in Run(c, ops[..i]).data
  }

  lemma StepKeepsValid<K(!new), V(!new)>(c: Cache<K, V>, op: Op<K, V>)
    requires Valid(c) && (op.TouchOp? ==> op.key in c.data)
    ensures Valid(Step(c, op))
  {
    match op
    case PutOp(k, v, size) => InsertKeepsValid(c, k, v, size);
    case GetOp(k) => if k in c.data { RefreshKeepsValid(c, k); }
    case PopOp(k) => if k in c.data { RemoveKeepsValid(c, k); }
    case TouchOp(k) => RefreshKeepsValid(c, k);
    case PinOp(k) =>
    case DeleteOp(k) => if k in c.data { RemoveKeepsValid(c, k); }
    case PopItemOp(removePinned) =>
      VictimIsResident(c, removePinned);
      if Victim(c, removePinned).Some? { RemoveKeepsValid(c, Victim(c, removePinned).value); }
    case ClearOp =>
      ClearRemovesAll(c);
      RemoveAllKeepsOrder(c, c.order);
  }

  /** Over every run: size within capacity, pinned keys resident, and the hook
      called once for each time a key left the cache and at no other time. */
  lemma {:induction false} RunIsConsistent<K(!new), V(!new)>(capacity: nat, ops: seq<Op<K, V>>)
    requires TouchesResident(Empty<K, V>(capacity), ops)
    ensures var c := Run(Empty<K, V>(capacity), ops);
      && Valid(c)
      && forall k: K :: RemovedKeys(c.removed)[k] == c.inserted[k] - (if k in c.data then 1 else 0)
  {
    var c0 := Empty<K, V>(capacity);
    if ops != [] {
      var prefix := ops[..|ops| - 1];
      TouchesInPrefix(c0, ops);
      RunIsConsistent(capacity, prefix);
      StepKeepsValid(Run(c0, prefix), ops[|ops| - 1]);
    }
    ResidentOnce(Run(c0, ops));
  }

  /** The value that was last stored for a key by a put that did not fail. */
  function LastStored<K(==, !new), V(!new)>(c: Cache<K, V>, ops: seq<Op<K, V>>, k: K): Option<V> {
    if ops == [] then None
    else
      var op, prefix := ops[|ops| - 1], ops[..|ops| - 1];
      if op.PutOp? && op.key == k && Insert(Run(c, prefix), k, op.value, op.size).1.Stored? then Some(op.value)
      else LastStored(c, prefix, k)
  }

  /** One operation changes the value of a key only by storing it. */
  lemma StepKeepsValues<K(!new), V(!new)>(c: Cache<K, V>, op: Op<K, V>, k: K)
    requires Valid(c) && k in Step(c, op).data
    ensures
      if op.PutOp? && op.key == k && Insert(c, k, op.value, op.size).1.Stored?
      then Step(c, op).data[k].value == op.value
      else k in c.data && Step(c, op).data[k] == c.data[k]
  {
    match op
    case PutOp(key, v, size) => var n := InsertEvictsTheOldestUnpinned(c, key, v, size);
    case ClearOp => ClearEmpties(c);
    case _ =>
  }

  /** Over every run the value of a resident key is the one last stored for it. */
  lemma {:induction false} ResidentValueIsTheLastStored<K(!new), V(!new)>(capacity: nat, ops: seq<Op<K, V>>, k: K)
    requires TouchesResident(Empty<K, V>(capacity), ops)
    requires k in Run(Empty<K, V>(capacity), ops).data
    ensures LastStored(Empty(capacity), ops, k) == Some(Run(Empty<K, V>(capacity), ops).data[k].value)
  {
    var c0 := Empty<K, V>(capacity);
    if ops != [] {
      var prefix := ops[..|ops| - 1];
      TouchesInPrefix(c0, ops);
      RunIsConsistent(capacity, prefix);
      StepKeepsValues(Run(c0, prefix), ops[|ops| - 1], k);
      if k in Run(c0, prefix).data {
        ResidentValueIsTheLastStored(capacity, prefix, k);
      }
    }
  }

  lemma TouchesInPrefix<K(!new), V(!new)>(c: Cache<K, V>, ops: seq<Op<K, V>>)
    requires TouchesResident(c, ops) && ops != []
    ensures TouchesResident(c, ops[..|ops| - 1])
  {
    var prefix := ops[..|ops| - 1];
    forall i | 0 <= i < |prefix| ensures prefix[i].TouchOp? ==> prefix[i].key in Run(c, prefix[..i]).data {
      assert prefix[i] == ops[i] && prefix[..i] == ops[..i];
    }
  }

  lemma ResidentOnce<K(!new), V(!new)>(c: Cache<K, V>)
    requires Valid(c)
    ensures forall k: K :: RemovedKeys(c.removed)[k] == c.inserted[k] - (if k in c.data then 1 else 0)
  {
    forall k: K ensures RemovedKeys(c.removed)[k] == c.inserted[k] - (if k in c.data then 1 else 0) {
      CountDistinct(c.order, k);
      assert (RemovedKeys(c.removed) + multiset(c.order))[k] == c.inserted[k];
    }
  }

  lemma {:induction false} CountDistinct<K(!new)>(s: seq<K>, k: K)
    requires Distinct(s)
    ensures multiset(s)[k] == if k in s then 1 else 0
  {
    if s != [] {
      assert s == [s[0]] + s[1..];
      CountDistinct(s[1..], k);
      assert s[0] !in s[1..];
    }
  }

  lemma {:induction false} ClearRemovesAll<K(!new), V(!new)>(c: Cache<K, V>)
    requires Valid(c)
    ensures ClearLoop(c) == (RemoveAll(c, c.order), true)
    decreases |c.order|
  {
    if |c.data| == 0 {
      NoEntriesNoVictim(c, true);
    } else {
      ClearUnfolds(c);
      ClearRemovesAll(Remove(c, c.order[0]));
    }
  }

  /** clear hands every entry to the hook, least recently used first, and leaves
      neither keys nor pins. */
  lemma ClearEmpties<K(!new), V(!new)>(c: Cache<K, V>)
    requires Valid(c)
    ensures ClearLoop(c).1
    ensures var c' := Step(c, ClearOp);
      && c'.order == [] && c'.data == map[] && c'.pins == {} && c'.currsize == 0
      && Resident(c, c.order) && c'.removed == c.removed + Pairs(c.order, c.data)
  {
    ClearRemovesAll(c);
    RemoveAllMeaning(c, c.order);
    RemoveAllKeepsOrder(c, c.order);
    assert c.data.Keys - Elements(c.order) == {};
    RestrictToNothing(c.order);
    EmptyOrderIsEmpty(RemoveAll(c, c.order));
  }

  lemma EmptyOrderIsEmpty<K(!new), V(!new)>(c: Cache<K, V>)
    requires Valid(c) && c.order == []
    ensures c.data == map[] && c.pins == {} && c.currsize == 0
  {
    assert c.data.Keys == {};
  }

  lemma {:induction false} RestrictToNothing<K(!new)>(s: seq<K>)
    ensures Restrict(s, {}) == []
  {
    if s != [] {
      RestrictToNothing(s[1..]);
    }
  }

  // ---------------------------------------------------------------------- the class

  /** The fields of LRUCache: those of cachetools' base classes (entries, order,
      current size) and its own. */
  class LRUCache<K(==, !new), V(!new)> {
    const capacity: nat
    const getsizeof: V -> nat
    var data: map<K, Entry<V>>
    var order: seq<K>
    var currsize: int
    var pinnedItems: set<K>
    var hits: nat
    var total: nat
    ghost var removed: seq<(K, V)>
    ghost var inserted: multiset<K>

    ghost function State(): Cache<K, V>
      reads this
    {
      Cache(capacity, order, data, currsize, pinnedItems, removed, inserted)
    }

    constructor (capacity: nat, getsizeof: V -> nat)
      ensures State() == Empty(capacity) && Valid(State()) && hits == total == 0
      ensures this.getsizeof == getsizeof
    {
      this.capacity, this.getsizeof := capacity, getsizeof;
      data, order, currsize, pinnedItems, hits, total := map[], [], 0, {}, 0, 0;
      removed, inserted := [], multiset{};
    }

    method DelItem(k: K) returns (ok: bool)
      modifies this`data, this`order, this`currsize, this`pinnedItems, this`removed
      ensures State() == Remove(old(State()), k) && ok == (k in old(data))
      ensures data == old(data) - {k}
      ensures removed == if ok then old(removed) + [(k, old(data)[k].value)] else old(removed)
    {
      ok := k in data;
      if ok {
        var entry := data[k];
        order, data, currsize := Without(order, k), data - {k}, currsize - entry.size;
        pinnedItems := pinnedItems - {k};
        removed := removed + [(k, entry.value)];
      }
    }

    method Touch(k: K)
      modifies this`order
      ensures State() == Refresh(old(State()), k)
      ensures order == Without(old(order), k) + [k]
    {
      order := Without(order, k) + [k];
    }

    method Get(k: K) returns (value: Option<V>)
      modifies this`order, this`hits, this`total
      ensures (State(), value) == Lookup(old(State()), k)
      ensures value == (if k in old(data) then Some(old(data)[k].value) else None) && data == old(data)
      ensures total == old(total) + 1 && hits == old(hits) + if value.Some? then 1 else 0
    {
      value := None;
      if k in data {
        Touch(k);
        value := Some(data[k].value);
        hits := hits + 1;
      }
      total := total + 1;
    }

    method Pop(k: K) returns (value: Option<V>)
      modifies this`data, this`order, this`currsize, this`pinnedItems, this`removed
      ensures (State(), value) == Take(old(State()), k)
      ensures value == (if k in old(data) then Some(old(data)[k].value) else None) && data == old(data) - {k}
    {
      value := None;
      if k in data {
        value := Some(data[k].value);
        var _ := DelItem(k);
      }
    }

    method Pin(k: K) returns (ok: bool)
      modifies this`pinnedItems
      ensures (State(), ok) == PinKey(old(State()), k)
      ensures ok == (k in data) && pinnedItems == old(pinnedItems) + if ok then {k} else {}
    {
      ok := k in data;
      if ok {
        pinnedItems := pinnedItems + {k};
      }
    }

    /** None when every key is pinned (RuntimeError) or there is none. */
    method PopItem(removePinned: bool) returns (item: Option<(K, Option<V>)>)
      modifies this`data, this`order, this`currsize, this`pinnedItems, this`removed
      ensures State() == RemoveVictim(old(State()), removePinned)
      ensures var v := Victim(old(State()), removePinned);
        item == if v.None? then None else Some((v.value, Take(old(State()), v.value).1))
    {
      item := None;
      var victim := if !removePinned then OldestUnpinned(order, pinnedItems)
                    else if order == [] then None else Some(order[0]);
      if victim.Some? {
        var value := Pop(victim.value);
        item := Some((victim.value, value));
      }
    }

    /** The loop of cachetools' __setitem__ that makes room. */
    method EvictFor(size: nat) returns (ok: bool)
      requires Valid(State())
      modifies this`data, this`order, this`currsize, this`pinnedItems, this`removed
      ensures (State(), if ok then Room else AllPinned) == MakeRoom(old(State()), size)
      ensures Valid(State())
    {
      while currsize + size > capacity
        invariant Valid(State())
        invariant MakeRoom(State(), size) == MakeRoom(old(State()), size)
        decreases |order|
      {
        MakeRoomUnfolds(State(), size);
        var item := PopItem(false);
        if item.None? {
          return false;
        }
      }
      ok := true;
    }

    method Put(k: K, v: V) returns (r: InsertResult)
      requires Valid(State())
      modifies this`data, this`order, this`currsize, this`pinnedItems, this`removed, this`inserted
      ensures (State(), r) == Insert(old(State()), k, v, getsizeof(v))
      ensures Valid(State())
    {
      var size := getsizeof(v);
      ghost var before := State();
      InsertKeepsValid(before, k, v, size);
      if size > capacity {
        return TooLarge;
      }
      if k !in data || data[k].size < size {
        var ok := EvictFor(size);
        if !ok {
          return NoRoom;
        }
      }
      SetEntry(k, v, size);
      r := Stored;
    }

    method SetEntry(k: K, v: V, size: nat)
      modifies this`data, this`order, this`currsize, this`inserted
      ensures State() == Store(old(State()), k, v, size)
    {
      var before := if k in data then data[k].size else 0;
      inserted := if k in data then inserted else inserted + multiset{k};
      data, order, currsize := data[k := Entry(v, size)], Without(order, k) + [k], currsize + size - before;
    }

    method RemoveOldest(removePinned: bool)
      requires Valid(State())
      modifies this`data, this`order, this`currsize, this`pinnedItems, this`removed
      ensures State() == RemoveVictim(old(State()), removePinned) && Valid(State())
    {
      StepKeepsValid(State(), PopItemOp(removePinned));
      if |data| > 0 {
        var _ := PopItem(removePinned);
      } else {
        NoEntriesNoVictim(State(), removePinned);
      }
    }

    method Clear()
      requires Valid(State())
      modifies this`data, this`order, this`currsize, this`pinnedItems, this`removed
      ensures State() == RemoveAll(old(State()), old(order)) && Valid(State())
    {
      while |data| > 0
        invariant Valid(State())
        invariant RemoveAll(State(), order) == RemoveAll(old(State()), old(order))
        decreases |order|
      {
        ClearUnfolds(State());
        RemoveOldest(true);
      }
      NoEntriesNoVictim(State(), true);
    }
  }

  lemma MakeRoomUnfolds<K(!new), V(!new)>(c: Cache<K, V>, size: nat)
    requires Valid(c) && c.currsize + size > c.capacity
    ensures Victim(c, false).None? ==> MakeRoom(c, size) == (c, AllPinned)
    ensures Victim(c, false).Some? ==>
      var d := Remove(c, Victim(c, false).value);
      Victim(c, false).value in c.data && Valid(d) && |d.order| < |c.order| && MakeRoom(c, size) == MakeRoom(d, size)
  {
    VictimIsResident(c, false);
    if Victim(c, false).Some? {
      RemoveKeepsValid(c, Victim(c, false).value);
    }
  }

  lemma ClearUnfolds<K(!new), V(!new)>(c: Cache<K, V>)
    requires Valid(c) && |c.data| > 0
    ensures Victim(c, true).Some? &&
      var d := Remove(c, Victim(c, true).value);
      Valid(d) && |d.order| < |c.order| && RemoveAll(c, c.order) == RemoveAll(d, d.order)
  {
    SomeEntrySomeVictim(c);
    RemoveKeepsValid(c, c.order[0]);
  }

  lemma NoEntriesNoVictim<K(!new), V(!new)>(c: Cache<K, V>, removePinned: bool)
    requires Valid(c) && |c.data| == 0
    ensures c.order == [] && Victim(c, removePinned) == None
  {
    assert c.data.Keys == {};
    HeadIsMember(c.order);
  }

  lemma HeadIsMember<K(!new)>(s: seq<K>)
    ensures |s| > 0 ==> s[0] in s
  {
  }

  lemma SomeEntrySomeVictim<K(!new), V(!new)>(c: Cache<K, V>)
    requires Valid(c) && |c.data| > 0
    ensures c.order != [] && Victim(c, true) == Some(c.order[0]) && c.order[0] in c.data
  {
    var k :| k in c.data.Keys;
    assert k in c.order;
    assert c.order[0] in c.order;
  }
}
