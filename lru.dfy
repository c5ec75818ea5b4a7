/**
  The recency-ordered dictionary (Python's `OrderedDict`) that backs one cache level,
  as a sequence of (key, value) pairs, least recently used first.

  The operations are the three dictionary operations the cache level uses:
  `move_to_end(key)` (MoveToEnd), `popitem(last=False)` (dropping the front entry) and item
  assignment `cache[key] = value` (Assign), and the level's own `put` (PutEntry), which
  combines the last two.
 */
module Lru {
  import opened Options

  /** The value stored under `key`, or None when the key is absent (`dict.get`). */
  function Lookup<K(==), V>(s: seq<(K, V)>, key: K): Option<V>
  {
    if s == [] then None
    else if s[0].0 == key then Some(s[0].1)
    else Lookup(s[1..], key)
  }

  /** The keys in recency order, least recently used first. */
  function Keys<K, V>(s: seq<(K, V)>): (ks: seq<K>)
    ensures |ks| == |s|
  {
    if s == [] then [] else [s[0].0] + Keys(s[1..])
  }

  /** No key occurs twice: the sequence is a well-formed dictionary. */
  ghost predicate DistinctKeys<K, V>(s: seq<(K, V)>)
  {
    s == [] || (Lookup(s[1..], s[0].0).None? && DistinctKeys(s[1..]))
  }

  /** The entries other than the one for `key`, in their original order. */
  function Remove<K(==), V>(s: seq<(K, V)>, key: K): seq<(K, V)>
  {
    if s == [] then []
    else if s[0].0 == key then Remove(s[1..], key)
    else [s[0]] + Remove(s[1..], key)
  }

  /** `move_to_end(key)`: the entry for `key` becomes the most recently used one. */
  function MoveToEnd<K(==), V>(s: seq<(K, V)>, key: K): seq<(K, V)>
    requires Lookup(s, key).Some?
  {
    Remove(s, key) + [(key, Lookup(s, key).value)]
  }

  /**
    Item assignment `d[key] = value`: an existing entry gets the new value and keeps its
    position; a new key is added at the most recent end.
   */
  function Assign<K(==), V>(s: seq<(K, V)>, key: K, value: V): seq<(K, V)>
  {
    if s == [] then [(key, value)]
    else if s[0].0 == key then [(key, value)] + s[1..]
    else [s[0]] + Assign(s[1..], key, value)
  }

  /**
    `CacheLevel.put`: when the level holds `size` or more entries the least recently used one
    is evicted first (even if `key` is already stored), then `key` is assigned.
   */
  function PutEntry<K(==), V>(s: seq<(K, V)>, size: int, key: K, value: V): seq<(K, V)>
    requires size >= 1
  {
    Assign(if |s| >= size then s[1..] else s, key, value)
  }

  // ---------------------------------------------------------------------------
  // Lookup and distinctness over appended and filtered sequences

  lemma {:induction false} LookupAppend<K, V>(a: seq<(K, V)>, x: (K, V), key: K)
    ensures Lookup(a + [x], key) ==
      if Lookup(a, key).Some? then Lookup(a, key)
      else if x.0 == key then Some(x.1)
      else None
  {
    if a == [] {
      assert a + [x] == [x];
    } else {
      assert (a + [x])[1..] == a[1..] + [x];
      LookupAppend(a[1..], x, key);
    }
  }

  lemma {:induction false} DistinctAppend<K, V>(a: seq<(K, V)>, x: (K, V))
    ensures DistinctKeys(a + [x]) <==> DistinctKeys(a) && Lookup(a, x.0).None?
  {
    if a == [] {
      assert a + [x] == [x];
      assert [x][1..] == [];
    } else {
      assert (a + [x])[1..] == a[1..] + [x];
      DistinctAppend(a[1..], x);
      LookupAppend(a[1..], x, a[0].0);
    }
  }

  lemma {:induction false} LookupRemove<K, V>(s: seq<(K, V)>, key: K, other: K)
    ensures Lookup(Remove(s, key), other) == if other == key then None else Lookup(s, other)
  {
    if s != [] {
      LookupRemove(s[1..], key, other);
      if s[0].0 != key {
        assert ([s[0]] + Remove(s[1..], key))[1..] == Remove(s[1..], key);
      }
    }
  }

  lemma {:induction false} RemoveDistinct<K, V>(s: seq<(K, V)>, key: K)
    requires DistinctKeys(s)
    ensures DistinctKeys(Remove(s, key))
    ensures |Remove(s, key)| == if Lookup(s, key).Some? then |s| - 1 else |s|
  {
    if s != [] {
      RemoveDistinct(s[1..], key);
      if s[0].0 == key {
        RemoveAbsent(s[1..], key);
      } else {
        var t := [s[0]] + Remove(s[1..], key);
        assert t[1..] == Remove(s[1..], key);
        LookupRemove(s[1..], key, s[0].0);
      }
    }
  }

  /** A key is stored exactly when it is one of the keys. */
  lemma {:induction false} LookupKeys<K, V>(s: seq<(K, V)>, key: K)
    ensures Lookup(s, key).Some? <==> key in Keys(s)
  {
    if s != [] {
      LookupKeys(s[1..], key);
      assert Keys(s) == [s[0].0] + Keys(s[1..]);
    }
  }

  /** Removing a key that is not stored changes nothing. */
  lemma {:induction false} RemoveAbsent<K, V>(s: seq<(K, V)>, key: K)
    requires Lookup(s, key).None?
    ensures Remove(s, key) == s
  {
    if s != [] {
      RemoveAbsent(s[1..], key);
      assert [s[0]] + s[1..] == s;
    }
  }

  lemma {:induction false} RemoveAppend<K, V>(a: seq<(K, V)>, x: (K, V), key: K)
    ensures Remove(a + [x], key) == Remove(a, key) + (if x.0 == key then [] else [x])
  {
    if a == [] {
      assert a + [x] == [x];
      assert [x][1..] == [];
    } else {
      assert (a + [x])[1..] == a[1..] + [x];
      RemoveAppend(a[1..], x, key);
    }
  }

  // ---------------------------------------------------------------------------
  // The cache-level operations

  /**
    A hit moves the key to the most recent end: the sequence stays a dictionary of the same
    size mapping every key to the same value, the last entry is (key, value), and the other
    entries keep their relative order.
   */
  lemma MoveToEndSpec<K, V>(s: seq<(K, V)>, key: K, value: V)
    requires DistinctKeys(s) && Lookup(s, key) == Some(value)
    ensures DistinctKeys(MoveToEnd(s, key))
    ensures |MoveToEnd(s, key)| == |s|
    ensures MoveToEnd(s, key)[|s| - 1] == (key, value)
    ensures forall k :: Lookup(MoveToEnd(s, key), k) == Lookup(s, k)
    ensures Remove(MoveToEnd(s, key), key) == Remove(s, key)
  {
    var r := Remove(s, key);
    RemoveDistinct(s, key);
    LookupRemove(s, key, key);
    DistinctAppend(r, (key, value));
    forall k ensures Lookup(MoveToEnd(s, key), k) == Lookup(s, k) {
      LookupAppend(r, (key, value), k);
      LookupRemove(s, key, k);
    }
    RemoveAppend(r, (key, value), key);
    RemoveAbsent(r, key);
  }

  /**
    Assignment maps `key` to `value` and leaves every other key alone; an existing key keeps
    its position (the key order is unchanged), a new key is appended at the most recent end.
   */
  lemma {:induction false} AssignSpec<K, V>(s: seq<(K, V)>, key: K, value: V)
    ensures Lookup(Assign(s, key, value), key) == Some(value)
    ensures forall k :: k != key ==> Lookup(Assign(s, key, value), k) == Lookup(s, k)
    ensures Keys(Assign(s, key, value)) == if Lookup(s, key).Some? then Keys(s) else Keys(s) + [key]
    ensures DistinctKeys(s) ==> DistinctKeys(Assign(s, key, value))
  {
    if s == [] {
      assert [(key, value)][1..] == [];
    } else if s[0].0 == key {
      assert ([(key, value)] + s[1..])[1..] == s[1..];
    } else {
      var t := [s[0]] + Assign(s[1..], key, value);
      assert t[1..] == Assign(s[1..], key, value);
      AssignSpec(s[1..], key, value);
      assert Keys(s) == [s[0].0] + Keys(s[1..]);
    }
  }

  /**
    `put` maps the key to the new value and keeps the sequence a dictionary. The only other
    key it can lose is the least recently used one, and only when the level was full.
   */
  lemma PutEntrySpec<K, V>(s: seq<(K, V)>, size: int, key: K, value: V)
    requires size >= 1 && DistinctKeys(s)
    ensures DistinctKeys(PutEntry(s, size, key, value))
    ensures Lookup(PutEntry(s, size, key, value), key) == Some(value)
    ensures |s| < size ==>
      forall k :: k != key ==> Lookup(PutEntry(s, size, key, value), k) == Lookup(s, k)
    ensures |s| >= size ==>
      forall k :: k != key ==>
        Lookup(PutEntry(s, size, key, value), k) == if k == s[0].0 then None else Lookup(s, k)
  {
    var base := if |s| >= size then s[1..] else s;
    AssignSpec(base, key, value);
  }

  /**
    The key order after `put`: the old order, without the front key when the level was full,
    with `key` appended only if it is not already there.
   */
  lemma PutEntryKeys<K, V>(s: seq<(K, V)>, size: int, key: K, value: V)
    requires size >= 1
    ensures Keys(PutEntry(s, size, key, value)) ==
      var ks := if |s| >= size then Keys(s)[1..] else Keys(s);
      if key in ks then ks else ks + [key]
  {
    var base := if |s| >= size then s[1..] else s;
    AssignSpec(base, key, value);
    LookupKeys(base, key);
    if |s| >= size {
      assert Keys(s) == [s[0].0] + Keys(s[1..]);
    }
  }

  /** `put` never lets a level grow beyond its size. */
  lemma PutEntryBounded<K, V>(s: seq<(K, V)>, size: int, key: K, value: V)
    requires size >= 1 && |s| <= size
    ensures |PutEntry(s, size, key, value)| <= size
  {
    var base := if |s| >= size then s[1..] else s;
    AssignSpec(base, key, value);
    assert |Keys(Assign(base, key, value))| == |Assign(base, key, value)|;
  }

  /**
    On a full level, storing a key that is already present but is not the least recently
    used one still evicts the front entry, so the level ends up one entry below its size.
   */
  lemma PutEntryFullExistingShrinks<K, V>(s: seq<(K, V)>, size: int, key: K, value: V)
    requires size >= 1 && DistinctKeys(s) && |s| == size
    requires Lookup(s, key).Some? && s[0].0 != key
    ensures |PutEntry(s, size, key, value)| == size - 1
    ensures Lookup(PutEntry(s, size, key, value), s[0].0).None?
  {
    AssignSpec(s[1..], key, value);
    assert |Keys(Assign(s[1..], key, value))| == |Assign(s[1..], key, value)|;
    assert Lookup(s[1..], key).Some?;
  }
}
