/**
  The simulated memory hierarchy of swe_concepts/cpu-cache-test.py: three LRU cache levels in
  front of a database. Reads try L1, L2, L3 and the database in turn and copy the value into
  every faster level they missed; writes go through to the database and to every level.
 */
module CpuCache {
  import opened Options
  import opened Lru

  /** `dict.get(key)` on a database map. */
  function MapGet<K, V>(m: map<K, V>, key: K): Option<V>
  {
    if key in m then Some(m[key]) else None
  }

  /** One bounded cache level with least-recently-used eviction and hit/miss counters. */
  class CacheLevel<K(==), V> {
    const name: string
    const size: int
    /** The OrderedDict, least recently used entry first. */
    var entries: seq<(K, V)>
    var hits: nat
    var misses: nat

    ghost predicate Valid()
      reads this
    {
      size >= 1 && DistinctKeys(entries) && |entries| <= size
    }

    constructor (name: string, size: int)
      requires size >= 1
      ensures Valid()
      ensures this.name == name && this.size == size
      ensures entries == [] && hits == 0 && misses == 0
    {
      this.name := name;
      this.size := size;
      entries := [];
      hits := 0;
      misses := 0;
    }

    /** The counters moved by exactly one lookup, a hit or a miss. */
    twostate predicate Counted(hit: bool)
      reads this
    {
      if hit then hits == old(hits) + 1 && misses == old(misses)
      else hits == old(hits) && misses == old(misses) + 1
    }

    /**
      A hit counts a hit, moves the key to the most recent end and returns its value;
      a miss counts a miss, returns None and leaves the entries alone.
     */
    method Get(key: K) returns (r: Option<V>)
      requires Valid()
      modifies this
      ensures Valid()
      ensures r == Lookup(old(entries), key)
      ensures Counted(r.Some?)
      ensures entries == if r.Some? then MoveToEnd(old(entries), key) else old(entries)
      // as a dictionary nothing changes; on a hit the key is now the most recent entry
      // and the other entries keep their order
      ensures forall k :: Lookup(entries, k) == Lookup(old(entries), k)
      ensures r.Some? ==>
        entries[|entries| - 1] == (key, r.value) && Remove(entries, key) == Remove(old(entries), key)
    {
      if Lookup(entries, key).Some? {
        hits := hits + 1;
        entries := MoveToEnd(entries, key);
        MoveToEndSpec(old(entries), key, Lookup(old(entries), key).value);
        r := Lookup(entries, key);
      } else {
        misses := misses + 1;
        r := None;
      }
    }

    /**
      Evicts the least recently used entry when the level is full, then stores the value.
      The level stays within its size and afterwards maps the key to the value.
     */
    method Put(key: K, value: V)
      requires Valid()
      modifies this`entries
      ensures Valid()
      ensures entries == PutEntry(old(entries), size, key, value)
      ensures Lookup(entries, key) == Some(value)
      // every other key keeps its value, except the evicted least recently used one
      ensures forall k :: k != key ==>
        Lookup(entries, k) ==
          if |old(entries)| >= size && k == old(entries)[0].0 then None else Lookup(old(entries), k)
    {
      if |entries| >= size {
        entries := entries[1..];
      }
      entries := Assign(entries, key, value);
      PutEntrySpec(old(entries), size, key, value);
      PutEntryBounded(old(entries), size, key, value);
    }

    /** Resets both counters; the entries are untouched. */
    method ClearStats()
      modifies this`hits, this`misses
      ensures hits == 0 && misses == 0
    {
      hits := 0;
      misses := 0;
    }
  }

  /** The backing store: a dictionary with read and write counters. */
  class Database<K(==), V> {
    var data: map<K, V>
    var readCount: nat
    var writeCount: nat

    constructor ()
      ensures data == map[] && readCount == 0 && writeCount == 0
    {
      data := map[];
      readCount := 0;
      writeCount := 0;
    }

    method Get(key: K) returns (r: Option<V>)
      modifies this`readCount
      ensures readCount == old(readCount) + 1
      ensures r == MapGet(data, key)
    {
      readCount := readCount + 1;
      r := MapGet(data, key);
    }

    method Put(key: K, value: V)
      modifies this`data, this`writeCount
      ensures writeCount == old(writeCount) + 1
      ensures data == old(data)[key := value]
    {
      writeCount := writeCount + 1;
      data := data[key := value];
    }
  }

  /** L1, L2 and L3 in front of the database. */
  class CacheHierarchy<K(==), V> {
    const l1: CacheLevel<K, V>
    const l2: CacheLevel<K, V>
    const l3: CacheLevel<K, V>
    const db: Database<K, V>

    ghost predicate Valid()
      reads this, l1, l2, l3
    {
      l1 != l2 && l1 != l3 && l2 != l3 &&
      l1.Valid() && l2.Valid() && l3.Valid()
    }

    constructor ()
      ensures Valid()
      ensures fresh(l1) && fresh(l2) && fresh(l3) && fresh(db)
      ensures l1.size == 100 && l2.size == 1000 && l3.size == 10000
      ensures l1.entries == [] && l2.entries == [] && l3.entries == []
      ensures l1.hits == l1.misses == l2.hits == l2.misses == l3.hits == l3.misses == 0
      ensures db.data == map[] && db.readCount == 0 && db.writeCount == 0
    {
      l1 := new CacheLevel("L1", 100);
      l2 := new CacheLevel("L2", 1000);
      l3 := new CacheLevel("L3", 10000);
      db := new Database();
    }

    /**
      Reads through the hierarchy. The value returned is the one of the fastest level (or the
      database) that has the key; that source counts a hit (the database a read), every faster
      level counts a miss, and each faster level is then given the value with its own `put`.
      A database miss returns None and leaves every level's entries as they were.
     */
    method Get(key: K) returns (r: Option<V>)
      requires Valid()
      modifies l1, l2, l3, db
      ensures Valid()
      // an L1 hit is served by L1 alone
      ensures old(Lookup(l1.entries, key)).Some? ==>
        && r == old(Lookup(l1.entries, key))
        && l1.Counted(true) && l1.entries == MoveToEnd(old(l1.entries), key)
        && unchanged(l2, l3, db)
      // an L2 hit is copied into L1
      ensures old(Lookup(l1.entries, key)).None? && old(Lookup(l2.entries, key)).Some? ==>
        && r == old(Lookup(l2.entries, key))
        && l1.Counted(false) && l1.entries == PutEntry(old(l1.entries), l1.size, key, r.value)
        && l2.Counted(true) && l2.entries == MoveToEnd(old(l2.entries), key)
        && unchanged(l3, db)
      // an L3 hit is copied into L2 and L1
      ensures old(Lookup(l1.entries, key)).None? && old(Lookup(l2.entries, key)).None? &&
              old(Lookup(l3.entries, key)).Some? ==>
        && r == old(Lookup(l3.entries, key))
        && l1.Counted(false) && l1.entries == PutEntry(old(l1.entries), l1.size, key, r.value)
        && l2.Counted(false) && l2.entries == PutEntry(old(l2.entries), l2.size, key, r.value)
        && l3.Counted(true) && l3.entries == MoveToEnd(old(l3.entries), key)
        && unchanged(db)
      // otherwise the database is read; a value found there is copied into L3, L2 and L1
      ensures old(Lookup(l1.entries, key)).None? && old(Lookup(l2.entries, key)).None? &&
              old(Lookup(l3.entries, key)).None? ==>
        && r == MapGet(old(db.data), key)
        && l1.Counted(false) && l2.Counted(false) && l3.Counted(false)
        && db.readCount == old(db.readCount) + 1 && db.data == old(db.data) && db.writeCount == old(db.writeCount)
        && l1.entries == (if r.Some? then PutEntry(old(l1.entries), l1.size, key, r.value) else old(l1.entries))
        && l2.entries == (if r.Some? then PutEntry(old(l2.entries), l2.size, key, r.value) else old(l2.entries))
        && l3.entries == (if r.Some? then PutEntry(old(l3.entries), l3.size, key, r.value) else old(l3.entries))
      // promotion: after a hit the value is in L1, and in every level that missed it
      ensures r.Some? ==> Lookup(l1.entries, key) == r
      ensures r.Some? && old(Lookup(l1.entries, key)).None? ==> Lookup(l2.entries, key) == r
      ensures r.Some? && old(Lookup(l1.entries, key)).None? && old(Lookup(l2.entries, key)).None? ==>
        Lookup(l3.entries, key) == r
    {
      r := l1.Get(key);
      if r.Some? {
        return;
      }
      r := l2.Get(key);
      if r.Some? {
        l1.Put(key, r.value);
        return;
      }
      r := l3.Get(key);
      if r.Some? {
        l2.Put(key, r.value);
        l1.Put(key, r.value);
        return;
      }
      r := db.Get(key);
      if r.Some? {
        l3.Put(key, r.value);
        l2.Put(key, r.value);
        l1.Put(key, r.value);
      }
    }

    /**
      Write-through: the database and all three levels store the value, in that order, and
      afterwards each of them maps the key to it. No hit or miss is counted.
     */
    method Put(key: K, value: V)
      requires Valid()
      modifies l1, l2, l3, db
      ensures Valid()
      ensures db.data == old(db.data)[key := value]
      ensures db.writeCount == old(db.writeCount) + 1 && db.readCount == old(db.readCount)
      ensures l3.entries == PutEntry(old(l3.entries), l3.size, key, value)
      ensures l2.entries == PutEntry(old(l2.entries), l2.size, key, value)
      ensures l1.entries == PutEntry(old(l1.entries), l1.size, key, value)
      ensures l1.hits == old(l1.hits) && l1.misses == old(l1.misses)
      ensures l2.hits == old(l2.hits) && l2.misses == old(l2.misses)
      ensures l3.hits == old(l3.hits) && l3.misses == old(l3.misses)
      ensures MapGet(db.data, key) == Some(value)
      ensures Lookup(l1.entries, key) == Lookup(l2.entries, key) == Lookup(l3.entries, key) == Some(value)
    {
      db.Put(key, value);
      l3.Put(key, value);
      l2.Put(key, value);
      l1.Put(key, value);
    }

    /** Resets the counters of all three levels; no entry changes. */
    method ClearStats()
      requires Valid()
      modifies l1`hits, l1`misses, l2`hits, l2`misses, l3`hits, l3`misses
      ensures Valid()
      ensures l1.hits == l1.misses == l2.hits == l2.misses == l3.hits == l3.misses == 0
    {
      l1.ClearStats();
      l2.ClearStats();
      l3.ClearStats();
    }
  }
}
