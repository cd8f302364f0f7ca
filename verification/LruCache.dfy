/**
 The bounded cache of values computed from block index entries.

 The container keeps its entries unique in three ways (insertion order, block, predecessor)
 and refuses an insertion that clashes in any of them.  It is modelled by the entries in
 insertion order, so the oldest entry, the next to be evicted, comes first.
 */
module LruCache {
  import opened Wrappers
  import opened BlockTree
  import opened ChainState

  datatype Entry<T> = Entry(key: Hash, prevKey: Hash, val: T, order: nat)

  // What a lookup returns.
  datatype Found<T> = Found(hash: Hash, prevHash: Hash, value: T)

  datatype Cache<T> = Cache(entries: seq<Entry<T>>, maxSize: nat, counter: nat)

  // ---------- the container ----------

  predicate Clash<T>(a: Entry<T>, b: Entry<T>) { a.order == b.order || a.key == b.key || a.prevKey == b.prevKey }

  ghost predicate Valid<T>(c: Cache<T>) {
    && (forall i, j :: 0 <= i < j < |c.entries| ==>
          && c.entries[i].key != c.entries[j].key && c.entries[i].prevKey != c.entries[j].prevKey
          && c.entries[i].order < c.entries[j].order)
    && (forall i :: 0 <= i < |c.entries| ==> c.entries[i].order < c.counter)
  }

  predicate Clashes<T>(es: seq<Entry<T>>, e: Entry<T>) { exists i :: 0 <= i < |es| && Clash(es[i], e) }

  predicate Holds<T>(es: seq<Entry<T>>, key: Hash) { exists i :: 0 <= i < |es| && es[i].key == key }

  // The value held for `key`.
  ghost function ValueOf<T>(es: seq<Entry<T>>, key: Hash): (e: Entry<T>)
    requires Holds(es, key)
    ensures e in es && e.key == key
  {
    var i :| 0 <= i < |es| && es[i].key == key; es[i]
  }

  ghost function Cached<T>(es: seq<Entry<T>>, key: Hash): Option<Found<T>> {
    if Holds(es, key) then var e := ValueOf(es, key); Some(Found(e.key, e.prevKey, e.val)) else None
  }

  lemma OneValue<T>(c: Cache<T>, i: nat)
    requires Valid(c) && i < |c.entries|
    ensures ValueOf(c.entries, c.entries[i].key) == c.entries[i]
  {
    var j :| 0 <= j < |c.entries| && c.entries[j] == ValueOf(c.entries, c.entries[i].key);
    assert i < j ==> c.entries[i].key != c.entries[j].key;
    assert j < i ==> c.entries[j].key != c.entries[i].key;
  }

  function Newest<T>(es: seq<Entry<T>>, n: nat): seq<Entry<T>> { if |es| <= n then es else es[|es| - n..] }

  // The last entries, as many as there are and as fit.
  lemma NewestIs<T>(es: seq<Entry<T>>, n: nat)
    ensures var r := Newest(es, n); |r| <= n && |r| <= |es| && (|r| == n || |r| == |es|) && r == es[|es| - |r|..]
  {
  }

  function Added<T>(c: Cache<T>, key: Hash, prevKey: Hash, val: T): Cache<T> {
    var e := Entry(key, prevKey, val, c.counter);
    Cache(Newest(if Clashes(c.entries, e) then c.entries else c.entries + [e], c.maxSize), c.maxSize, c.counter + 1)
  }

  // The cache and the answer after looking up `key`; `f` computes the value from the index entry.
  ghost function Looked<T>(c: Cache<T>, index: map<Hash, Index>, key: Hash, f: Index -> T)
    : (Cache<T>, Option<Found<T>>)
  {
    if Holds(c.entries, key) then (c, Cached(c.entries, key))
    else if key !in index then (c.(entries := Newest(c.entries, c.maxSize)), None)
    else
      var i := index[key];
      (Added(c, i.blockHash, i.node.prev, f(i)), Some(Found(i.blockHash, i.node.prev, f(i))))
  }

  // ---------- what a lookup means ----------

  // Every entry holds what would be computed now.
  ghost predicate Agrees<T>(es: seq<Entry<T>>, index: map<Hash, Index>, f: Index -> T) {
    forall i :: 0 <= i < |es| ==>
      es[i].key in index && es[i].prevKey == index[es[i].key].node.prev && es[i].val == f(index[es[i].key])
  }

  ghost predicate KeyedByHash(index: map<Hash, Index>) { forall h :: h in index ==> index[h].blockHash == h }

  lemma EvictingKeeps<T>(c: Cache<T>)
    requires Valid(c)
    ensures Valid(c.(entries := Newest(c.entries, c.maxSize)))
    ensures forall e :: e in Newest(c.entries, c.maxSize) ==> e in c.entries
  {
  }

  // A new entry that clashes with none can go behind them.
  lemma AppendingKeeps<T>(c: Cache<T>, e: Entry<T>)
    requires Valid(c) && e.order == c.counter && !Clashes(c.entries, e)
    ensures Valid(Cache(c.entries + [e], c.maxSize, c.counter + 1))
  {
    var es := c.entries + [e];
    forall i, j | 0 <= i < j < |es|
      ensures es[i].key != es[j].key && es[i].prevKey != es[j].prevKey && es[i].order < es[j].order
    {
      assert es[i] == c.entries[i] && !Clash(c.entries[i], e);
      if j < |c.entries| {
        assert es[j] == c.entries[j];
      }
    }
  }

  lemma CountingKeeps<T>(c: Cache<T>)
    requires Valid(c)
    ensures Valid(c.(counter := c.counter + 1))
  {
  }

  lemma AddingKeeps<T>(c: Cache<T>, key: Hash, prevKey: Hash, val: T)
    requires Valid(c)
    ensures Valid(Added(c, key, prevKey, val)) && |Added(c, key, prevKey, val).entries| <= c.maxSize
    ensures forall e :: e in Added(c, key, prevKey, val).entries ==>
              e in c.entries || e == Entry(key, prevKey, val, c.counter)
  {
    hide Valid, Clashes, Newest;
    var e := Entry(key, prevKey, val, c.counter);
    var es := if Clashes(c.entries, e) then c.entries else c.entries + [e];
    if Clashes(c.entries, e) {
      CountingKeeps(c);
    } else {
      AppendingKeeps(c, e);
    }
    NewestIs(es, c.maxSize);
    EvictingKeeps(Cache(es, c.maxSize, c.counter + 1));
  }

  lemma EmptyIsValid<T>(c: Cache<T>)
    requires c.entries == []
    ensures Valid(c)
  {
  }

  // An entry that shares no block and no predecessor with those held is the newest one afterwards.
  lemma AddingTakes<T>(c: Cache<T>, key: Hash, prevKey: Hash, val: T)
    requires Valid(c) && c.maxSize > 0
    requires forall i :: 0 <= i < |c.entries| ==> c.entries[i].key != key && c.entries[i].prevKey != prevKey
    ensures var es := Added(c, key, prevKey, val).entries;
            |es| > 0 && es[|es| - 1] == Entry(key, prevKey, val, c.counter)
  {
  }

  // The entries stay unique in every way, whatever is looked up.
  lemma LookupKeepsValid<T>(c: Cache<T>, index: map<Hash, Index>, key: Hash, f: Index -> T)
    requires Valid(c)
    ensures Valid(Looked(c, index, key, f).0)
  {
    hide Added, Newest, Valid;
    EvictingKeeps(c);
    if !Holds(c.entries, key) && key in index {
      AddingKeeps(c, index[key].blockHash, index[key].node.prev, f(index[key]));
    }
  }

  // While the cache agrees with the index, a lookup answers what the index says, and the cache
  // goes on agreeing: neither a refused insertion nor an eviction can change an answer.
  lemma LookupIsTransparent<T>(c: Cache<T>, index: map<Hash, Index>, key: Hash, f: Index -> T)
    requires Valid(c) && KeyedByHash(index) && Agrees(c.entries, index, f)
    ensures var (c', r) := Looked(c, index, key, f);
            && r == (if key in index then Some(Found(key, index[key].node.prev, f(index[key]))) else None)
            && Valid(c') && Agrees(c'.entries, index, f)
            && c'.maxSize == c.maxSize
            && (!Holds(c.entries, key) ==> |c'.entries| <= c.maxSize)
            && (forall k :: Holds(c'.entries, k) ==> Holds(c.entries, k) || (k == key && key in index))
  {
    var (c', r) := Looked(c, index, key, f);
    if !Holds(c.entries, key) {
      if key in index {
        AddingKeeps(c, key, index[key].node.prev, f(index[key]));
      } else {
        EvictingKeeps(c);
      }
      forall i | 0 <= i < |c'.entries|
        ensures || c'.entries[i] in c.entries
                || (key in index && c'.entries[i] == Entry(key, index[key].node.prev, f(index[key]), c.counter))
      {
        assert c'.entries[i] in c'.entries;
      }
    }
  }

  // ---------- the cache object ----------

  class BlockIndexLRUCache<T(0)> {
    var entries: seq<Entry<T>>
    var maxCacheSize: nat
    var counter: nat
    var extractor: Index -> T

    ghost function Contents(): Cache<T>
      reads this
    {
      Cache(entries, maxCacheSize, counter)
    }

    constructor (cacheSize: nat, f: Index -> T)
      ensures Contents() == Cache([], cacheSize, 0) && extractor == f
    {
      entries, maxCacheSize, counter, extractor := [], cacheSize, 0, f;
    }

    method SetExtractor(f: Index -> T)
      modifies this
      ensures Contents() == old(Contents()) && extractor == f
    {
      extractor := f;
    }

    method UpdateCacheSize(newSize: nat)
      modifies this
      ensures Contents() == old(Contents()).(maxSize := newSize) && extractor == old(extractor)
    {
      maxCacheSize := newSize;
    }

    method Clear()
      modifies this
      ensures Contents() == old(Contents()).(entries := []) && extractor == old(extractor)
    {
      entries := [];
    }

    method PopOne()
      modifies this
      ensures Contents() == old(Contents()).(entries := if old(entries) == [] then [] else old(entries)[1..])
      ensures extractor == old(extractor)
    {
      if entries == [] {
        return;
      }
      entries := entries[1..];
    }

    method Shrink()
      modifies this
      ensures Contents() == old(Contents()).(entries := Newest(old(entries), maxCacheSize))
      ensures extractor == old(extractor)
    {
      ghost var all, popped := entries, 0;
      while |entries| > maxCacheSize
        invariant maxCacheSize == old(maxCacheSize) && counter == old(counter) && extractor == old(extractor)
        invariant popped <= |all| && entries == all[popped..] && (popped > 0 ==> |entries| >= maxCacheSize)
      {
        PopOne();
        popped := popped + 1;
        assert entries == all[popped..];
      }
    }

    // The container takes an entry unless it clashes with one it has.
    method Insert(e: Entry<T>)
      modifies this
      ensures Contents() == if Clashes(old(entries), e) then old(Contents())
                            else old(Contents()).(entries := old(entries) + [e])
      ensures extractor == old(extractor)
    {
      if !Clashes(entries, e) {
        entries := entries + [e];
      }
    }

    method GetFromCache(key: Hash) returns (r: Option<Found<T>>)
      requires Valid(Contents())
      ensures r == Cached(entries, key)
    {
      if Holds(entries, key) {
        var i :| 0 <= i < |entries| && entries[i].key == key;
        OneValue(Contents(), i);
        return Some(Found(entries[i].key, entries[i].prevKey, entries[i].val));
      }
      return None;
    }

    method Get(db: Db, key: Hash) returns (r: Option<Found<T>>)
      requires Valid(Contents())
      modifies this
      ensures (Contents(), r) == Looked(old(Contents()), db.index, key, extractor)
      ensures extractor == old(extractor)
    {
      var fromCache := GetFromCache(key);
      if fromCache.Some? {
        return fromCache;
      }
      r := None;
      if key in db.index {
        var bi := db.index[key];
        r := Some(Found(bi.blockHash, bi.node.prev, extractor(bi)));
        counter := counter + 1;
        Insert(Entry(r.value.hash, r.value.prevHash, r.value.value, counter - 1));
      }
      Shrink();
    }

    method ManualAdd(bi: Index)
      modifies this
      ensures Contents() == Added(old(Contents()), bi.blockHash, bi.node.prev, extractor(bi))
      ensures extractor == old(extractor)
    {
      counter := counter + 1;
      Insert(Entry(bi.blockHash, bi.node.prev, extractor(bi), counter - 1));
      Shrink();
    }
  }
}
