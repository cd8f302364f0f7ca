/**
 Median time past: the middle one of the last eleven block times, the genesis block being
 counted again and again on a short chain.
 */
module MedianTime {
  import opened Wrappers
  import opened BlockTree
  import opened ChainState
  import opened Sorting
  import LruCache

  const SPAN := 11

  // The block `k` steps below `h`, or the genesis block.
  function Back(t: Tree, genesis: Hash, h: Hash, k: nat): (b: Hash)
    requires WellFormed(t, genesis) && h in t
    ensures b in t
    decreases k
  {
    if k == 0 then h
    else if h == genesis then genesis
    else assert LinkedBack(t, h); Back(t, genesis, t[h].prev, k - 1)
  }

  // One more step at the lower end.
  lemma {:induction false} BackStep(t: Tree, genesis: Hash, h: Hash, k: nat)
    requires WellFormed(t, genesis) && h in t
    ensures var b := Back(t, genesis, h, k);
            Back(t, genesis, h, k + 1) == if b == genesis then genesis else t[b].prev
    decreases k
  {
    if k > 0 && h != genesis {
      assert LinkedBack(t, h);
      BackStep(t, genesis, t[h].prev, k - 1);
    }
  }

  // It is found on the path of `h`.
  lemma {:induction false} BackOnPath(t: Tree, genesis: Hash, h: Hash, k: nat)
    requires WellFormed(t, genesis) && h in t
    ensures Back(t, genesis, h, k) == Path(t, genesis, h)[if k <= t[h].height then t[h].height - k else 0]
    decreases k
  {
    if k > 0 && h != genesis {
      hide WellFormed, Path;
      OneStep(t, genesis, h);
      BackOnPath(t, genesis, t[h].prev, k - 1);
    }
  }

  // The last eleven times, oldest first.
  function Samples(t: Tree, genesis: Hash, h: Hash): (s: seq<int>)
    requires WellFormed(t, genesis) && h in t
    ensures |s| == SPAN
  {
    hide Back, WellFormed;
    seq(SPAN, i requires 0 <= i < SPAN => t[Back(t, genesis, h, SPAN - 1 - i)].head.time)
  }

  // ---------- the middle ----------

  function Below(s: seq<int>, x: int): nat {
    if s == [] then 0 else Below(s[..|s| - 1], x) + if s[|s| - 1] < x then 1 else 0
  }

  function Above(s: seq<int>, x: int): nat {
    if s == [] then 0 else Above(s[..|s| - 1], x) + if s[|s| - 1] > x then 1 else 0
  }

  // Less than half of the values are below `m`, and less than half are above it.
  ghost predicate IsMedian(s: seq<int>, m: int) { m in s && 2 * Below(s, m) < |s| && 2 * Above(s, m) < |s| }

  lemma {:induction false} CountFirst(s: seq<int>, x: int)
    requires s != []
    ensures Below(s, x) == Below(s[1..], x) + if s[0] < x then 1 else 0
    ensures Above(s, x) == Above(s[1..], x) + if s[0] > x then 1 else 0
  {
    if |s| > 1 {
      CountFirst(s[..|s| - 1], x);
      assert s[..|s| - 1][1..] == s[1..][..|s| - 2];
    }
  }

  // Everything is at or above `x`, or below it; what is at or above `x` is above any smaller value.
  lemma {:induction false} AtLeastIsAbove(s: seq<int>, x: int, y: int)
    requires y < x
    ensures Above(s, y) >= |s| - Below(s, x)
  {
    if s != [] {
      AtLeastIsAbove(s[..|s| - 1], x, y);
    }
  }

  lemma MedianIsUnique(s: seq<int>, m: int, n: int)
    requires IsMedian(s, m) && IsMedian(s, n)
    ensures m == n
  {
    if m < n {
      AtLeastIsAbove(s, n, m);
    } else if n < m {
      AtLeastIsAbove(s, m, n);
    }
  }

  // Dropping the first value and appending one above the median does not lower the median.
  lemma SlidingUp(s: seq<int>, x: int, m: int, m': int)
    requires |s| > 0 && IsMedian(s, m) && x > m && IsMedian(s[1..] + [x], m')
    ensures m <= m'
  {
    var r := s[1..] + [x];
    assert r[..|r| - 1] == s[1..];
    CountFirst(s, m);
    assert Below(r, m) <= Below(s, m);
    if m' < m {
      AtLeastIsAbove(r, m, m');
    }
  }

  // ---------- sorting ----------

  predicate Lower(a: int, b: int) { a < b }

  lemma CountLast(s: seq<int>, x: int, y: int)
    ensures Below(s + [x], y) == Below(s, y) + if x < y then 1 else 0
    ensures Above(s + [x], y) == Above(s, y) + if x > y then 1 else 0
  {
    assert (s + [x])[..|s|] == s;
  }

  lemma {:induction false} InsertedCounts(s: seq<int>, x: int, y: int)
    ensures Below(Inserted(Lower, s, x), y) == Below(s, y) + if x < y then 1 else 0
    ensures Above(Inserted(Lower, s, x), y) == Above(s, y) + if x > y then 1 else 0
  {
    hide Below, Above;
    CountLast(s, x, y);
    if s != [] && s[|s| - 1] > x {
      var front, last := s[..|s| - 1], s[|s| - 1];
      assert s == front + [last];
      InsertedCounts(front, x, y);
      CountLast(front, last, y);
      CountLast(Inserted(Lower, front, x), last, y);
    }
  }

  lemma {:induction false} SortCounts(s: seq<int>, y: int)
    ensures Below(Sort(Lower, s), y) == Below(s, y) && Above(Sort(Lower, s), y) == Above(s, y)
  {
    hide Inserted;
    if s != [] {
      SortCounts(s[..|s| - 1], y);
      InsertedCounts(Sort(Lower, s[..|s| - 1]), s[|s| - 1], y);
    }
  }

  // In a sorted list, only what stands before a value can be below it.
  lemma {:induction false} CountsInSorted(s: seq<int>, k: nat)
    requires Sorted(Lower, s) && k < |s|
    ensures Below(s, s[k]) <= k && Above(s, s[k]) <= |s| - 1 - k
    decreases |s|
  {
    var front := s[..|s| - 1];
    if k < |front| {
      CountsInSorted(front, k);
    } else {
      AtMost(front, s[k]);
    }
  }

  lemma {:induction false} AtMost(s: seq<int>, x: int)
    requires forall i :: 0 <= i < |s| ==> s[i] <= x
    ensures Below(s, x) <= |s| && Above(s, x) == 0
  {
    if s != [] {
      AtMost(s[..|s| - 1], x);
    }
  }

  lemma MiddleIsMedian(s: seq<int>)
    requires |s| % 2 == 1
    ensures IsMedian(s, Sort(Lower, s)[|s| / 2])
  {
    hide Sort;
    var m := Sort(Lower, s)[|s| / 2];
    SortCounts(s, m);
    SortSorted(Lower, s);
    CountsInSorted(Sort(Lower, s), |s| / 2);
    assert m in multiset(Sort(Lower, s));
  }

  // ---------- the method ----------

  function BlockTime(): Index -> int { (i: Index) => i.node.head.time }

  // The cache of block times is right for the index.
  ghost predicate TimesRight(c: LruCache.Cache<int>, index: map<Hash, Index>) {
    LruCache.Valid(c) && LruCache.Agrees(c.entries, index, BlockTime())
  }

  method GetMedianTimePast(db: Db, bi: Index, cache: LruCache.BlockIndexLRUCache<int>, ghost s: State)
    returns (median: int)
    requires Stores(db, s) && bi.blockHash in s.tree && bi.node == s.tree[bi.blockHash]
    requires cache.extractor == BlockTime() && TimesRight(cache.Contents(), db.index)
    modifies cache
    ensures bi.blockHash in s.tree && WellFormed(s.tree, s.genesis)
    ensures IsMedian(Samples(s.tree, s.genesis, bi.blockHash), median)
    ensures cache.extractor == BlockTime() && TimesRight(cache.Contents(), db.index)
  {
    hide Stores, WellFormed, Inv, IsMedian, LruCache.Valid, LruCache.Agrees, LruCache.Looked, LruCache.Added, Back;
    hide NextOn;
    ghost var h := bi.blockHash;
    StoredEntry(db, s, h);
    var pmedian := new int[SPAN];
    var pbegin := SPAN;
    var currHash := bi.blockHash;
    AddedTimes(db, s, cache.Contents(), bi);
    cache.ManualAdd(bi);
    BackZero(s, h);
    for i := 0 to SPAN
      invariant fresh(pmedian) && pbegin == SPAN - i && currHash == Back(s.tree, s.genesis, h, i)
      invariant cache.extractor == BlockTime() && TimesRight(cache.Contents(), db.index)
      invariant forall j :: pbegin <= j < SPAN ==>
                  pmedian[j] == s.tree[Back(s.tree, s.genesis, h, SPAN - 1 - j)].head.time
    {
      StoredTime(db, s, cache.Contents(), currHash);
      BackStep(s.tree, s.genesis, h, i);
      StoredEntry(db, s, currHash);
      var blockTime := cache.Get(db, currHash);
      pbegin := pbegin - 1;
      pmedian[pbegin] := blockTime.value.value;
      if blockTime.value.prevHash != 0 {
        currHash := blockTime.value.prevHash;
      }
    }
    assert pmedian[..] == Samples(s.tree, s.genesis, h);
    MiddleIsMedian(pmedian[..]);
    median := Sort(Lower, pmedian[pbegin..])[(SPAN - pbegin) / 2];
    assert pmedian[0..] == pmedian[..];
  }

  lemma BackZero(s: State, h: Hash)
    requires Inv(s) && h in s.tree
    ensures Back(s.tree, s.genesis, h, 0) == h
  {
  }

  lemma KeyedIndex(db: Db, s: State)
    requires Stores(db, s)
    ensures LruCache.KeyedByHash(db.index)
  {
  }

  lemma AddedTimes(db: Db, s: State, c: LruCache.Cache<int>, bi: Index)
    requires Stores(db, s) && bi.blockHash in s.tree && bi.node == s.tree[bi.blockHash] && TimesRight(c, db.index)
    ensures TimesRight(LruCache.Added(c, bi.blockHash, bi.node.prev, BlockTime()(bi)), db.index)
  {
    hide Stores, LruCache.Valid, LruCache.Added, NextOn;
    StoredEntry(db, s, bi.blockHash);
    var time := BlockTime()(bi);
    LruCache.AddingKeeps(c, bi.blockHash, bi.node.prev, time);
    var es := LruCache.Added(c, bi.blockHash, bi.node.prev, time).entries;
    forall i | 0 <= i < |es|
      ensures es[i] in c.entries || es[i] == LruCache.Entry(bi.blockHash, bi.node.prev, time, c.counter)
    {
      assert es[i] in es;
    }
  }

  lemma StoredTime(db: Db, s: State, c: LruCache.Cache<int>, h: Hash)
    requires Stores(db, s) && h in s.tree && TimesRight(c, db.index)
    ensures var (c', r) := LruCache.Looked(c, db.index, h, BlockTime());
            && r == Some(LruCache.Found(h, s.tree[h].prev, s.tree[h].head.time as int)) && TimesRight(c', db.index)
  {
    hide Stores, LruCache.Valid, LruCache.Looked, LruCache.Agrees, NextOn;
    StoredEntry(db, s, h);
    KeyedIndex(db, s);
    LruCache.LookupIsTransparent(c, db.index, h, BlockTime());
  }

  // ---------- along a chain ----------

  function Median(t: Tree, genesis: Hash, h: Hash): int
    requires WellFormed(t, genesis) && h in t
  {
    Sort(Lower, Samples(t, genesis, h))[SPAN / 2]
  }

  // The time rule of `AcceptBlock`; `drift` is what `FutureDrift` adds.
  predicate PassesTimeRule(t: Tree, genesis: Hash, h: Hash, drift: int)
    requires WellFormed(t, genesis) && h in t && h != genesis && t[h].prev in t
  {
    !(t[h].head.time <= Median(t, genesis, t[h].prev) || t[h].head.time + drift < t[t[h].prev].head.time)
  }

  lemma BackOfPrev(t: Tree, genesis: Hash, h: Hash, k: nat)
    requires WellFormed(t, genesis) && h in t && h != genesis && t[h].prev in t
    ensures Back(t, genesis, h, k + 1) == Back(t, genesis, t[h].prev, k)
    ensures Back(t, genesis, h, 0) == h
  {
  }

  lemma MedianStep(t: Tree, genesis: Hash, h: Hash)
    requires WellFormed(t, genesis) && h in t && h != genesis
    ensures t[h].prev in t
    ensures t[h].head.time > Median(t, genesis, t[h].prev) ==> Median(t, genesis, t[h].prev) <= Median(t, genesis, h)
  {
    hide IsMedian, Sort;
    assert LinkedBack(t, h);
    var a, b := Samples(t, genesis, t[h].prev), Samples(t, genesis, h);
    forall i | 0 <= i < SPAN - 1 ensures b[i] == a[i + 1] {
      BackOfPrev(t, genesis, h, SPAN - 2 - i);
    }
    assert b[SPAN - 1] == t[Back(t, genesis, h, 0)].head.time == t[h].head.time;
    assert a[1..] + [t[h].head.time as int] == b;
    MiddleIsMedian(a);
    MiddleIsMedian(b);
    if t[h].head.time > Median(t, genesis, t[h].prev) {
      SlidingUp(a, t[h].head.time, Median(t, genesis, t[h].prev), Median(t, genesis, h));
    }
  }

  // Along every chain whose blocks passed the time rule, median time past never decreases.
  lemma {:induction false} MedianNeverFalls(t: Tree, genesis: Hash, h: Hash, drift: int, i: nat, j: nat)
    requires WellFormed(t, genesis) && h in t && i <= j <= t[h].height
    requires forall x :: x in Path(t, genesis, h) && x in t && x != genesis && t[x].prev in t ==>
               PassesTimeRule(t, genesis, x, drift)
    ensures var p := Path(t, genesis, h); Median(t, genesis, p[i]) <= Median(t, genesis, p[j])
    decreases j - i
  {
    hide Median, Path, WellFormed;
    var p := Path(t, genesis, h);
    if i < j {
      MedianNeverFalls(t, genesis, h, drift, i, j - 1);
      PathSteps(t, genesis, h, j - 1);
      NotGenesis(t, genesis, p[j]);
      assert p[j] in p;
      assert PassesTimeRule(t, genesis, p[j], drift);
      MedianStep(t, genesis, p[j]);
    }
  }

  lemma NotGenesis(t: Tree, genesis: Hash, h: Hash)
    requires WellFormed(t, genesis) && h in t && t[h].height > 0
    ensures h != genesis
  {
  }
}
