/**
 The consistency check of the address manager, and what passing it means.
 */
module AddrCheck {
  import opened Sequences
  import opened AddrTables
  import opened AddrMan

  // ---------- what the check accepts ----------

  // A missing address reads as id 0, as the subscript of the source does.
  function Lookup(addrs: map<nat, Id>, ip: nat): Id { if ip in addrs then addrs[ip] else 0 }

  ghost predicate EntryChecked(i: Info, n: Id, addrs: map<nat, Id>, random: seq<Id>) {
    && CountOk(i) && StatsOk(i)
    && Lookup(addrs, i.addr.ip) == n
    && 0 <= i.randomPos < |random| && random[i.randomPos] == n
  }

  // All the ids in the tried buckets, bucket by bucket.
  ghost function Flat(tried: seq<seq<Id>>): seq<Id> {
    if tried == [] then [] else Flat(tried[..|tried| - 1]) + tried[|tried| - 1]
  }

  // How many new buckets should hold `n`.
  ghost function Due(info: map<Id, Info>, n: Id): int {
    if n in info && !info[n].inTried then info[n].refCount else 0
  }

  ghost predicate Checked(info: map<Id, Info>, addrs: map<nat, Id>, random: seq<Id>, nTried: int, tried: seq<seq<Id>>,
                          nNew: int, buckets: seq<set<Id>>) {
    && |random| == nTried + nNew
    && (forall n :: n in info ==> EntryChecked(info[n], n, addrs, random))
    && SizesOk(info, nTried, nNew)
    && NoDup(Flat(tried)) && (forall n :: n in Flat(tried) <==> n in TriedIds(info))
    && (forall n: Id :: Refs(buckets, n) == Due(info, n))
  }

  // ---------- the check ----------

  method CheckEntries(info: map<Id, Info>, addrs: map<nat, Id>, random: seq<Id>)
    returns (code: int, setTried: set<Id>, mapNew: map<Id, int>)
    ensures code == 0 <==> forall n :: n in info ==> EntryChecked(info[n], n, addrs, random)
    ensures code == 0 ==>
              && setTried == TriedIds(info) && mapNew.Keys == NewIds(info)
              && forall n :: n in mapNew ==> mapNew[n] == info[n].refCount
  {
    var rest := info.Keys;
    setTried, mapNew := {}, map[];
    while rest != {}
      invariant rest <= info.Keys
      invariant forall n :: n in info && n !in rest ==> EntryChecked(info[n], n, addrs, random)
      invariant forall n :: n in setTried <==> n in info && n !in rest && info[n].inTried
      invariant forall n :: n in mapNew <==> n in info && n !in rest && !info[n].inTried
      invariant forall n :: n in mapNew ==> mapNew[n] == info[n].refCount
      decreases rest
    {
      var n := AddrMan.Least(rest);
      var i := info[n];
      if i.inTried {
        if i.lastSuccess == 0 { return -1, setTried, mapNew; }
        if i.refCount != 0 { return -2, setTried, mapNew; }
        setTried := setTried + {n};
      } else {
        if i.refCount < 0 || i.refCount > NEW_BUCKETS_PER_ADDRESS { return -3, setTried, mapNew; }
        if i.refCount == 0 { return -4, setTried, mapNew; }
        mapNew := mapNew[n := i.refCount];
      }
      if Lookup(addrs, i.addr.ip) != n { return -5, setTried, mapNew; }
      if i.randomPos < 0 || i.randomPos >= |random| || random[i.randomPos] != n { return -14, setTried, mapNew; }
      if i.lastTry < 0 { return -6, setTried, mapNew; }
      if i.lastSuccess < 0 { return -8, setTried, mapNew; }
      rest := rest - {n};
    }
    code := 0;
  }

  lemma FlatStep(tried: seq<seq<Id>>, b: nat)
    requires b < |tried|
    ensures Flat(tried[..b + 1]) == Flat(tried[..b]) + tried[b]
  {
    assert tried[..b + 1][..b] == tried[..b];
  }

  lemma {:induction false} FlatPrefix(tried: seq<seq<Id>>, b: nat)
    requires b <= |tried|
    ensures Flat(tried[..b]) <= Flat(tried)
    decreases |tried|
  {
    if b < |tried| {
      assert tried[..|tried| - 1][..b] == tried[..b];
      FlatPrefix(tried[..|tried| - 1], b);
    } else {
      assert tried[..b] == tried;
    }
  }

  // Ticks off every id found in a tried bucket.
  method CheckTried(tried: seq<seq<Id>>, ids: set<Id>) returns (code: int, left: set<Id>)
    ensures code == 0 || code == -11
    ensures code == 0 <==> NoDup(Flat(tried)) && forall n :: n in Flat(tried) ==> n in ids
    ensures code == 0 ==> forall n :: n in left <==> n in ids && n !in Flat(tried)
  {
    left := ids;
    for b := 0 to |tried|
      invariant NoDup(Flat(tried[..b])) && forall n :: n in Flat(tried[..b]) ==> n in ids
      invariant forall n :: n in left <==> n in ids && n !in Flat(tried[..b])
    {
      ghost var done := Flat(tried[..b]);
      FlatStep(tried, b);
      FlatPrefix(tried, b + 1);
      for i := 0 to |tried[b]|
        invariant NoDup(done + tried[b][..i]) && forall n :: n in done + tried[b][..i] ==> n in ids
        invariant forall n :: n in left <==> n in ids && n !in done + tried[b][..i]
      {
        ghost var seen, all := done + tried[b][..i], Flat(tried);
        assert seen + [tried[b][i]] == done + tried[b][..i + 1];
        assert all[|seen|] == tried[b][i] && all[..|seen|] == seen;
        if tried[b][i] !in left {
          if tried[b][i] in seen {
            assert tried[b][i] in all[..|seen|];
          }
          return -11, left;
        }
        left := left - {tried[b][i]};
      }
      assert tried[b][..|tried[b]|] == tried[b];
    }
    assert tried[..|tried|] == tried;
    code := 0;
  }

  // In how many of the first `b` buckets, and of the seen part of the next one, `n` is.
  ghost function SeenRefs(buckets: seq<set<Id>>, b: nat, seen: set<Id>, n: Id): nat
    requires b <= |buckets|
  {
    Refs(buckets[..b], n) + if n in seen then 1 else 0
  }

  lemma {:induction false} SeenAtMost(buckets: seq<set<Id>>, b: nat, n: Id)
    requires b <= |buckets|
    ensures Refs(buckets[..b], n) + (if b < |buckets| && n in buckets[b] then 1 else 0) <= Refs(buckets, n)
    ensures b < |buckets| ==> Refs(buckets[..b + 1], n) == Refs(buckets[..b], n) + if n in buckets[b] then 1 else 0
    decreases |buckets|
  {
    if b < |buckets| {
      assert buckets[..b + 1][..b] == buckets[..b];
      if b + 1 < |buckets| {
        assert buckets[..|buckets| - 1][..b] == buckets[..b];
        SeenAtMost(buckets[..|buckets| - 1], b, n);
      } else {
        assert buckets[..b + 1] == buckets;
      }
    } else {
      assert buckets[..b] == buckets;
    }
  }

  // What the countdown map holds once every id has been met `SeenRefs` times.
  ghost predicate CountsDown(info: map<Id, Info>, buckets: seq<set<Id>>, b: nat, seen: set<Id>, left: map<Id, int>)
    requires b <= |buckets|
  {
    && (forall n: Id :: SeenRefs(buckets, b, seen, n) <= Due(info, n))
    && (forall n: Id :: n in left <==> SeenRefs(buckets, b, seen, n) < Due(info, n))
    && (forall n :: n in left ==> left[n] == Due(info, n) - SeenRefs(buckets, b, seen, n))
  }

  lemma CountNext(info: map<Id, Info>, buckets: seq<set<Id>>, b: nat, seen: set<Id>, left: map<Id, int>, n: Id)
    requires b < |buckets| && CountsDown(info, buckets, b, seen, left) && n !in seen && n in left
    ensures CountsDown(info, buckets, b, seen + {n}, if left[n] == 1 then left - {n} else left[n := left[n] - 1])
  {
    hide Refs, Due;
    forall m: Id
      ensures SeenRefs(buckets, b, seen + {n}, m) == SeenRefs(buckets, b, seen, m) + if m == n then 1 else 0
    {
    }
  }

  lemma CountBucket(info: map<Id, Info>, buckets: seq<set<Id>>, b: nat, left: map<Id, int>)
    requires b < |buckets| && CountsDown(info, buckets, b, buckets[b], left)
    ensures CountsDown(info, buckets, b + 1, {}, left)
  {
    forall n: Id ensures SeenRefs(buckets, b + 1, {}, n) == SeenRefs(buckets, b, buckets[b], n) {
      SeenAtMost(buckets, b, n);
    }
    hide SeenRefs;
  }

  // Counts every id found in a new bucket down from its reference count.
  method CheckNew(ghost info: map<Id, Info>, buckets: seq<set<Id>>, counts: map<Id, int>)
    returns (code: int, left: map<Id, int>)
    requires counts.Keys == NewIds(info) && forall n :: n in counts ==> counts[n] == info[n].refCount >= 1
    ensures code == 0 || code == -12
    ensures code == 0 ==> ((left == map[]) <==> forall n: Id :: Refs(buckets, n) == Due(info, n))
    ensures code != 0 ==> exists n: Id :: Refs(buckets, n) != Due(info, n)
  {
    hide Refs;
    left := counts;
    assert buckets[..0] == [];
    StartCount(info, buckets, left);
    for b := 0 to |buckets|
      invariant CountsDown(info, buckets, b, {}, left)
    {
      var rest := buckets[b];
      assert buckets[b] - rest == {};
      while rest != {}
        invariant rest <= buckets[b] && CountsDown(info, buckets, b, buckets[b] - rest, left)
        decreases rest
      {
        var n := AddrMan.Least(rest);
        if n !in left {
          SeenAtMost(buckets, b, n);
          assert SeenRefs(buckets, b, buckets[b] - rest, n) >= Due(info, n);
          assert Refs(buckets, n) != Due(info, n);
          return -12, left;
        }
        CountNext(info, buckets, b, buckets[b] - rest, left, n);
        left := if left[n] == 1 then left - {n} else left[n := left[n] - 1];
        assert buckets[b] - rest + {n} == buckets[b] - (rest - {n});
        rest := rest - {n};
      }
      assert buckets[b] - rest == buckets[b];
      CountBucket(info, buckets, b, left);
    }
    assert buckets[..|buckets|] == buckets;
    EndCount(info, buckets, left);
    code := 0;
  }

  lemma StartCount(info: map<Id, Info>, buckets: seq<set<Id>>, left: map<Id, int>)
    requires left.Keys == NewIds(info) && forall n :: n in left ==> left[n] == info[n].refCount >= 1
    ensures CountsDown(info, buckets, 0, {}, left)
  {
    assert buckets[..0] == [];
  }

  lemma EndCount(info: map<Id, Info>, buckets: seq<set<Id>>, left: map<Id, int>)
    requires CountsDown(info, buckets, |buckets|, {}, left)
    ensures left == map[] <==> forall n: Id :: Refs(buckets, n) == Due(info, n)
  {
    assert buckets[..|buckets|] == buckets;
    hide Refs;
    if left == map[] {
      forall n: Id ensures Refs(buckets, n) == Due(info, n) {
        assert n !in left;
        assert SeenRefs(buckets, |buckets|, {}, n) == Refs(buckets, n);
      }
    } else {
      var n :| n in left;
      assert SeenRefs(buckets, |buckets|, {}, n) == Refs(buckets, n);
    }
  }

  // The whole check, with the error codes of the source.
  method Check(info: map<Id, Info>, addrs: map<nat, Id>, random: seq<Id>, nTried: int, tried: seq<seq<Id>>,
               nNew: int, buckets: seq<set<Id>>) returns (code: int)
    ensures code == 0 <==> Checked(info, addrs, random, nTried, tried, nNew, buckets)
  {
    hide Refs, Flat, EntryChecked;
    if |random| != nTried + nNew { return -7; }
    var c, setTried, mapNew := CheckEntries(info, addrs, random);
    if c != 0 { return c; }
    if |setTried| != nTried { return -9; }
    if |mapNew| != nNew { return -10; }
    assert |mapNew| == |mapNew.Keys|;
    var c1, leftTried := CheckTried(tried, setTried);
    if c1 != 0 { return c1; }
    CountsPositive(info, addrs, random);
    var c2, leftNew := CheckNew(info, buckets, mapNew);
    if c2 != 0 { return c2; }
    if |leftTried| != 0 {
      assert exists n :: n in leftTried by { NonEmpty(leftTried); }
      return -13;
    }
    assert leftTried == {};
    if |leftNew| != 0 {
      assert leftNew != map[];
      return -15;
    }
    assert leftNew == map[] by { EmptyMap(leftNew); }
    return 0;
  }

  lemma CountsPositive(info: map<Id, Info>, addrs: map<nat, Id>, random: seq<Id>)
    requires forall n :: n in info ==> EntryChecked(info[n], n, addrs, random)
    ensures forall n :: n in NewIds(info) ==> info[n].refCount >= 1
  {
  }

  lemma NonEmpty(s: set<Id>)
    requires |s| != 0
    ensures exists n :: n in s
  {
  }

  lemma EmptyMap(m: map<Id, int>)
    requires |m| == 0
    ensures m == map[]
  {
    assert m.Keys == {};
  }

  // ---------- every reachable manager passes ----------

  lemma {:induction false} FlatIs(tried: seq<seq<Id>>, n: Id)
    ensures n in Flat(tried) <==> exists b :: 0 <= b < |tried| && n in tried[b]
  {
    if tried != [] {
      var m := |tried| - 1;
      FlatIs(tried[..m], n);
      if n in Flat(tried[..m]) {
        var b :| 0 <= b < m && n in tried[..m][b];
        assert n in tried[b];
      }
      if b :| 0 <= b < |tried| && n in tried[b] {
        if b < m { assert n in tried[..m][b]; }
      }
    }
  }

  lemma {:induction false} FlatNoDup(k: Key, info: map<Id, Info>, tried: seq<seq<Id>>, m: nat)
    requires TriedOk(k, info, tried) && m <= |tried|
    ensures NoDup(Flat(tried[..m]))
  {
    if m > 0 {
      FlatNoDup(k, info, tried, m - 1);
      FlatStep(tried, m - 1);
      var init, last := Flat(tried[..m - 1]), tried[m - 1];
      forall i, j | 0 <= i < |init| && 0 <= j < |last| ensures init[i] != last[j] {
        assert InTriedAt(k, info, tried[m - 1][j], m - 1);
        FlatIs(tried[..m - 1], init[i]);
        var b :| 0 <= b < m - 1 && init[i] in tried[..m - 1][b];
        var x :| 0 <= x < |tried[b]| && tried[b][x] == init[i];
        assert InTriedAt(k, info, tried[b][x], b);
      }
    }
  }

  // The invariant that every operation of the address manager keeps implies what its own
  // consistency check looks for.
  lemma ValidPassesCheck(k: Key, t: Tables)
    requires TablesOk(k, t)
    ensures Checked(t.info, t.addrs, t.random, t.nTried, t.tried, t.nNew, t.buckets)
  {
    hide Refs, Flat;
    RandomSize(t.info, t.random);
    SizesPartition(t.info);
    FlatNoDup(k, t.info, t.tried, |t.tried|);
    assert t.tried[..|t.tried|] == t.tried;
    forall n: Id ensures n in Flat(t.tried) <==> n in TriedIds(t.info) {
      FlatIs(t.tried, n);
      if b :| 0 <= b < |t.tried| && n in t.tried[b] {
        var i :| 0 <= i < |t.tried[b]| && t.tried[b][i] == n;
        assert InTriedAt(k, t.info, t.tried[b][i], b);
      }
    }
    forall n: Id ensures Refs(t.buckets, n) == Due(t.info, n) {
      if n !in t.info || t.info[n].inTried {
        RefsZero(t.buckets, n);
      }
    }
  }
}
