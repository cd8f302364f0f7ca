/**
 The address manager: six cross-linked structures that every operation has to keep in step.

 Random draws are nondeterministic, the clock is a parameter.
 */
module AddrMan {
  import opened Sequences
  import opened AddrTables

  method GetRandInt(max: nat) returns (r: nat)
    ensures if max == 0 then r == 0 else r < max
  {
    if max == 0 {
      return 0;
    }
    r :| 0 <= r < max;
  }

  // `b` differs from `a` in the positions stored with the entries only.
  ghost predicate MovedOnly(a: map<Id, Info>, b: map<Id, Info>) {
    a.Keys == b.Keys && forall n :: n in a ==> b[n] == a[n].(randomPos := b[n].randomPos)
  }

  // `b` differs from `a` in statistics only: every link is the same.
  ghost predicate SameLinks(a: map<Id, Info>, b: map<Id, Info>) {
    && a.Keys == b.Keys
    && forall n :: n in a ==> && a[n].addr.ip == b[n].addr.ip && a[n].addr.port == b[n].addr.port
                              && a[n].refCount == b[n].refCount && a[n].inTried == b[n].inTried
  }

  lemma LinksKept(k: Key, a: map<Id, Info>, b: map<Id, Info>, addrs: map<nat, Id>, tried: seq<seq<Id>>,
                  buckets: seq<set<Id>>, ahead: set<Id>, nTried: int, nNew: int)
    requires SameLinks(a, b)
    ensures AddrsOk(a, addrs) ==> AddrsOk(b, addrs)
    ensures TriedOk(k, a, tried) ==> TriedOk(k, b, tried)
    ensures NewOk(a, buckets, ahead) ==> NewOk(b, buckets, ahead)
    ensures SizesOk(a, nTried, nNew) ==> SizesOk(b, nTried, nNew)
  {
    assert TriedIds(a) == TriedIds(b) && NewIds(a) == NewIds(b);
    if TriedOk(k, a, tried) {
      forall c, i | 0 <= c < |tried| && 0 <= i < |tried[c]| ensures InTriedAt(k, b, tried[c][i], c) {
        assert InTriedAt(k, a, tried[c][i], c);
      }
    }
  }

  lemma PopRandom(info: map<Id, Info>, random: seq<Id>, id: Id)
    requires RandomOk(info, random) && random != [] && random[|random| - 1] == id
    ensures RandomOk(info - {id}, random[..|random| - 1])
  {
  }

  lemma EraseAddr(info: map<Id, Info>, addrs: map<nat, Id>, id: Id)
    requires AddrsOk(info, addrs) && id in info
    ensures AddrsOk(info - {id}, addrs - {info[id].addr.ip})
  {
  }

  lemma MovedAddrs(a: map<Id, Info>, b: map<Id, Info>, addrs: map<nat, Id>)
    requires MovedOnly(a, b) && AddrsOk(a, addrs)
    ensures AddrsOk(b, addrs)
  {
  }

  // ---------- dropping a reference ----------

  lemma DropRef(info: map<Id, Info>, buckets: seq<set<Id>>, ahead: set<Id>, b: nat, id: Id)
    requires NewOk(info, buckets, ahead) && b < |buckets| && id in buckets[b]
    ensures NewOk(info[id := info[id].(refCount := info[id].refCount - 1)], buckets[b := buckets[b] - {id}], ahead)
  {
    var buckets' := buckets[b := buckets[b] - {id}];
    forall n | n in info ensures Refs(buckets', n) == Refs(buckets, n) - if n == id then 1 else 0 {
      RefsUpdate(buckets, b, buckets[b] - {id}, n);
    }
  }

  lemma DropUnreferenced(info: map<Id, Info>, buckets: seq<set<Id>>, ahead: set<Id>, id: Id)
    requires NewOk(info, buckets, ahead) && id in info && info[id].refCount == 0
    ensures NewOk(info - {id}, buckets, ahead)
  {
    RefsZero(buckets, id);
  }

  lemma DropFromTables(k: Key, info: map<Id, Info>, tried: seq<seq<Id>>, nTried: int, nNew: int, id: Id)
    requires TriedOk(k, info, tried) && SizesOk(info, nTried, nNew) && id in info && !info[id].inTried
    ensures TriedOk(k, info - {id}, tried) && SizesOk(info - {id}, nTried, nNew - 1)
  {
    var info' := info - {id};
    assert TriedIds(info') == TriedIds(info) && NewIds(info') == NewIds(info) - {id} && id in NewIds(info);
    forall c, i | 0 <= c < |tried| && 0 <= i < |tried[c]| ensures InTriedAt(k, info', tried[c][i], c) {
      assert InTriedAt(k, info, tried[c][i], c);
    }
  }

  // `b` has the same links as `a` up to the reference count of `id`.
  lemma RefCountKept(k: Key, a: map<Id, Info>, id: Id, count: int, random: seq<Id>, addrs: map<nat, Id>,
                     tried: seq<seq<Id>>, nTried: int, nNew: int)
    requires id in a && RandomOk(a, random) && AddrsOk(a, addrs) && TriedOk(k, a, tried) && SizesOk(a, nTried, nNew)
    ensures var b := a[id := a[id].(refCount := count)];
            RandomOk(b, random) && AddrsOk(b, addrs) && TriedOk(k, b, tried) && SizesOk(b, nTried, nNew)
  {
    var b := a[id := a[id].(refCount := count)];
    assert TriedIds(a) == TriedIds(b) && NewIds(a) == NewIds(b);
    forall c, i | 0 <= c < |tried| && 0 <= i < |tried[c]| ensures InTriedAt(k, b, tried[c][i], c) {
      assert InTriedAt(k, a, tried[c][i], c);
    }
  }

  lemma ReferencedIsNew(info: map<Id, Info>, buckets: seq<set<Id>>, ahead: set<Id>, next: nat, b: nat, id: Id)
    requires NewOk(info, buckets, ahead) && EntriesOk(info, next) && b < |buckets| && id in buckets[b]
    ensures id in info && !info[id].inTried && info[id].refCount >= 1
    ensures info[id].refCount > 1 ==> EntriesOk(info[id := info[id].(refCount := info[id].refCount - 1)], next)
  {
    RefsZero(buckets, id);
  }

  // What is left after the last reference to `id` is gone, whatever order `random` is in now.
  lemma DropEntry(k: Key, info: map<Id, Info>, left: map<Id, Info>, tried: seq<seq<Id>>, buckets: seq<set<Id>>,
                  ahead: set<Id>,
                  next: nat, nTried: int, nNew: int, id: Id)
    requires id in info && !info[id].inTried && info[id].refCount == 1 && EntriesOk(info, next)
    requires NewOk(info[id := info[id].(refCount := 0)], buckets, ahead)
    requires TriedOk(k, info, tried) && SizesOk(info, nTried, nNew)
    requires MovedOnly(info - {id}, left)
    ensures TriedOk(k, left, tried) && NewOk(left, buckets, ahead) && EntriesOk(left, next)
    ensures SizesOk(left, nTried, nNew - 1)
  {
    hide TriedOk, NewOk, SizesOk;
    DropUnreferenced(info[id := info[id].(refCount := 0)], buckets, ahead, id);
    assert info[id := info[id].(refCount := 0)] - {id} == info - {id};
    DropFromTables(k, info, tried, nTried, nNew, id);
    LinksKept(k, info - {id}, left, map[], tried, buckets, ahead, nTried, nNew - 1);
  }

  // ---------- the tried buckets ----------

  ghost predicate SameElements(s: seq<Id>, t: seq<Id>) {
    |s| == |t| && forall n :: n in s <==> n in t
  }

  lemma SwapElements(s: seq<Id>, i: nat, j: nat)
    requires i < |s| && j < |s| && NoDup(s)
    ensures NoDup(s[i := s[j]][j := s[i]]) && SameElements(s, s[i := s[j]][j := s[i]])
  {
    var t := s[i := s[j]][j := s[i]];
    forall n | n in s ensures n in t {
      var x :| 0 <= x < |s| && s[x] == n;
      assert t[if x == i then j else if x == j then i else x] == n;
    }
  }

  lemma ShuffleTried(k: Key, info: map<Id, Info>, tried: seq<seq<Id>>, b: nat, t: seq<Id>)
    requires TriedOk(k, info, tried) && b < |tried| && NoDup(t) && SameElements(tried[b], t)
    ensures TriedOk(k, info, tried[b := t])
  {
    var tried' := tried[b := t];
    forall c, i | 0 <= c < |tried'| && 0 <= i < |tried'[c]| ensures InTriedAt(k, info, tried'[c][i], c) {
      assert tried'[c][i] in tried[c];
    }
  }

  function Put(s: seq<Id>, pos: nat, id: Id): seq<Id>
    requires pos < |s|
  {
    s[pos := id]
  }

  // An unreferenced new entry enters its tried bucket.
  lemma Promote(k: Key, info: map<Id, Info>, tried: seq<seq<Id>>, nTried: int, nNew: int, id: Id)
    requires TriedOk(k, info, tried) && SizesOk(info, nTried, nNew) && id in info && !info[id].inTried
    requires |tried[TriedBucket(k, info[id].addr)]| < TRIED_BUCKET_SIZE
    ensures var b := TriedBucket(k, info[id].addr);
            var info' := info[id := info[id].(inTried := true)];
            TriedOk(k, info', tried[b := tried[b] + [id]]) && SizesOk(info', nTried + 1, nNew - 1)
  {
    var b := TriedBucket(k, info[id].addr);
    var info', tried' := info[id := info[id].(inTried := true)], tried[b := tried[b] + [id]];
    assert TriedIds(info') == TriedIds(info) + {id} && NewIds(info') == NewIds(info) - {id} && id in NewIds(info);
    NotInTried(k, info, tried, id);
    forall c, i | 0 <= c < |tried'| && 0 <= i < |tried'[c]| ensures InTriedAt(k, info', tried'[c][i], c) {
      if c != b || i < |tried[b]| {
        assert InTriedAt(k, info, tried[c][i], c);
      }
    }
    forall n | n in info' && info'[n].inTried ensures n in tried'[TriedBucket(k, info'[n].addr)] {
      if n == id { assert tried'[b][|tried[b]|] == id; }
    }
  }

  lemma NotInTried(k: Key, info: map<Id, Info>, tried: seq<seq<Id>>, id: Id)
    requires TriedOk(k, info, tried) && id in info && !info[id].inTried
    ensures forall c :: 0 <= c < |tried| ==> id !in tried[c]
  {
    forall c, i | 0 <= c < |tried| && 0 <= i < |tried[c]| ensures tried[c][i] != id {
      assert InTriedAt(k, info, tried[c][i], c);
    }
  }

  // An unreferenced new entry takes the place of a tried one, which becomes new again.
  lemma Replace(k: Key, info: map<Id, Info>, tried: seq<seq<Id>>, nTried: int, nNew: int, id: Id, pos: nat)
    requires TriedOk(k, info, tried) && SizesOk(info, nTried, nNew) && id in info && !info[id].inTried
    requires pos < |tried[TriedBucket(k, info[id].addr)]|
    ensures var b := TriedBucket(k, info[id].addr);
            var out := tried[b][pos];
            && out in info && out != id && info[out].inTried
            && var info' := info[out := info[out].(inTried := false, refCount := 1)][id := info[id].(inTried := true)];
               TriedOk(k, info', tried[b := Put(tried[b], pos, id)]) && SizesOk(info', nTried, nNew)
  {
    var b := TriedBucket(k, info[id].addr);
    var out := tried[b][pos];
    assert InTriedAt(k, info, out, b);
    var info' := info[out := info[out].(inTried := false, refCount := 1)][id := info[id].(inTried := true)];
    ReplaceSizes(info, info', out, id);
    NotInTried(k, info, tried, id);
    var tried' := tried[b := Put(tried[b], pos, id)];
    forall c, i | 0 <= c < |tried'| && 0 <= i < |tried'[c]| ensures InTriedAt(k, info', tried'[c][i], c) {
      assert InTriedAt(k, info, tried[c][i], c);
    }
    forall n | n in info' && info'[n].inTried ensures n in tried'[TriedBucket(k, info'[n].addr)] {
      if n == id {
        assert tried'[b][pos] == id;
      } else {
        var c := TriedBucket(k, info[n].addr);
        var i :| 0 <= i < |tried[c]| && tried[c][i] == n;
        assert tried'[c][i] == n;
      }
    }
  }

  lemma ReplaceSizes(info: map<Id, Info>, info': map<Id, Info>, out: Id, id: Id)
    requires out in info && id in info && out != id && info[out].inTried && !info[id].inTried
    requires info'.Keys == info.Keys && info'[id].inTried && !info'[out].inTried
    requires forall n :: n in info && n != id && n != out ==> info'[n].inTried == info[n].inTried
    ensures |TriedIds(info')| == |TriedIds(info)| && |NewIds(info')| == |NewIds(info)|
  {
    assert TriedIds(info') == TriedIds(info) - {out} + {id};
    assert NewIds(info') == NewIds(info) - {id} + {out};
  }

  // ---------- adding a reference ----------

  // An entry that is one reference ahead enters the bucket.
  lemma EnterBucket(info: map<Id, Info>, buckets: seq<set<Id>>, b: nat, id: Id)
    requires NewOk(info, buckets, {id}) && id in info && b < |buckets| && id !in buckets[b]
    requires |buckets[b]| < NEW_BUCKET_SIZE
    ensures NewOk(info, buckets[b := buckets[b] + {id}], {})
  {
    var buckets' := buckets[b := buckets[b] + {id}];
    forall n | n in info ensures Refs(buckets', n) == Refs(buckets, n) + if n == id then 1 else 0 {
      RefsUpdate(buckets, b, buckets[b] + {id}, n);
    }
  }

  // Giving an unreferenced entry a count of one puts it one ahead.
  lemma AheadOne(info: map<Id, Info>, info': map<Id, Info>, buckets: seq<set<Id>>, id: Id)
    requires NewOk(info, buckets, {}) && id in info && info'.Keys == info.Keys
    requires info'[id].refCount == info[id].refCount + 1
    requires forall n :: n in info && n != id ==> info'[n].refCount == info[n].refCount
    ensures NewOk(info', buckets, {id})
  {
  }

  // Changing `inTried` and `refCount` of entries touches neither the order nor the addresses.
  lemma OrderKept(a: map<Id, Info>, b: map<Id, Info>, random: seq<Id>, addrs: map<nat, Id>)
    requires RandomOk(a, random) && AddrsOk(a, addrs) && a.Keys == b.Keys
    requires forall n :: n in a ==> b[n].randomPos == a[n].randomPos && b[n].addr.ip == a[n].addr.ip
    ensures RandomOk(b, random) && AddrsOk(b, addrs)
  {
  }

  predicate IsLeast(ids: set<Id>, m: Id) { m in ids && forall n :: n in ids ==> m <= n }

  lemma {:induction false} LeastExists(ids: set<Id>, x: Id)
    requires x in ids
    ensures exists m :: m in ids && IsLeast(ids, m)
    decreases x
  {
    if y :| y in ids && y < x {
      LeastExists(ids, y);
    } else {
      assert IsLeast(ids, x);
    }
  }

  // `oldest` is the least recently seen of a sample of at most four.
  ghost predicate IsOldestOf(info: map<Id, Info>, bucket: set<Id>, sample: set<Id>, oldest: Id)
    requires bucket <= info.Keys
  {
    && oldest in sample && sample <= bucket && |sample| <= 4
    && forall n :: n in sample ==> info[oldest].addr.time <= info[n].addr.time
  }

  lemma SampleInBucket(info: map<Id, Info>, bucket: set<Id>, sample: set<Id>, oldest: Id)
    requires bucket <= info.Keys && IsOldestOf(info, bucket, sample, oldest)
    ensures oldest in bucket
  {
  }

  lemma Few(drawn: set<nat>, a: nat, b: nat, c: nat, d: nat)
    requires drawn <= {a, b, c, d}
    ensures |drawn| <= 4
  {
    var rest := drawn - {a} - {b} - {c} - {d};
    assert rest == {};
    assert |drawn| <= |drawn - {a}| + 1 && |drawn - {a}| <= |drawn - {a} - {b}| + 1;
    assert |drawn - {a} - {b}| <= |drawn - {a} - {b} - {c}| + 1 && |drawn - {a} - {b} - {c}| <= |rest| + 1;
  }

  // Every entry of `victims` has lost a reference, and with its last one its place.
  ghost predicate DroppedOne(a: map<Id, Info>, b: map<Id, Info>, victims: set<Id>) {
    && victims <= a.Keys
    && (forall n :: n in b <==> n in a && !(n in victims && a[n].refCount <= 1))
    && forall n :: n in b ==>
         b[n] == a[n].(randomPos := b[n].randomPos, refCount := a[n].refCount - if n in victims then 1 else 0)
  }

  lemma DroppedLast(a: map<Id, Info>, b: map<Id, Info>, id: Id)
    requires id in a && a[id].refCount == 1 && MovedOnly(a - {id}, b)
    ensures DroppedOne(a, b, {id})
  {
  }

  lemma DroppedSome(a: map<Id, Info>, id: Id)
    requires id in a && a[id].refCount > 1
    ensures DroppedOne(a, a[id := a[id].(refCount := a[id].refCount - 1)], {id})
  {
  }

  lemma DroppedNone(a: map<Id, Info>)
    ensures DroppedOne(a, a, {})
  {
  }

  lemma Survives(a: map<Id, Info>, b: map<Id, Info>, victims: set<Id>, id: Id)
    requires DroppedOne(a, b, victims) && id in a && id !in victims
    ensures id in b
  {
  }

  // `id` has become tried, possibly in place of `out`.
  lemma Traded(a: map<Id, Info>, b: map<Id, Info>, id: Id, i: Info, evicted: bool, out: Id)
    requires id in a && (!evicted ==> b == a[id := i])
    requires evicted ==> out in a && out != id && b == a[out := a[out].(inTried := false, refCount := 1)][id := i]
    ensures b.Keys == a.Keys && forall n :: n in b && n != id ==> b[n] == BackToNew(a[n], evicted && n == out)
  {
  }

  lemma StillThere(a: seq<Id>, b: seq<Id>, pos: nat)
    requires SameElements(a, b) && pos < |b|
    ensures b[pos] in a
  {
    assert b[pos] in b;
  }

  class AddrMan {
    const key: Key
    var nIdCount: nat
    var mapInfo: map<Id, Info>
    var mapAddr: map<nat, Id>
    var vRandom: seq<Id>
    var nTried: int
    var vvTried: seq<seq<Id>>
    var nNew: int
    var vvNew: seq<set<Id>>

    ghost function Contents(): Tables
      reads this
    {
      Tables(nIdCount, mapInfo, mapAddr, vRandom, nTried, vvTried, nNew, vvNew)
    }

    ghost predicate ValidBut(ahead: set<Id>)
      reads this
    {
      LinkedBut(key, Contents(), ahead)
    }

    // Every table agrees with every other, whatever the times in the entries.
    ghost predicate Consistent()
      reads this
    {
      ValidBut({})
    }

    ghost predicate Valid()
      reads this
    {
      TablesOk(key, Contents())
    }

    // The address and port of a known peer.
    ghost predicate Knows(ip: nat, port: nat)
      reads this
    {
      ip in mapAddr && mapAddr[ip] in mapInfo && mapInfo[mapAddr[ip]].addr.port == port
    }

    constructor (k: Key)
      ensures Valid() && key == k && mapInfo == map[]
    {
      key := k;
      nIdCount, mapInfo, mapAddr, vRandom, nTried, nNew := 0, map[], map[], [], 0, 0;
      vvTried := seq(TRIED_BUCKET_COUNT, _ => []);
      vvNew := seq(NEW_BUCKET_COUNT, _ => {});
      new;
      assert TriedIds(mapInfo) == {} == NewIds(mapInfo);
    }

    method SwapRandom(i: nat, j: nat)
      requires i < |vRandom| && j < |vRandom| && RandomOk(mapInfo, vRandom)
      modifies this`mapInfo, this`vRandom
      ensures RandomOk(mapInfo, vRandom) && MovedOnly(old(mapInfo), mapInfo)
      ensures vRandom == old(vRandom)[i := old(vRandom)[j]][j := old(vRandom)[i]]
    {
      if i == j {
        return;
      }
      var id1, id2 := vRandom[i], vRandom[j];
      mapInfo := mapInfo[id1 := mapInfo[id1].(randomPos := j)];
      mapInfo := mapInfo[id2 := mapInfo[id2].(randomPos := i)];
      vRandom := vRandom[i := id2];
      vRandom := vRandom[j := id1];
    }

    // Removes an entry from the id table, the address table and the random order.
    method Erase(id: Id)
      requires RandomOk(mapInfo, vRandom) && AddrsOk(mapInfo, mapAddr) && id in mapInfo
      modifies this`mapInfo, this`vRandom, this`mapAddr, this`nNew
      ensures RandomOk(mapInfo, vRandom) && AddrsOk(mapInfo, mapAddr)
      ensures MovedOnly(old(mapInfo) - {id}, mapInfo)
      ensures mapAddr == old(mapAddr) - {old(mapInfo)[id].addr.ip}
      ensures nNew == old(nNew) - 1
    {
      hide AddrsOk;
      var info := mapInfo[id];
      SwapRandom(info.randomPos, |vRandom| - 1);
      MovedAddrs(old(mapInfo), mapInfo, mapAddr);
      PopRandom(mapInfo, vRandom, id);
      EraseAddr(mapInfo, mapAddr, id);
      vRandom := vRandom[..|vRandom| - 1];
      mapAddr := mapAddr - {info.addr.ip};
      mapInfo := mapInfo - {id};
      nNew := nNew - 1;
    }

    // The lowest id of a set, which is where iteration over it starts.
    static method Least(ids: set<Id>) returns (m: Id)
      requires ids != {}
      ensures IsLeast(ids, m)
    {
      ghost var x :| x in ids;
      LeastExists(ids, x);
      m :| m in ids && IsLeast(ids, m);
    }

    // Takes `id` out of new bucket `b`, and out of the manager with its last reference.
    method DropFrom(b: nat, id: Id, ghost ahead: set<Id>)
      requires ValidBut(ahead) && b < |vvNew| && id in vvNew[b] && id !in ahead
      modifies this`mapInfo, this`vRandom, this`mapAddr, this`nNew, this`vvNew
      ensures ValidBut(ahead)
      ensures vvNew == old(vvNew)[b := old(vvNew)[b] - {id}]
      ensures DroppedOne(old(mapInfo), mapInfo, {id})
    {
      hide RandomOk, AddrsOk, TriedOk, SizesOk, NewOk, EntriesOk, DroppedOne;
      ghost var before, buckets := mapInfo, vvNew[b := vvNew[b] - {id}];
      DropRef(mapInfo, vvNew, ahead, b, id);
      ReferencedIsNew(mapInfo, vvNew, ahead, nIdCount, b, id);
      RefCountKept(key, mapInfo, id, mapInfo[id].refCount - 1, vRandom, mapAddr, vvTried, nTried, nNew);
      mapInfo := mapInfo[id := mapInfo[id].(refCount := mapInfo[id].refCount - 1)];
      if mapInfo[id].refCount == 0 {
        assert mapInfo - {id} == before - {id};
        Erase(id);
        DropEntry(key, before, mapInfo, vvTried, buckets, ahead, nIdCount, nTried, nNew + 1, id);
        DroppedLast(before, mapInfo, id);
      } else {
        DroppedSome(before, id);
      }
      vvNew := vvNew[b := vvNew[b] - {id}];
    }

    // The first deletable entry of a new bucket, in id order, if there is one.
    method FirstTerrible(b: nat, now: int) returns (found: bool, id: Id)
      requires b < |vvNew| && vvNew[b] <= mapInfo.Keys
      ensures found ==> id in vvNew[b] && IsTerrible(mapInfo[id], now)
                        && forall n :: n in vvNew[b] && n < id ==> !IsTerrible(mapInfo[n], now)
      ensures !found ==> forall n :: n in vvNew[b] ==> !IsTerrible(mapInfo[n], now)
    {
      hide IsTerrible;
      var rest := vvNew[b];
      while rest != {}
        invariant rest <= vvNew[b]
        invariant forall n :: n in vvNew[b] && n !in rest ==> !IsTerrible(mapInfo[n], now)
        invariant forall n, m :: n in vvNew[b] && n !in rest && m in rest ==> n < m
        decreases rest
      {
        var it := Least(rest);
        if IsTerrible(mapInfo[it], now) {
          return true, it;
        }
        rest := rest - {it};
      }
      return false, 0;
    }

    // The least recently seen of up to four randomly drawn entries of a new bucket.
    method OldestOfFour(b: nat) returns (oldest: Id, ghost sample: set<Id>)
      requires b < |vvNew| && vvNew[b] <= mapInfo.Keys && vvNew[b] != {}
      ensures IsOldestOf(mapInfo, vvNew[b], sample, oldest)
      ensures exists drawn :: IsOldestOf(mapInfo, vvNew[b], drawn, oldest)
    {
      var size := |vvNew[b]|;
      var n0 := GetRandInt(size);
      var n1 := GetRandInt(size);
      var n2 := GetRandInt(size);
      var n3 := GetRandInt(size);
      var rest, i, found := vvNew[b], 0, false;
      ghost var drawn: set<nat> := {};
      oldest, sample := 0, {};
      while rest != {}
        invariant rest <= vvNew[b] && i == size - |rest|
        invariant sample <= vvNew[b] && (found <==> sample != {})
        invariant found ==>
                    oldest in sample && forall n :: n in sample ==> mapInfo[oldest].addr.time <= mapInfo[n].addr.time
        invariant n0 < i ==> found
        invariant drawn <= {n0, n1, n2, n3} && |sample| <= |drawn| && forall k :: k in drawn ==> k < i
        decreases rest
      {
        var it := Least(rest);
        if i == n0 || i == n1 || i == n2 || i == n3 {
          sample, drawn := sample + {it}, drawn + {i};
          if !found || mapInfo[it].addr.time < mapInfo[oldest].addr.time {
            oldest, found := it, true;
          }
        }
        i, rest := i + 1, rest - {it};
      }
      Few(drawn, n0, n1, n2, n3);
    }

    // Makes room in a new bucket: drops its first deletable entry, or else the least recently
    // seen of four random ones.
    method ShrinkNew(b: nat, now: int, ghost ahead: set<Id>)
      returns (code: int, ghost victim: Id, ghost sample: set<Id>)
      requires ValidBut(ahead) && b < |vvNew| && vvNew[b] != {} && vvNew[b] !! ahead
      modifies this`mapInfo, this`vRandom, this`mapAddr, this`nNew, this`vvNew
      ensures ValidBut(ahead)
      ensures victim in old(vvNew)[b] && victim in old(mapInfo) && vvNew == old(vvNew)[b := old(vvNew)[b] - {victim}]
      ensures old(vvNew)[b] <= old(mapInfo).Keys && (code == 0 || code == 1)
      ensures code == 0 ==>
                && IsTerrible(old(mapInfo)[victim], now)
                && forall n :: n in old(vvNew)[b] && n < victim ==> !IsTerrible(old(mapInfo)[n], now)
      ensures code == 1 ==>
                && IsOldestOf(old(mapInfo), old(vvNew)[b], sample, victim)
                && forall n :: n in old(vvNew)[b] ==> !IsTerrible(old(mapInfo)[n], now)
      ensures DroppedOne(old(mapInfo), mapInfo, {victim})
    {
      hide RandomOk, AddrsOk, TriedOk, SizesOk, EntriesOk, IsTerrible, DroppedOne, IsOldestOf;
      var found, id := FirstTerrible(b, now);
      if found {
        victim, sample := id, {};
        DropFrom(b, id, ahead);
        return 0, victim, sample;
      }
      id, sample := OldestOfFour(b);
      SampleInBucket(mapInfo, vvNew[b], sample, id);
      victim := id;
      DropFrom(b, id, ahead);
      return 1, victim, sample;
    }

    // Shuffles a few entries of a tried bucket to the front and returns the place to reuse.
    method SelectTried(b: nat) returns (pos: nat)
      requires TriedOk(key, mapInfo, vvTried) && b < |vvTried| && vvTried[b] != []
      modifies this`vvTried
      ensures TriedOk(key, mapInfo, vvTried)
      ensures |vvTried| == |old(vvTried)| && forall c :: 0 <= c < |vvTried| && c != b ==> vvTried[c] == old(vvTried)[c]
      ensures SameElements(old(vvTried)[b], vvTried[b]) && pos < |vvTried[b]|
    {
      ghost var tried := vvTried;
      var oldest: Id, found := 0, false;
      pos := 0;
      var i := 0;
      while i < TRIED_ENTRIES_INSPECT_ON_EVICT && i < |vvTried[b]|
        invariant 0 <= i && TriedOk(key, mapInfo, vvTried) && vvTried == tried[b := vvTried[b]]
        invariant SameElements(tried[b], vvTried[b]) && pos < |vvTried[b]|
        invariant found ==> oldest in mapInfo
      {
        var p := GetRandInt(|vvTried[b]| - i);
        p := p + i;
        var t := vvTried[b][p];
        assert InTriedAt(key, mapInfo, t, b);
        SwapElements(vvTried[b], p, i);
        ShuffleTried(key, mapInfo, vvTried, b, vvTried[b][p := vvTried[b][i]][i := t]);
        vvTried := vvTried[b := vvTried[b][p := vvTried[b][i]][i := t]];
        if !found || mapInfo[t].lastSuccess < mapInfo[oldest].lastSuccess {
          oldest, pos, found := t, p, true;
        }
        i := i + 1;
      }
    }

    // Takes an entry out of every new bucket.
    method EraseFromAll(id: Id)
      requires NewOk(mapInfo, vvNew, {}) && id in mapInfo
      modifies this`mapInfo, this`vvNew
      ensures NewOk(mapInfo, vvNew, {}) && mapInfo == old(mapInfo)[id := old(mapInfo)[id].(refCount := 0)]
      ensures |vvNew| == |old(vvNew)| && forall c :: 0 <= c < |vvNew| ==> vvNew[c] == old(vvNew)[c] - {id}
    {
      hide NewOk;
      ghost var info0, buckets0 := mapInfo, vvNew;
      NewBucketsSized(mapInfo, vvNew, {});
      for b := 0 to NEW_BUCKET_COUNT
        invariant NewOk(mapInfo, vvNew, {}) && |vvNew| == NEW_BUCKET_COUNT && id in mapInfo
        invariant mapInfo == info0[id := info0[id].(refCount := mapInfo[id].refCount)]
        invariant forall c :: 0 <= c < b ==> vvNew[c] == buckets0[c] - {id}
        invariant forall c :: b <= c < |vvNew| ==> vvNew[c] == buckets0[c]
      {
        if id in vvNew[b] {
          DropRef(mapInfo, vvNew, {}, b, id);
          vvNew := vvNew[b := vvNew[b] - {id}];
          mapInfo := mapInfo[id := mapInfo[id].(refCount := mapInfo[id].refCount - 1)];
        }
      }
      RefsZero(vvNew, id);
      NewBucketsSized(mapInfo, vvNew, {});
    }

    // `id` has left the new buckets and is not in a tried bucket yet.
    ghost predicate Detached(id: Id)
      reads this
    {
      && RandomOk(mapInfo, vRandom)
      && AddrsOk(mapInfo, mapAddr)
      && TriedOk(key, mapInfo, vvTried)
      && NewOk(mapInfo, vvNew, {})
      && SizesOk(mapInfo, nTried, nNew + 1)
      && id in mapInfo && !mapInfo[id].inTried
      && EntriesOk(mapInfo[id := mapInfo[id].(inTried := true)], nIdCount)
    }

    method Detach(id: Id)
      requires Consistent() && id in mapInfo && !mapInfo[id].inTried
      modifies this`mapInfo, this`vvNew, this`nNew
      ensures Detached(id)
      ensures mapInfo == old(mapInfo)[id := old(mapInfo)[id].(refCount := 0)] && nNew == old(nNew) - 1
      ensures |vvNew| == |old(vvNew)| == NEW_BUCKET_COUNT
      ensures forall c :: 0 <= c < |vvNew| ==> vvNew[c] == old(vvNew)[c] - {id}
    {
      hide RandomOk, AddrsOk, TriedOk, NewOk, SizesOk, EntriesOk;
      ghost var info0 := mapInfo;
      NewBucketsSized(mapInfo, vvNew, {});
      RefCountKept(key, mapInfo, id, 0, vRandom, mapAddr, vvTried, nTried, nNew);
      EraseFromAll(id);
      nNew := nNew - 1;
      TriedEntryOk(info0, mapInfo[id := mapInfo[id].(inTried := true)], id, nIdCount);
    }

    // There is room in the tried bucket.
    method EnterTried(id: Id, b: nat)
      requires Detached(id) && b == TriedBucket(key, mapInfo[id].addr) && |vvTried| == TRIED_BUCKET_COUNT
      requires |vvTried[b]| < TRIED_BUCKET_SIZE
      modifies this`mapInfo, this`vvTried, this`nTried
      ensures Consistent()
      ensures mapInfo == old(mapInfo)[id := old(mapInfo)[id].(inTried := true)]
      ensures vvTried == old(vvTried)[b := old(vvTried)[b] + [id]] && nTried == old(nTried) + 1
    {
      hide RandomOk, AddrsOk, TriedOk, NewOk, SizesOk, EntriesOk;
      ghost var info0 := mapInfo;
      Promote(key, mapInfo, vvTried, nTried, nNew + 1, id);
      vvTried := vvTried[b := vvTried[b] + [id]];
      nTried := nTried + 1;
      mapInfo := mapInfo[id := mapInfo[id].(inTried := true)];
      OrderKept(info0, mapInfo, vRandom, mapAddr);
      LinksOfNew(info0, mapInfo, vvNew);
    }

    // The entry at `pos` makes way: it goes back to its own new bucket, or, if that is full, to
    // the bucket `id` came from.
    method SwapIntoTried(id: Id, b: nat, pos: nat, origin: nat) returns (ghost out: Id, ghost into: nat)
      requires Detached(id) && b == TriedBucket(key, mapInfo[id].addr) && |vvTried| == TRIED_BUCKET_COUNT
      requires pos < |vvTried[b]|
      requires |vvNew| == NEW_BUCKET_COUNT && origin < |vvNew| && |vvNew[origin]| < NEW_BUCKET_SIZE
      modifies this`mapInfo, this`vvNew, this`vvTried, this`nNew
      ensures Consistent()
      ensures out == old(vvTried)[b][pos] && out in old(mapInfo) && old(mapInfo)[out].inTried && out != id
      ensures mapInfo == old(mapInfo)[out := BackToNew(old(mapInfo)[out], true)]
                                     [id := old(mapInfo)[id].(inTried := true)]
      ensures into == (var u := NewBucket(key, old(mapInfo)[out].addr, old(mapInfo)[out].source);
                       if |old(vvNew)[u]| < NEW_BUCKET_SIZE then u else origin)
      ensures into < NEW_BUCKET_COUNT && vvNew == old(vvNew)[into := old(vvNew)[into] + {out}]
      ensures vvTried == old(vvTried)[b := Put(old(vvTried)[b], pos, id)] && nNew == old(nNew) + 1
    {
      hide RandomOk, AddrsOk, TriedOk, NewOk, SizesOk, EntriesOk;
      Replace(key, mapInfo, vvTried, nTried, nNew + 1, id, pos);
      var e := vvTried[b][pos];
      var u := NewBucket(key, mapInfo[e].addr, mapInfo[e].source);
      var target := if |vvNew[u]| < NEW_BUCKET_SIZE then u else origin;
      SwapKeeps(mapInfo, vRandom, mapAddr, vvNew, nIdCount, id, e, target);
      mapInfo := mapInfo[e := mapInfo[e].(inTried := false, refCount := 1)];
      vvNew := vvNew[target := vvNew[target] + {e}];
      nNew := nNew + 1;
      vvTried := vvTried[b := Put(vvTried[b], pos, id)];
      mapInfo := mapInfo[id := mapInfo[id].(inTried := true)];
      out, into := e, target;
    }

    // Moves an entry from the new buckets to its tried bucket.  If that is full, an entry of it
    // goes back to a new bucket: its own if there is room, else one the moved entry just left.
    method MakeTried(id: Id, origin: nat) returns (ghost evicted: bool, ghost out: Id, ghost into: nat)
      requires Consistent() && id in mapInfo && !mapInfo[id].inTried
      requires origin < |vvNew| && id in vvNew[origin]
      modifies this`mapInfo, this`vvNew, this`vvTried, this`nTried, this`nNew
      ensures Consistent()
      ensures id in mapInfo && mapInfo[id] == old(mapInfo)[id].(inTried := true, refCount := 0)
      ensures |vvNew| == |old(vvNew)| == NEW_BUCKET_COUNT
      ensures |old(vvTried)| == TRIED_BUCKET_COUNT
      ensures (evicted <==> |old(vvTried)[TriedBucket(key, old(mapInfo)[id].addr)]| == TRIED_BUCKET_SIZE)
      ensures !evicted ==>
                && mapInfo == old(mapInfo)[id := mapInfo[id]]
                && (forall c :: 0 <= c < NEW_BUCKET_COUNT ==> vvNew[c] == old(vvNew)[c] - {id})
                && nTried == old(nTried) + 1 && nNew == old(nNew) - 1
      ensures evicted ==>
                && out in old(mapInfo) && old(mapInfo)[out].inTried && out != id
                && mapInfo == old(mapInfo)[out := BackToNew(old(mapInfo)[out], true)][id := mapInfo[id]]
                && out in old(vvTried)[TriedBucket(key, old(mapInfo)[id].addr)]
                && into == (var u := NewBucket(key, mapInfo[out].addr, mapInfo[out].source);
                            if |old(vvNew)[u] - {id}| < NEW_BUCKET_SIZE then u else origin)
                && (forall c :: 0 <= c < NEW_BUCKET_COUNT ==>
                      vvNew[c] == old(vvNew)[c] - {id} + if c == into then {out} else {})
                && nTried == old(nTried) && nNew == old(nNew)
    {
      hide RandomOk, AddrsOk, TriedOk, NewOk, SizesOk, EntriesOk, TriedBucket, NewBucket, SameElements;
      NewBucketsSized(mapInfo, vvNew, {});
      Detach(id);
      TriedBucketsSized(key, mapInfo, vvTried);
      var b := TriedBucket(key, mapInfo[id].addr);
      ghost var bucket := vvTried[b];
      if |vvTried[b]| < TRIED_BUCKET_SIZE {
        EnterTried(id, b);
        evicted, out, into := false, 0, 0;
      } else {
        var pos := SelectTried(b);
        StillThere(bucket, vvTried[b], pos);
        out, into := SwapIntoTried(id, b, pos, origin);
        evicted := true;
      }
    }

    // Looks an address up by its network part.
    method Find(ip: nat) returns (found: bool, id: Id)
      requires Consistent()
      ensures found <==> ip in mapAddr
      ensures found ==> id == mapAddr[ip] && id in mapInfo && mapInfo[id].addr.ip == ip
    {
      if ip !in mapAddr {
        return false, 0;
      }
      id := mapAddr[ip];
      found := id in mapInfo;
    }

    // Replaces the statistics of an entry.
    method SetStats(id: Id, info: Info)
      requires Consistent() && id in mapInfo
      requires info.addr.ip == mapInfo[id].addr.ip && info.addr.port == mapInfo[id].addr.port
      requires info.randomPos == mapInfo[id].randomPos
      requires info.refCount == mapInfo[id].refCount && info.inTried == mapInfo[id].inTried
      modifies this`mapInfo
      ensures Consistent() && mapInfo == old(mapInfo)[id := info]
    {
      hide AddrsOk, TriedOk, NewOk, SizesOk;
      ghost var info0 := mapInfo;
      mapInfo := mapInfo[id := info];
      LinksKept(key, info0, mapInfo, mapAddr, vvTried, vvNew, {}, nTried, nNew);
    }

    // A new bucket that holds `id`, searched from a random one on.
    method FindBucket(id: Id) returns (found: bool, b: nat)
      requires |vvNew| == NEW_BUCKET_COUNT
      ensures found <==> exists c :: 0 <= c < |vvNew| && id in vvNew[c]
      ensures found ==> b < |vvNew| && id in vvNew[b]
    {
      var start := GetRandInt(|vvNew|);
      b := start;
      for n := 0 to |vvNew|
        invariant forall c :: 0 <= c < |vvNew| && (if c >= start then c - start else c + |vvNew| - start) < n ==>
                    id !in vvNew[c]
      {
        b := (n + start) % |vvNew|;
        assert b == if n + start < |vvNew| then n + start else n + start - |vvNew|;
        if id in vvNew[b] {
          return true, b;
        }
      }
      return false, b;
    }

    // Records a successful connection and moves the entry to the tried table.
    method Good(ip: nat, port: nat, time: int) returns (ghost out: set<Id>)
      requires Consistent()
      modifies this
      ensures Consistent() && mapAddr == old(mapAddr) && vRandom == old(vRandom) && nIdCount == old(nIdCount)
      ensures mapInfo.Keys == old(mapInfo).Keys && |out| <= 1
      ensures ip in mapAddr ==>
                forall n :: n in mapInfo && n != mapAddr[ip] ==> mapInfo[n] == BackToNew(old(mapInfo)[n], n in out)
      ensures forall n :: n in out ==> n in old(mapInfo) && old(mapInfo)[n].inTried
      ensures old(Knows(ip, port)) ==>
                var id := mapAddr[ip];
                mapInfo[id] == old(mapInfo)[id].(lastSuccess := time, lastTry := time, attempts := 0, inTried := true,
                                                 refCount := 0,
                                                 addr := old(mapInfo)[id].addr.(time := U32(time)))
      ensures !old(Knows(ip, port)) ==>
                && mapInfo == old(mapInfo) && vvNew == old(vvNew) && vvTried == old(vvTried)
                && nNew == old(nNew) && nTried == old(nTried)
      ensures old(Knows(ip, port)) ==>
                && |vvTried| == TRIED_BUCKET_COUNT
                && mapAddr[ip] in vvTried[key.triedHash(ip, port) % TRIED_BUCKET_COUNT]
      ensures old(Valid()) ==> (Valid() <==> !old(Knows(ip, port)) || time > 0)
    {
      hide RandomOk, AddrsOk, TriedOk, NewOk, SizesOk;
      out := {};
      var found, id := Find(ip);
      if !found {
        return;
      }
      var info := mapInfo[id];
      if info.addr.port != port {
        return;
      }
      info := info.(lastSuccess := time, lastTry := time, addr := info.addr.(time := U32(time)), attempts := 0);
      SetStats(id, info);
      if info.inTried {
        TriedPlace(key, Contents(), id);
        return;
      }
      out := MoveToTried(id);
      TriedPlace(key, Contents(), id);
    }

    // A new entry is always in some new bucket, so the search for it does not come back empty.
    method MoveToTried(id: Id) returns (ghost out: set<Id>)
      requires Consistent() && id in mapInfo && !mapInfo[id].inTried
      modifies this`mapInfo, this`vvNew, this`vvTried, this`nTried, this`nNew
      ensures Consistent() && mapInfo.Keys == old(mapInfo).Keys && |out| <= 1
      ensures mapInfo[id] == old(mapInfo)[id].(inTried := true, refCount := 0)
      ensures forall n :: n in mapInfo && n != id ==> mapInfo[n] == BackToNew(old(mapInfo)[n], n in out)
      ensures forall n :: n in out ==> n in old(mapInfo) && old(mapInfo)[n].inTried
    {
      hide LinkedBut, NewBucket, TriedBucket;
      ghost var info0 := mapInfo;
      HeldSomewhere(key, Contents(), id);
      var held, b := FindBucket(id);
      ghost var evicted, e, into := MakeTried(id, b);
      Traded(info0, mapInfo, id, mapInfo[id], evicted, e);
      out := if evicted then {e} else {};
    }

    // Records a connection attempt.
    method Attempt(ip: nat, port: nat, time: int)
      requires Consistent()
      modifies this`mapInfo
      ensures Consistent()
      ensures mapInfo == if old(Knows(ip, port))
                         then var i := old(mapInfo)[mapAddr[ip]];
                              old(mapInfo)[mapAddr[ip] := i.(lastTry := time, attempts := i.attempts + 1)]
                         else old(mapInfo)
      ensures old(Valid()) ==> (Valid() <==> !old(Knows(ip, port)) || time >= 0)
    {
      hide RandomOk, AddrsOk, TriedOk, NewOk, SizesOk;
      var found, id := Find(ip);
      if !found || mapInfo[id].addr.port != port {
        return;
      }
      if Valid() {
        StatsUpdated(mapInfo, id, mapInfo[id].(lastTry := time, attempts := mapInfo[id].attempts + 1));
      }
      SetStats(id, mapInfo[id].(lastTry := time, attempts := mapInfo[id].attempts + 1));
    }

    // Refreshes the time of a connected peer, at most every 20 minutes.
    method Connected(ip: nat, port: nat, time: int)
      requires Consistent()
      modifies this`mapInfo
      ensures Consistent()
      ensures mapInfo == if old(Knows(ip, port)) && time - old(mapInfo)[mapAddr[ip]].addr.time > 20 * 60
                         then var i := old(mapInfo)[mapAddr[ip]];
                              old(mapInfo)[mapAddr[ip] := i.(addr := i.addr.(time := U32(time)))]
                         else old(mapInfo)
      ensures old(Valid()) ==> Valid()
    {
      hide RandomOk, AddrsOk, TriedOk, NewOk, SizesOk;
      var found, id := Find(ip);
      if !found || mapInfo[id].addr.port != port {
        return;
      }
      if time - mapInfo[id].addr.time > 20 * 60 {
        SetStats(id, mapInfo[id].(addr := mapInfo[id].addr.(time := U32(time))));
      }
    }

    // Shuffles the first entries of the random order and reads them off.
    method DrawFront(nodes: nat) returns (addrs: seq<Address>)
      requires RandomOk(mapInfo, vRandom) && nodes <= |vRandom|
      modifies this`mapInfo, this`vRandom
      ensures RandomOk(mapInfo, vRandom) && MovedOnly(old(mapInfo), mapInfo)
      ensures |addrs| == nodes && ReadOff(mapInfo, vRandom, addrs)
    {
      hide RandomOk;
      addrs := [];
      ghost var info0 := mapInfo;
      for n := 0 to nodes
        invariant RandomOk(mapInfo, vRandom) && MovedOnly(info0, mapInfo) && |vRandom| == |old(vRandom)|
        invariant |addrs| == n && ReadOff(mapInfo, vRandom, addrs)
      {
        var pos := GetRandInt(|vRandom| - n);
        pos := pos + n;
        hide ReadOff;
        ghost var info1, before := mapInfo, vRandom;
        SwapRandom(n, pos);
        ReadOffNext(info1, mapInfo, before, vRandom, addrs, pos);
        addrs := addrs + [mapInfo[vRandom[n]].addr];
      }
    }

    // A random selection of at most 23 percent of the entries, each at most once.
    method GetAddr() returns (addrs: seq<Address>)
      requires Consistent()
      modifies this`mapInfo, this`vRandom
      ensures Consistent() && (old(Valid()) ==> Valid()) && MovedOnly(old(mapInfo), mapInfo)
      ensures |addrs| == var share := GETADDR_MAX_PCT * |old(vRandom)| / 100;
                         if share > GETADDR_MAX then GETADDR_MAX else share
      ensures forall i :: 0 <= i < |addrs| ==>
                && addrs[i].ip in mapAddr && mapAddr[addrs[i].ip] in mapInfo
                && addrs[i] == mapInfo[mapAddr[addrs[i].ip]].addr
      ensures forall i, j :: 0 <= i < j < |addrs| ==> addrs[i].ip != addrs[j].ip
    {
      hide RandomOk, TriedOk, NewOk, SizesOk, AddrsOk, EntriesOk;
      var nodes := GETADDR_MAX_PCT * |vRandom| / 100;
      if nodes > GETADDR_MAX {
        nodes := GETADDR_MAX;
      }
      ghost var info0 := mapInfo;
      addrs := DrawFront(nodes);
      LinksKept(key, info0, mapInfo, mapAddr, vvTried, vvNew, {}, nTried, nNew);
      MovedEntries(info0, mapInfo, nIdCount);
      SelectedOnce(mapInfo, vRandom, mapAddr, addrs);
    }

    // `id` is a new entry whose statistics are in order once it has one more reference.
    ghost predicate Pending(id: Id)
      reads this
    {
      && RandomOk(mapInfo, vRandom)
      && AddrsOk(mapInfo, mapAddr)
      && TriedOk(key, mapInfo, vvTried)
      && NewOk(mapInfo, vvNew, {})
      && SizesOk(mapInfo, nTried, nNew)
      && id in mapInfo && !mapInfo[id].inTried
      && EntriesOk(mapInfo[id := mapInfo[id].(refCount := mapInfo[id].refCount + 1)], nIdCount)
    }

    // Enters an unknown address everywhere but in a bucket.
    method Create(addr: Address, source: nat, penalty: int) returns (id: Id)
      requires Consistent() && addr.ip !in mapAddr
      modifies this`mapInfo, this`mapAddr, this`vRandom, this`nNew, this`nIdCount
      ensures Pending(id) && id == old(nIdCount) && id !in old(mapInfo) && mapAddr == old(mapAddr)[addr.ip := id]
      ensures mapInfo == old(mapInfo)[id := FirstHeard(addr, source, penalty, |old(vRandom)|)]
      ensures IsFirstRecord(mapInfo[id], addr, source, penalty)
      ensures AllStatsOk(old(mapInfo)) ==> AllStatsOk(mapInfo)
    {
      hide RandomOk, AddrsOk, TriedOk, NewOk, SizesOk, EntriesOk;
      FirstRecordIs(addr, source, penalty, |vRandom|);
      id := nIdCount;
      var info := FirstHeard(addr, source, penalty, |vRandom|);
      CreateKeeps(key, mapInfo, vRandom, mapAddr, vvTried, vvNew, nIdCount, nTried, nNew, info);
      nIdCount := nIdCount + 1;
      mapInfo := mapInfo[id := info];
      mapAddr := mapAddr[addr.ip := id];
      vRandom := vRandom + [id];
      nNew := nNew + 1;
    }

    // The more buckets an entry is in, the less likely it gets another one: 1 in 2^n.
    static method Lucky(refCount: nat) returns (lucky: bool)
      ensures refCount == 0 ==> lucky
    {
      var factor := 1;
      for n := 0 to refCount
        invariant factor >= 1 && (n == 0 ==> factor == 1)
      {
        factor := factor * 2;
      }
      lucky := true;
      if factor > 1 {
        var draw := GetRandInt(factor);
        lucky := draw == 0;
      }
    }

    // Updates the time and the services of a known address, and decides whether it may enter one
    // more bucket: it must be news, not tried, not in four buckets yet, and lucky.
    method Refresh(id: Id, addr: Address, penalty: int, now: int) returns (enter: bool)
      requires Consistent() && id in mapInfo
      modifies this`mapInfo
      ensures Consistent() && mapInfo == old(mapInfo)[id := Refreshed(old(mapInfo)[id], addr, penalty, now)]
      ensures IsUpdate(old(mapInfo)[id], mapInfo[id], addr, penalty, now)
      ensures enter ==> Pending(id) && MayEnter(mapInfo[id], addr)
      ensures AllStatsOk(old(mapInfo)) ==> AllStatsOk(mapInfo)
    {
      hide RandomOk, AddrsOk, TriedOk, NewOk, SizesOk, EntriesOk, U32;
      EntryAt(mapInfo, nIdCount, id);
      UpdateIs(mapInfo[id], addr, penalty, now);
      var info := Refreshed(mapInfo[id], addr, penalty, now);
      SetStats(id, info);
      if addr.time == 0 || (info.addr.time != 0 && addr.time <= info.addr.time) {
        return false;
      }
      if info.inTried {
        return false;
      }
      if info.refCount == NEW_BUCKETS_PER_ADDRESS {
        return false;
      }
      EntryAt(mapInfo, nIdCount, id);
      enter := Lucky(info.refCount);
    }

    // Puts an entry whose count is one ahead into a new bucket, making room first.
    method EnterNew(id: Id, b: nat, now: int) returns (ghost victims: set<Id>)
      requires ValidBut({id}) && id in mapInfo && b < |vvNew| && id !in vvNew[b]
      modifies this`mapInfo, this`vRandom, this`mapAddr, this`nNew, this`vvNew
      ensures Consistent() && id in mapInfo && id in old(mapInfo)
      ensures |victims| <= 1 && id !in victims && (victims == {} <==> |old(vvNew)[b]| < NEW_BUCKET_SIZE)
      ensures victims <= old(vvNew)[b] && vvNew == old(vvNew)[b := old(vvNew)[b] - victims + {id}]
      ensures DroppedOne(old(mapInfo), mapInfo, victims)
      ensures forall n :: n in victims ==> n in old(mapInfo) && !old(mapInfo)[n].inTried
      ensures mapInfo[id].addr.ip in mapAddr
      ensures AllStatsOk(old(mapInfo)) ==> AllStatsOk(mapInfo)
    {
      hide AllStatsOk, RandomOk, AddrsOk, TriedOk, NewOk, SizesOk, EntriesOk, IsTerrible, IsOldestOf, DroppedOne;
      NewBucketsSized(mapInfo, vvNew, {id});
      victims := {};
      ghost var info0 := mapInfo;
      DroppedNone(mapInfo);
      if |vvNew[b]| == NEW_BUCKET_SIZE {
        var code;
        ghost var victim, sample;
        assert vvNew[b] != {};
        VictimIsNew(mapInfo, vvNew, {id}, nIdCount, b);
        code, victim, sample := ShrinkNew(b, now, {id});
        victims := {victim};
      }
      Survives(info0, mapInfo, victims, id);
      if AllStatsOk(info0) {
        DroppedStats(info0, mapInfo, victims);
      }
      EnterBucket(mapInfo, vvNew, b, id);
      AddrPresent(mapInfo, mapAddr, id);
      vvNew := vvNew[b := vvNew[b] + {id}];
    }

    // Adds an address to the new table, or refreshes what is known about it.
    method Add(addr: Address, routable: bool, source: nat, penalty: int, now: int)
        returns (isNew: bool, ghost id: Id, ghost entered: bool, ghost victims: set<Id>)
      requires Consistent()
      modifies this
      ensures Consistent() && (old(Valid()) ==> Valid())
      ensures isNew <==> routable && addr.ip !in old(mapAddr)
      ensures vvTried == old(vvTried) && nTried == old(nTried) && |vvNew| == |old(vvNew)| == NEW_BUCKET_COUNT
      ensures !routable ==>
                mapInfo == old(mapInfo) && vvNew == old(vvNew) && mapAddr == old(mapAddr) && vRandom == old(vRandom)
      ensures routable ==>
                && (if isNew then id !in old(mapInfo) else id == old(mapAddr)[addr.ip] && id in old(mapInfo))
                && var heard := Heard(old(mapInfo), isNew, id, addr, source, penalty, now, |old(vRandom)|);
                   && (isNew ==> entered)
                   && (!entered ==>
                         mapInfo == heard && vvNew == old(vvNew) && mapAddr == old(mapAddr) && vRandom == old(vRandom))
                   && (entered ==> Entered(key, heard, old(vvNew), mapInfo, vvNew, id, source, victims))
                   && (entered && !isNew ==> MayEnter(heard[id], addr))
      ensures isNew ==>
                && id in mapInfo && IsFirstRecord(mapInfo[id], addr, source, penalty)
                && mapInfo[id].refCount == 1 && Knows(addr.ip, addr.port)
      ensures routable && !isNew ==>
                && id in mapInfo && IsUpdate(old(mapInfo)[id], mapInfo[id], addr, penalty, now)
                && mapInfo[id].refCount == old(mapInfo)[id].refCount + if entered then 1 else 0
      ensures entered ==> id in vvNew[key.newHash(addr.ip, source) % NEW_BUCKET_COUNT]
      ensures entered && !isNew ==>
                && addr.time != 0 && (mapInfo[id].addr.time == 0 || mapInfo[id].addr.time < addr.time)
                && !mapInfo[id].inTried && old(mapInfo)[id].refCount < NEW_BUCKETS_PER_ADDRESS
    {
      hide AllStatsOk, LinkedBut, Refreshed, FirstHeard, NewBucket, DroppedOne, IsUpdate, Entered;
      BucketCount(key, Contents());
      id, entered, victims := 0, false, {};
      if !routable {
        return false, id, entered, victims;
      }
      var at, enter;
      isNew, at, enter := Hear(addr, source, penalty, now);
      id := at;
      if !enter {
        return isNew, id, entered, victims;
      }
      ghost var heard, buckets := mapInfo, vvNew;
      entered, victims := EnterOwnBucket(at, source, now);
      if entered {
        EnteredRecord(key, heard, buckets, mapInfo, vvNew, at, source, victims);
        RecordStays(heard[at], mapInfo[at]);
        KnowsAt(key, Contents(), at);
      }
    }

    // Looks an address up, and refreshes its record or creates one; says whether it may enter a bucket.
    method Hear(addr: Address, source: nat, penalty: int, now: int) returns (isNew: bool, id: Id, enter: bool)
      requires Consistent()
      modifies this`mapInfo, this`mapAddr, this`vRandom, this`nNew, this`nIdCount
      ensures isNew <==> addr.ip !in old(mapAddr)
      ensures if isNew then id !in old(mapInfo) && enter && NowhereIn(vvNew, id)
              else id == old(mapAddr)[addr.ip] && id in old(mapInfo)
      ensures mapInfo == Heard(old(mapInfo), isNew, id, addr, source, penalty, now, |old(vRandom)|)
      ensures mapInfo[id].addr.ip == addr.ip
      ensures if isNew then IsFirstRecord(mapInfo[id], addr, source, penalty) && mapInfo[id].refCount == 0
              else && IsUpdate(old(mapInfo)[id], mapInfo[id], addr, penalty, now)
                   && mapInfo[id].refCount == old(mapInfo)[id].refCount
      ensures if enter then Pending(id) else Consistent()
      ensures !isNew ==> mapAddr == old(mapAddr) && vRandom == old(vRandom)
      ensures enter && !isNew ==> MayEnter(mapInfo[id], addr) && mapInfo[id].refCount < NEW_BUCKETS_PER_ADDRESS
      ensures AllStatsOk(old(mapInfo)) ==> AllStatsOk(mapInfo)
    {
      hide AllStatsOk, RandomOk, AddrsOk, TriedOk, NewOk, SizesOk, EntriesOk, Refreshed, FirstHeard, U32;
      hide IsFirstRecord, IsUpdate;
      var found, at := Find(addr.ip);
      if found {
        EntryAt(mapInfo, nIdCount, at);
        enter := Refresh(at, addr, penalty, now);
        return false, at, enter;
      }
      at := Create(addr, source, penalty);
      NotReferenced(mapInfo, vvNew, at);
      return true, at, true;
    }

    // Enters the bucket of the address and its source, unless the address is in it.
    method EnterOwnBucket(id: Id, source: nat, now: int) returns (ghost entered: bool, ghost victims: set<Id>)
      requires Pending(id)
      modifies this`mapInfo, this`vRandom, this`mapAddr, this`nNew, this`vvNew
      ensures Consistent() && |vvNew| == |old(vvNew)| == NEW_BUCKET_COUNT && id in old(mapInfo)
      ensures NowhereIn(old(vvNew), id) ==> entered
      ensures entered ==> Entered(key, old(mapInfo), old(vvNew), mapInfo, vvNew, id, source, victims)
      ensures !entered ==>
                mapInfo == old(mapInfo) && vvNew == old(vvNew) && mapAddr == old(mapAddr) && vRandom == old(vRandom)
      ensures AllStatsOk(old(mapInfo)) ==> AllStatsOk(mapInfo)
    {
      hide AllStatsOk, RandomOk, AddrsOk, TriedOk, NewOk, SizesOk, EntriesOk, NewBucket, DroppedOne;
      NewBucketsSized(mapInfo, vvNew, {});
      entered, victims := false, {};
      var b := NewBucket(key, mapInfo[id].addr, source);
      if id !in vvNew[b] {
        PendingAhead(key, mapInfo, vRandom, mapAddr, vvTried, vvNew, nTried, nNew, id);
        if AllStatsOk(mapInfo) {
          StatsCounted(mapInfo, id);
        }
        mapInfo := mapInfo[id := mapInfo[id].(refCount := mapInfo[id].refCount + 1)];
        victims := EnterNew(id, b, now);
        entered := true;
      } else {
        PendingDone(mapInfo, vvNew, nIdCount, b, id);
      }
    }
  }

  ghost predicate NowhereIn(buckets: seq<set<Id>>, id: Id) { forall c :: 0 <= c < |buckets| ==> id !in buckets[c] }

  // The record of an address heard of for the first time: the address as it came, its time set back
  // by the penalty, and no history.
  ghost predicate IsFirstRecord(i: Info, addr: Address, source: nat, penalty: int) {
    && i.addr.ip == addr.ip && i.addr.port == addr.port && i.addr.services == addr.services && i.source == source
    && i.lastSuccess == 0 && i.lastTry == 0 && i.attempts == 0 && !i.inTried
    && (addr.time < 0x1_0000_0000 && penalty >= 0 ==>
          i.addr.time == if addr.time > penalty then addr.time - penalty else 0)
  }

  // The record `j` of an address known as `i` that is heard of again: services add up, and the time
  // moves to the reported one, set back by the penalty, exactly when it lags behind that by more than
  // an hour for a peer seen in the last day, and by more than a day for others.
  ghost predicate IsUpdate(i: Info, j: Info, addr: Address, penalty: int, now: int) {
    && j.addr.ip == i.addr.ip && j.addr.port == i.addr.port && j.source == i.source
    && j.addr.services == i.addr.services + addr.services
    && j.lastSuccess == i.lastSuccess && j.lastTry == i.lastTry && j.attempts == i.attempts && j.inTried == i.inTried
    && var lag := if addr.time > now - 86400 then 3600 else 86400;
       if addr.time == 0 || (i.addr.time != 0 && addr.time - penalty - i.addr.time <= lag)
       then j.addr.time == i.addr.time
       else addr.time < 0x1_0000_0000 && penalty >= 0 ==>
              j.addr.time == if addr.time > penalty then addr.time - penalty else 0
  }

  lemma FirstRecordIs(addr: Address, source: nat, penalty: int, pos: nat)
    ensures IsFirstRecord(FirstHeard(addr, source, penalty, pos), addr, source, penalty)
  {
  }

  lemma UpdateIs(i: Info, addr: Address, penalty: int, now: int)
    ensures IsUpdate(i, Refreshed(i, addr, penalty, now), addr, penalty, now)
  {
  }

  // Being in one more bucket, and at another place of the random order, is not part of the record.
  lemma EnteredRecord(k: Key, info: map<Id, Info>, buckets: seq<set<Id>>, info': map<Id, Info>,
                      buckets': seq<set<Id>>, id: Id, source: nat, victims: set<Id>)
    requires id in info && |buckets| == NEW_BUCKET_COUNT
    requires Entered(k, info, buckets, info', buckets', id, source, victims)
    ensures id in info'
    ensures info'[id] == info[id].(randomPos := info'[id].randomPos, refCount := info[id].refCount + 1)
    ensures |buckets'| == |buckets| && id in buckets'[k.newHash(info[id].addr.ip, source) % NEW_BUCKET_COUNT]
  {
  }

  lemma RecordStays(i: Info, j: Info)
    requires j == i.(randomPos := j.randomPos, refCount := j.refCount)
    ensures forall addr: Address, source: nat, penalty: int ::
              IsFirstRecord(i, addr, source, penalty) ==> IsFirstRecord(j, addr, source, penalty)
    ensures forall before: Info, addr: Address, penalty: int, now: int ::
              IsUpdate(before, i, addr, penalty, now) ==> IsUpdate(before, j, addr, penalty, now)
  {
  }

  lemma KnowsAt(k: Key, t: Tables, id: Id)
    requires LinkedBut(k, t, {}) && id in t.info
    ensures t.info[id].addr.ip in t.addrs && t.addrs[t.info[id].addr.ip] == id
  {
  }

  // A tried entry is in the bucket that its address and port hash to.
  lemma TriedPlace(k: Key, t: Tables, id: Id)
    requires LinkedBut(k, t, {}) && id in t.info && t.info[id].inTried
    ensures |t.tried| == TRIED_BUCKET_COUNT
    ensures id in t.tried[k.triedHash(t.info[id].addr.ip, t.info[id].addr.port) % TRIED_BUCKET_COUNT]
  {
  }

  lemma BucketCount(k: Key, t: Tables)
    requires LinkedBut(k, t, {})
    ensures |t.buckets| == NEW_BUCKET_COUNT
  {
  }

  // An entry without a reference is in no bucket.
  lemma NotReferenced(info: map<Id, Info>, buckets: seq<set<Id>>, id: Id)
    requires NewOk(info, buckets, {}) && id in info && info[id].refCount == 0
    ensures NowhereIn(buckets, id)
  {
    RefsZero(buckets, id);
  }

  // The entries after hearing of an address, before it enters a bucket.
  ghost function Heard(info: map<Id, Info>, isNew: bool, id: Id, addr: Address, source: nat, penalty: int, now: int,
                       pos: nat): map<Id, Info>
    requires !isNew ==> id in info
  {
    info[id := if isNew then FirstHeard(addr, source, penalty, pos) else Refreshed(info[id], addr, penalty, now)]
  }

  // `id` has entered the bucket of its address and source, and a full bucket has lost one other entry.
  ghost predicate Entered(k: Key, info: map<Id, Info>, buckets: seq<set<Id>>, info': map<Id, Info>,
                          buckets': seq<set<Id>>, id: Id, source: nat, victims: set<Id>)
    requires id in info && |buckets| == NEW_BUCKET_COUNT
  {
    var b := NewBucket(k, info[id].addr, source);
    && id !in buckets[b] && |victims| <= 1 && victims <= buckets[b]
    && (victims == {} <==> |buckets[b]| < NEW_BUCKET_SIZE)
    && buckets' == buckets[b := buckets[b] - victims + {id}]
    && DroppedOne(info[id := info[id].(refCount := info[id].refCount + 1)], info', victims)
  }

  // The address is news, and its entry is not tried and not in four buckets yet.
  predicate MayEnter(i: Info, addr: Address) {
    && addr.time != 0 && (i.addr.time == 0 || i.addr.time < addr.time) && !i.inTried
    && i.refCount != NEW_BUCKETS_PER_ADDRESS
  }

  // What is known about an address heard of for the first time.
  function FirstHeard(addr: Address, source: nat, penalty: int, pos: nat): (i: Info)
    ensures i.addr.ip == addr.ip && i.source == source && i.randomPos == pos && !i.inTried && i.refCount == 0
    ensures i.lastTry == 0 && i.lastSuccess == 0
  {
    var time := addr.time - penalty;
    Info(addr.(time := U32(if time > 0 then time else 0)), source, 0, 0, 0, 0, false, pos)
  }

  // A tried entry that made way is a new entry in one bucket again.
  ghost function BackToNew(i: Info, out: bool): Info { if out then i.(inTried := false, refCount := 1) else i }

  // What is known about an address after hearing of it again: the time moves forward at most
  // once an hour for peers that are online and once a day for others, and the services add up.
  function Refreshed(info: Info, addr: Address, penalty: int, now: int): (r: Info)
    ensures SamePeer(info, r) && r.refCount == info.refCount && r.randomPos == info.randomPos
  {
    var online := now - addr.time < 24 * 60 * 60;
    var interval := if online then 60 * 60 else 24 * 60 * 60;
    var time := if addr.time != 0 && (info.addr.time == 0 || info.addr.time < addr.time - interval - penalty)
                then U32(if addr.time - penalty > 0 then addr.time - penalty else 0) else info.addr.time;
    info.(addr := info.addr.(time := time, services := info.addr.services + addr.services))
  }

  // Hearing of an address again never moves its time back, nor past the reported time, and moves
  // it at all only by more than an hour; no service is forgotten.
  lemma HearingMovesForward(info: Info, addr: Address, penalty: nat, now: int)
    requires addr.time < 0x1_0000_0000
    ensures var r := Refreshed(info, addr, penalty, now);
            && info.addr.time <= r.addr.time && (r.addr.time <= info.addr.time || r.addr.time <= addr.time)
            && (r.addr.time != info.addr.time && info.addr.time != 0 ==> r.addr.time - info.addr.time > 60 * 60)
            && info.addr.services <= r.addr.services && addr.services <= r.addr.services
  {
  }

  lemma EntryAt(info: map<Id, Info>, next: nat, id: Id)
    requires EntriesOk(info, next) && id in info
    ensures CountOk(info[id])
    ensures !info[id].inTried && info[id].refCount < NEW_BUCKETS_PER_ADDRESS ==>
              EntriesOk(info[id := info[id].(refCount := info[id].refCount + 1)], next)
  {
  }

  lemma HeldSomewhere(k: Key, t: Tables, id: Id)
    requires LinkedBut(k, t, {}) && id in t.info && !t.info[id].inTried
    ensures |t.buckets| == NEW_BUCKET_COUNT && exists c :: 0 <= c < |t.buckets| && id in t.buckets[c]
  {
    RefsZero(t.buckets, id);
  }

  lemma DroppedStats(a: map<Id, Info>, b: map<Id, Info>, victims: set<Id>)
    requires DroppedOne(a, b, victims) && AllStatsOk(a)
    ensures AllStatsOk(b)
  {
  }

  lemma StatsCounted(info: map<Id, Info>, id: Id)
    requires AllStatsOk(info) && id in info
    ensures AllStatsOk(info[id := info[id].(refCount := info[id].refCount + 1)])
  {
  }

  lemma StatsUpdated(info: map<Id, Info>, id: Id, i: Info)
    requires AllStatsOk(info)
    ensures AllStatsOk(info[id := i]) <==> StatsOk(i)
  {
    assert info[id := i][id] == i;
  }

  lemma AddrPresent(info: map<Id, Info>, addrs: map<nat, Id>, id: Id)
    requires AddrsOk(info, addrs) && id in info
    ensures info[id].addr.ip in addrs
  {
  }

  // The same peer, with the same history.
  ghost predicate SamePeer(a: Info, b: Info) {
    && a.addr.ip == b.addr.ip && a.addr.port == b.addr.port && a.source == b.source
    && a.inTried == b.inTried && a.lastSuccess == b.lastSuccess && a.lastTry == b.lastTry && a.attempts == b.attempts
  }

  lemma CreateKeeps(k: Key, info: map<Id, Info>, random: seq<Id>, addrs: map<nat, Id>, tried: seq<seq<Id>>,
                    buckets: seq<set<Id>>,
                    next: nat, nTried: int, nNew: int, i: Info)
    requires RandomOk(info, random) && AddrsOk(info, addrs) && TriedOk(k, info, tried) && NewOk(info, buckets, {})
    requires EntriesOk(info, next) && SizesOk(info, nTried, nNew) && i.addr.ip !in addrs
    requires i.randomPos == |random| && !i.inTried && i.refCount == 0
    ensures next !in info
    ensures var info' := info[next := i];
            && RandomOk(info', random + [next]) && AddrsOk(info', addrs[i.addr.ip := next]) && TriedOk(k, info', tried)
            && NewOk(info', buckets, {}) && SizesOk(info', nTried, nNew + 1)
            && EntriesOk(info'[next := i.(refCount := 1)], next + 1)
  {
    var info' := info[next := i];
    CreateTables(k, info, tried, nTried, nNew, next, i);
    CreateRefs(info, buckets, next, i);
    hide TriedOk, NewOk, SizesOk, Refs;
    assert next !in info;
  }

  lemma CreateTables(k: Key, info: map<Id, Info>, tried: seq<seq<Id>>, nTried: int, nNew: int, id: Id, i: Info)
    requires TriedOk(k, info, tried) && SizesOk(info, nTried, nNew) && id !in info && !i.inTried
    ensures TriedOk(k, info[id := i], tried) && SizesOk(info[id := i], nTried, nNew + 1)
  {
    var info' := info[id := i];
    assert TriedIds(info') == TriedIds(info) && NewIds(info') == NewIds(info) + {id};
    forall c, x | 0 <= c < |tried| && 0 <= x < |tried[c]| ensures InTriedAt(k, info', tried[c][x], c) {
      assert InTriedAt(k, info, tried[c][x], c);
    }
  }

  lemma CreateRefs(info: map<Id, Info>, buckets: seq<set<Id>>, id: Id, i: Info)
    requires NewOk(info, buckets, {}) && id !in info && i.refCount == 0
    ensures NewOk(info[id := i], buckets, {})
  {
    RefsZero(buckets, id);
  }

  lemma PendingAhead(k: Key, info: map<Id, Info>, random: seq<Id>, addrs: map<nat, Id>, tried: seq<seq<Id>>,
                     buckets: seq<set<Id>>,
                     nTried: int, nNew: int, id: Id)
    requires RandomOk(info, random) && AddrsOk(info, addrs) && TriedOk(k, info, tried) && NewOk(info, buckets, {})
    requires SizesOk(info, nTried, nNew) && id in info
    ensures var info' := info[id := info[id].(refCount := info[id].refCount + 1)];
            && RandomOk(info', random) && AddrsOk(info', addrs) && TriedOk(k, info', tried)
            && NewOk(info', buckets, {id})
            && SizesOk(info', nTried, nNew)
  {
    hide RandomOk, AddrsOk, TriedOk, NewOk, SizesOk;
    RefCountKept(k, info, id, info[id].refCount + 1, random, addrs, tried, nTried, nNew);
    AheadOne(info, info[id := info[id].(refCount := info[id].refCount + 1)], buckets, id);
  }

  // An entry already in the bucket needs no further reference.
  lemma PendingDone(info: map<Id, Info>, buckets: seq<set<Id>>, next: nat, b: nat, id: Id)
    requires NewOk(info, buckets, {}) && b < |buckets| && id in buckets[b] && id in info && !info[id].inTried
    requires EntriesOk(info[id := info[id].(refCount := info[id].refCount + 1)], next)
    ensures EntriesOk(info, next)
  {
    RefsZero(buckets, id);
    var info' := info[id := info[id].(refCount := info[id].refCount + 1)];
    assert CountOk(info'[id]);
    forall n | n in info && n != id ensures n < next && CountOk(info[n]) {
      assert CountOk(info'[n]);
    }
  }

  lemma VictimIsNew(info: map<Id, Info>, buckets: seq<set<Id>>, ahead: set<Id>, next: nat, b: nat)
    requires NewOk(info, buckets, ahead) && EntriesOk(info, next) && b < |buckets|
    ensures forall n :: n in buckets[b] ==> n in info && !info[n].inTried
  {
    forall n | n in buckets[b] ensures n in info && !info[n].inTried {
      ReferencedIsNew(info, buckets, ahead, next, b, n);
    }
  }

  lemma MovedEntries(a: map<Id, Info>, b: map<Id, Info>, next: nat)
    requires MovedOnly(a, b) && EntriesOk(a, next)
    ensures EntriesOk(b, next)
  {
  }

  ghost predicate ReadOff(info: map<Id, Info>, random: seq<Id>, addrs: seq<Address>) {
    |addrs| <= |random| && forall i :: 0 <= i < |addrs| ==> random[i] in info && addrs[i] == info[random[i]].addr
  }

  // The entry swapped to the end of what has been read off is read off next.
  lemma ReadOffNext(info0: map<Id, Info>, info: map<Id, Info>, before: seq<Id>, random: seq<Id>, addrs: seq<Address>,
                    pos: nat)
    requires ReadOff(info0, before, addrs) && |addrs| <= pos < |before| && RandomOk(info, random)
    requires MovedOnly(info0, info)
    requires random == before[|addrs| := before[pos]][pos := before[|addrs|]]
    ensures random[|addrs|] in info && ReadOff(info, random, addrs + [info[random[|addrs|]].addr])
  {
    assert random[|addrs|] in info;
  }

  // Entries read off the front of the random order are different peers.
  lemma SelectedOnce(info: map<Id, Info>, random: seq<Id>, table: map<nat, Id>, addrs: seq<Address>)
    requires RandomOk(info, random) && AddrsOk(info, table) && ReadOff(info, random, addrs)
    ensures forall i :: 0 <= i < |addrs| ==>
              addrs[i].ip in table && table[addrs[i].ip] in info && addrs[i] == info[table[addrs[i].ip]].addr
    ensures forall i, j :: 0 <= i < j < |addrs| ==> addrs[i].ip != addrs[j].ip
  {
    forall i | 0 <= i < |addrs| ensures addrs[i].ip in table && table[addrs[i].ip] == random[i] && random[i] in info {
      assert random[i] in info;
    }
    forall i, j | 0 <= i < j < |addrs| ensures random[i] != random[j] {
      assert info[random[i]].randomPos == i && info[random[j]].randomPos == j;
    }
  }

  // The new buckets, the order and the statistics after `e` and `id` have traded places.
  lemma SwapKeeps(info: map<Id, Info>, random: seq<Id>, addrs: map<nat, Id>, buckets: seq<set<Id>>, next: nat, id: Id,
                  e: Id, target: nat)
    requires RandomOk(info, random) && AddrsOk(info, addrs) && NewOk(info, buckets, {})
    requires id in info && EntriesOk(info[id := info[id].(inTried := true)], next)
    requires e in info && e != id && info[e].inTried
    requires target < |buckets| && |buckets[target]| < NEW_BUCKET_SIZE
    ensures var info' := info[e := info[e].(inTried := false, refCount := 1)][id := info[id].(inTried := true)];
            && RandomOk(info', random) && AddrsOk(info', addrs)
            && NewOk(info', buckets[target := buckets[target] + {e}], {}) && EntriesOk(info', next)
  {
    hide RandomOk, AddrsOk, NewOk, EntriesOk;
    var info1 := info[e := info[e].(inTried := false, refCount := 1)];
    var info' := info1[id := info[id].(inTried := true)];
    TriedUnreferenced(info, buckets, next, e, id);
    AheadOne(info, info1, buckets, e);
    EnterBucket(info1, buckets, target, e);
    OrderKept(info, info', random, addrs);
    LinksOfNew(info1, info', buckets[target := buckets[target] + {e}]);
    assert info' == info[id := info[id].(inTried := true)][e := info[e].(inTried := false, refCount := 1)];
    SwappedEntriesOk(info[id := info[id].(inTried := true)], info', e, next);
  }

  lemma NewBucketsSized(info: map<Id, Info>, buckets: seq<set<Id>>, ahead: set<Id>)
    requires NewOk(info, buckets, ahead)
    ensures |buckets| == NEW_BUCKET_COUNT
    ensures forall b :: 0 <= b < |buckets| ==> |buckets[b]| <= NEW_BUCKET_SIZE && buckets[b] <= info.Keys
    ensures forall n :: n in info ==> info[n].refCount == Refs(buckets, n) + if n in ahead then 1 else 0
  {
  }

  lemma TriedBucketsSized(k: Key, info: map<Id, Info>, tried: seq<seq<Id>>)
    requires TriedOk(k, info, tried)
    ensures |tried| == TRIED_BUCKET_COUNT && forall b :: 0 <= b < |tried| ==> |tried[b]| <= TRIED_BUCKET_SIZE
  {
  }

  lemma LinksOfNew(a: map<Id, Info>, b: map<Id, Info>, buckets: seq<set<Id>>)
    requires NewOk(a, buckets, {}) && a.Keys == b.Keys && forall n :: n in a ==> a[n].refCount == b[n].refCount
    ensures NewOk(b, buckets, {})
  {
  }

  lemma TriedEntryOk(a: map<Id, Info>, b: map<Id, Info>, id: Id, next: nat)
    requires EntriesOk(a, next) && id in a
    requires b == a[id := a[id].(inTried := true, refCount := 0)]
    ensures EntriesOk(b, next)
  {
  }

  lemma SwappedEntriesOk(a: map<Id, Info>, b: map<Id, Info>, out: Id, next: nat)
    requires EntriesOk(a, next) && out in a && b == a[out := a[out].(inTried := false, refCount := 1)]
    ensures EntriesOk(b, next)
  {
  }

  // A tried entry is in no new bucket.
  lemma TriedUnreferenced(info: map<Id, Info>, buckets: seq<set<Id>>, next: nat, e: Id, id: Id)
    requires id in info && EntriesOk(info[id := info[id].(inTried := true)], next)
    requires NewOk(info, buckets, {}) && e in info && e != id && info[e].inTried
    ensures info[e].refCount == 0 && forall b :: 0 <= b < |buckets| ==> e !in buckets[b]
  {
    assert CountOk(info[id := info[id].(inTried := true)][e]);
    RefsZero(buckets, e);
  }

  // The address time is an unsigned 32-bit field.
  function U32(x: int): nat { x % 0x1_0000_0000 }
}
