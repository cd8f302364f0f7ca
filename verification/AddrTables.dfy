/**
 The tables of the address manager and the invariants that tie them together.
 */
module AddrTables {
  import opened Sequences

  const TRIED_BUCKET_COUNT: nat := 64
  const TRIED_BUCKET_SIZE: nat := 64
  const NEW_BUCKET_COUNT: nat := 256
  const NEW_BUCKET_SIZE: nat := 64
  const NEW_BUCKETS_PER_ADDRESS: nat := 4
  const TRIED_ENTRIES_INSPECT_ON_EVICT: nat := 4
  const HORIZON_DAYS: nat := 30
  const RETRIES: nat := 3
  const MAX_FAILURES: nat := 10
  const MIN_FAIL_DAYS: nat := 7
  const GETADDR_MAX_PCT: nat := 23
  const GETADDR_MAX: nat := 2500

  type Id = nat

  // A peer address: the network address, the port, the service bits that are set, and when it was
  // last seen.
  datatype Address = Address(ip: nat, port: nat, services: set<nat>, time: nat)

  datatype Info = Info(addr: Address, source: nat, lastSuccess: int, lastTry: int, attempts: int,
                       refCount: int, inTried: bool, randomPos: int)

  // The two keyed hash functions that choose buckets.
  datatype Key = Key(triedHash: (nat, nat) -> nat, newHash: (nat, nat) -> nat)

  function TriedBucket(k: Key, a: Address): (b: nat)
    ensures b < TRIED_BUCKET_COUNT
  {
    k.triedHash(a.ip, a.port) % TRIED_BUCKET_COUNT
  }

  function NewBucket(k: Key, a: Address, source: nat): (b: nat)
    ensures b < NEW_BUCKET_COUNT
  {
    k.newHash(a.ip, source) % NEW_BUCKET_COUNT
  }

  predicate IsTerrible(i: Info, now: int) {
    if i.lastTry != 0 && i.lastTry >= now - 60 then false
    else if i.addr.time > now + 10 * 60 then true
    else if i.addr.time == 0 || now - i.addr.time > HORIZON_DAYS * 86400 then true
    else if i.lastSuccess == 0 && i.attempts >= RETRIES then true
    else now - i.lastSuccess > MIN_FAIL_DAYS * 86400 && i.attempts >= MAX_FAILURES
  }

  // ---------- invariants, one per cross-link ----------

  // `random` lists every id once, and every entry knows its position there.
  // Kept are entries tried in the last minute, and those seen in the last 30 days, not more than ten
  // minutes ahead, that have answered once or been tried less than three times, and have answered
  // in the last week or failed less than ten times since.
  lemma KeptIff(i: Info, now: int)
    ensures !IsTerrible(i, now) <==>
              || (i.lastTry != 0 && now - i.lastTry <= 60)
              || (&& i.addr.time != 0 && -600 <= now - i.addr.time <= 30 * 86400
                  && (i.lastSuccess != 0 || i.attempts < 3)
                  && (now - i.lastSuccess <= 7 * 86400 || i.attempts < 10))
  {
  }

  ghost predicate RandomOk(info: map<Id, Info>, random: seq<Id>) {
    && (forall n :: n in info ==> 0 <= info[n].randomPos < |random| && random[info[n].randomPos] == n)
    && (forall i :: 0 <= i < |random| ==> random[i] in info && info[random[i]].randomPos == i)
  }

  ghost predicate AddrsOk(info: map<Id, Info>, addrs: map<nat, Id>) {
    && (forall n :: n in info ==> info[n].addr.ip in addrs && addrs[info[n].addr.ip] == n)
    && (forall a :: a in addrs ==> addrs[a] in info && info[addrs[a]].addr.ip == a)
  }

  // A tried entry sits once in the bucket its address hashes to, and nowhere else.
  ghost predicate TriedOk(k: Key, info: map<Id, Info>, tried: seq<seq<Id>>) {
    && |tried| == TRIED_BUCKET_COUNT
    && (forall b :: 0 <= b < |tried| ==> |tried[b]| <= TRIED_BUCKET_SIZE && NoDup(tried[b]))
    && (forall b, i {:trigger tried[b][i]} :: 0 <= b < |tried| && 0 <= i < |tried[b]| ==>
          InTriedAt(k, info, tried[b][i], b))
    && (forall n :: n in info && info[n].inTried ==> n in tried[TriedBucket(k, info[n].addr)])
  }

  ghost predicate InTriedAt(k: Key, info: map<Id, Info>, n: Id, b: nat) {
    n in info && info[n].inTried && TriedBucket(k, info[n].addr) == b
  }

  // In how many new buckets `n` is.
  ghost function Refs(buckets: seq<set<Id>>, n: Id): nat {
    if buckets == [] then 0 else Refs(buckets[..|buckets| - 1], n) + if n in buckets[|buckets| - 1] then 1 else 0
  }

  // The new buckets hold known ids; the reference counts are exact, except that those of `ahead`
  // already count a bucket the id is about to enter.
  ghost predicate NewOk(info: map<Id, Info>, buckets: seq<set<Id>>, ahead: set<Id>) {
    && |buckets| == NEW_BUCKET_COUNT
    && (forall b :: 0 <= b < |buckets| ==> |buckets[b]| <= NEW_BUCKET_SIZE && buckets[b] <= info.Keys)
    && (forall n :: n in info ==> info[n].refCount == Refs(buckets, n) + if n in ahead then 1 else 0)
  }

  // A new entry is in one to four new buckets, a tried entry in none.
  ghost predicate CountOk(i: Info) {
    if i.inTried then i.refCount == 0 else 1 <= i.refCount <= NEW_BUCKETS_PER_ADDRESS
  }

  // No time is negative, and a tried entry has been connected to.
  ghost predicate StatsOk(i: Info) { i.lastTry >= 0 && i.lastSuccess >= 0 && (i.inTried ==> i.lastSuccess != 0) }

  ghost predicate EntriesOk(info: map<Id, Info>, next: nat) {
    forall n :: n in info ==> n < next && CountOk(info[n])
  }

  ghost predicate AllStatsOk(info: map<Id, Info>) { forall n :: n in info ==> StatsOk(info[n]) }

  ghost function TriedIds(info: map<Id, Info>): set<Id> { set n | n in info && info[n].inTried }

  ghost function NewIds(info: map<Id, Info>): set<Id> { set n | n in info && !info[n].inTried }

  ghost predicate SizesOk(info: map<Id, Info>, nTried: int, nNew: int) {
    nTried == |TriedIds(info)| && nNew == |NewIds(info)|
  }

  // The fields of the address manager.
  datatype Tables = Tables(next: nat, info: map<Id, Info>, addrs: map<nat, Id>, random: seq<Id>,
                           nTried: int, tried: seq<seq<Id>>, nNew: int, buckets: seq<set<Id>>)

  // Every table agrees with every other, but the counts of `ahead` run one ahead of the buckets.
  ghost predicate LinkedBut(k: Key, t: Tables, ahead: set<Id>) {
    && RandomOk(t.info, t.random) && AddrsOk(t.info, t.addrs) && TriedOk(k, t.info, t.tried)
    && NewOk(t.info, t.buckets, ahead) && EntriesOk(t.info, t.next) && SizesOk(t.info, t.nTried, t.nNew)
  }

  ghost predicate TablesOk(k: Key, t: Tables) { LinkedBut(k, t, {}) && AllStatsOk(t.info) }

  // ---------- reference counts ----------

  lemma {:induction false} RefsUpdate(buckets: seq<set<Id>>, b: nat, s: set<Id>, n: Id)
    requires b < |buckets|
    ensures Refs(buckets[b := s], n) ==
              Refs(buckets, n) - (if n in buckets[b] then 1 else 0) + (if n in s then 1 else 0)
  {
    var m := |buckets| - 1;
    if b < m {
      RefsUpdate(buckets[..m], b, s, n);
      assert buckets[b := s][..m] == buckets[..m][b := s];
    } else {
      assert buckets[b := s][..m] == buckets[..m];
    }
  }

  lemma {:induction false} RefsZero(buckets: seq<set<Id>>, n: Id)
    ensures Refs(buckets, n) == 0 <==> forall b :: 0 <= b < |buckets| ==> n !in buckets[b]
  {
    if buckets != [] {
      var m := |buckets| - 1;
      RefsZero(buckets[..m], n);
      assert forall b :: 0 <= b < m ==> buckets[..m][b] == buckets[b];
      if forall b :: 0 <= b < |buckets| ==> n !in buckets[b] {
        assert n !in buckets[m];
      }
    }
  }

  // ---------- sizes ----------

  lemma SizesPartition(info: map<Id, Info>)
    ensures |TriedIds(info)| + |NewIds(info)| == |info|
  {
    assert TriedIds(info) + NewIds(info) == info.Keys;
  }

  // Entries listed once each: as many positions as entries.
  lemma {:induction false} ListedOnce(ids: set<Id>, list: seq<Id>)
    requires NoDup(list) && forall n :: n in ids <==> n in list
    ensures |ids| == |list|
    decreases |list|
  {
    if list != [] {
      var m := |list| - 1;
      var rest := ids - {list[m]};
      forall n ensures n in rest <==> n in list[..m] {
        if n in list[..m] {
          var i :| 0 <= i < m && list[i] == n;
        }
      }
      ListedOnce(rest, list[..m]);
    } else {
      assert ids == {};
    }
  }

  lemma RandomSize(info: map<Id, Info>, random: seq<Id>)
    requires RandomOk(info, random)
    ensures |random| == |info| && NoDup(random)
  {
    forall n ensures n in info.Keys <==> n in random {
      if n in info { assert random[info[n].randomPos] == n; }
    }
    ListedOnce(info.Keys, random);
    assert |info.Keys| == |info|;
  }
}
