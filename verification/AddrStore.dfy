/**
 Saving and loading the address manager.

 The saved form lists the new entries and the tried entries in id order and, for every new
 bucket, the positions of its entries in the first list.  Ids, the random order, the tried
 buckets and the reference counts are rebuilt on loading.
 */
module AddrStore {
  import opened Sequences
  import opened AddrTables
  import opened AddrMan

  // What is written of an entry.
  datatype Record = Record(addr: Address, source: nat, lastSuccess: int, attempts: int)

  function RecordOf(i: Info): Record { Record(i.addr, i.source, i.lastSuccess, i.attempts) }

  datatype Saved = Saved(nNew: int, nTried: int, newRecords: seq<Record>, triedRecords: seq<Record>,
                         buckets: seq<seq<nat>>)

  // ---------- saving ----------

  // `list` holds the ids of `ids` in ascending order.
  ghost predicate Lists(list: seq<Id>, ids: set<Id>) {
    && (forall i, j :: 0 <= i < j < |list| ==> list[i] < list[j])
    && (forall n :: n in list <==> n in ids)
  }

  lemma ListsSize(list: seq<Id>, ids: set<Id>)
    requires Lists(list, ids)
    ensures |list| == |ids| && NoDup(list)
  {
    ListedOnce(ids, list);
  }

  // `bucket` gives, each once, the positions in `list` of the ids in `ids`.
  ghost predicate Positions(bucket: seq<nat>, list: seq<Id>, ids: set<Id>) {
    && NoDup(bucket)
    && (forall x :: x in bucket ==> x < |list| && list[x] in ids)
    && (forall n :: n in ids ==> exists x :: x in bucket && x < |list| && list[x] == n)
  }

  ghost predicate SavedAs(t: Tables, saved: Saved, newList: seq<Id>, triedList: seq<Id>) {
    && saved.nNew == t.nNew && saved.nTried == t.nTried
    && Lists(newList, NewIds(t.info)) && Lists(triedList, TriedIds(t.info))
    && |saved.newRecords| == |newList|
    && (forall i :: 0 <= i < |newList| ==> newList[i] in t.info && saved.newRecords[i] == RecordOf(t.info[newList[i]]))
    && |saved.triedRecords| == |triedList|
    && (forall i :: 0 <= i < |triedList| ==>
          triedList[i] in t.info && saved.triedRecords[i] == RecordOf(t.info[triedList[i]]))
    && |saved.buckets| == |t.buckets|
    && forall b :: 0 <= b < |t.buckets| ==> Positions(saved.buckets[b], newList, t.buckets[b])
  }

  // `list` holds, in ascending order, the ids of `done` whose entries are tried or not as asked.
  ghost predicate ListsPart(list: seq<Id>, info: map<Id, Info>, done: set<Id>, tried: bool) {
    && (forall i, j :: 0 <= i < j < |list| ==> list[i] < list[j])
    && (forall n :: n in list <==> n in done && n in info && info[n].inTried == tried)
  }

  ghost function Part(info: map<Id, Info>, tried: bool): set<Id> { if tried then TriedIds(info) else NewIds(info) }

  lemma PartGrows(list: seq<Id>, info: map<Id, Info>, done: set<Id>, tried: bool, n: Id)
    requires ListsPart(list, info, done, tried) && n in info && n !in done && forall m :: m in done ==> m < n
    ensures ListsPart(if info[n].inTried == tried then list + [n] else list, info, done + {n}, tried)
  {
    forall i | 0 <= i < |list| ensures list[i] < n { assert list[i] in list; }
  }

  // As many ids as there are of the kind: all of them.
  lemma PartComplete(list: seq<Id>, info: map<Id, Info>, done: set<Id>, tried: bool)
    requires ListsPart(list, info, done, tried) && (|list| == |Part(info, tried)| || info.Keys <= done)
    ensures Lists(list, Part(info, tried))
  {
    var some := set n | n in Part(info, tried) && n in done;
    assert Lists(list, some);
    ListsSize(list, some);
    if |list| == |Part(info, tried)| {
      var more := Part(info, tried) - some;
      assert Part(info, tried) == some + more && |Part(info, tried)| == |some| + |more|;
    }
    assert Part(info, tried) == some;
  }

  // The entries of one kind in id order, stopping early once the expected number is written.
  method SavePart(info: map<Id, Info>, tried: bool, count: int)
    returns (records: seq<Record>, position: map<Id, nat>, ghost list: seq<Id>)
    requires count == |Part(info, tried)| && forall n :: n in info ==> (info[n].refCount != 0 <==> !info[n].inTried)
    ensures Lists(list, Part(info, tried)) && Written(info, list, records, position)
  {
    hide ListsPart, Lists, Part, Written, Split;
    records, position, list := [], map[], [];
    var rest := info.Keys;
    ghost var done: set<Id> := {};
    EmptyPart(info, tried);
    SplitWhole(rest);
    WrittenSame(info, list, records, position);
    while rest != {}
      invariant Split(info.Keys, done, rest)
      invariant ListsPart(list, info, done, tried) && Written(info, list, records, position) && position.Keys == done
      decreases rest
    {
      WrittenSame(info, list, records, position);
      if |records| == count {
        PartComplete(list, info, done, tried);
        return;
      }
      var n := AddrMan.Least(rest);
      SplitStep(info.Keys, done, rest, n);
      PartGrows(list, info, done, tried, n);
      WrittenGrows(info, list, records, position, n);
      position := position[n := |records|];
      var take := if tried then info[n].inTried else info[n].refCount != 0;
      if take {
        records := records + [RecordOf(info[n])];
        list := list + [n];
      }
      rest, done := rest - {n}, done + {n};
    }
    SplitDone(info.Keys, done);
    PartComplete(list, info, done, tried);
  }

  // The ids already seen and those to come, all of them later.
  ghost predicate Split(keys: set<Id>, done: set<Id>, rest: set<Id>) {
    && rest + done == keys && rest !! done
    && forall n, m :: n in done && m in rest ==> n < m
  }

  lemma SplitWhole(keys: set<Id>)
    ensures Split(keys, {}, keys)
  {
  }

  lemma SplitDone(keys: set<Id>, done: set<Id>)
    requires Split(keys, done, {})
    ensures keys <= done
  {
  }

  lemma SplitStep(keys: set<Id>, done: set<Id>, rest: set<Id>, n: Id)
    requires Split(keys, done, rest) && n in rest && forall m :: m in rest ==> n <= m
    ensures n in keys && n !in done && (forall m :: m in done ==> m < n)
    ensures Split(keys, done + {n}, rest - {n})
  {
  }

  lemma EmptyPart(info: map<Id, Info>, tried: bool)
    ensures ListsPart([], info, {}, tried)
  {
  }

  // The records of the listed entries, and the position of each id in the list.
  ghost predicate Written(info: map<Id, Info>, list: seq<Id>, records: seq<Record>, position: map<Id, nat>) {
    && |records| == |list|
    && forall i :: 0 <= i < |list| ==>
         list[i] in info && records[i] == RecordOf(info[list[i]]) && list[i] in position && position[list[i]] == i
  }

  lemma WrittenSame(info: map<Id, Info>, list: seq<Id>, records: seq<Record>, position: map<Id, nat>)
    ensures Written(info, list, records, position) ==> |records| == |list|
    ensures list == [] && records == [] ==> Written(info, list, records, position)
  {
  }

  lemma WrittenGrows(info: map<Id, Info>, list: seq<Id>, records: seq<Record>, position: map<Id, nat>, n: Id)
    requires Written(info, list, records, position) && n in info && n !in position
    ensures Written(info, list, records, position[n := |records|])
    ensures Written(info, list + [n], records + [RecordOf(info[n])], position[n := |records|])
  {
  }

  // The positions of the ids of a bucket, in id order.
  method SaveBucket(ids: set<Id>, position: map<Id, nat>, ghost list: seq<Id>) returns (bucket: seq<nat>)
    requires forall n :: n in ids ==> n in position && position[n] < |list| && list[position[n]] == n
    ensures Positions(bucket, list, ids)
  {
    bucket := [];
    var rest := ids;
    while rest != {}
      invariant rest <= ids && Positions(bucket, list, ids - rest)
      decreases rest
    {
      var n := AddrMan.Least(rest);
      assert position[n] !in bucket;
      bucket := bucket + [position[n]];
      assert ids - (rest - {n}) == (ids - rest) + {n};
      rest := rest - {n};
    }
    assert ids - rest == ids;
  }

  method Save(ghost k: Key, t: Tables) returns (saved: Saved, ghost newList: seq<Id>, ghost triedList: seq<Id>)
    requires TablesOk(k, t)
    ensures SavedAs(t, saved, newList, triedList)
    ensures exists a, b :: SavedAs(t, saved, a, b)
  {
    hide RandomOk, AddrsOk, TriedOk, Lists, Positions;
    var newRecords, position, buckets;
    newRecords, position, newList := SavePart(t.info, false, t.nNew);
    var triedRecords, unused;
    triedRecords, unused, triedList := SavePart(t.info, true, t.nTried);
    buckets := [];
    for b := 0 to |t.buckets|
      invariant |buckets| == b && forall c :: 0 <= c < b ==> Positions(buckets[c], newList, t.buckets[c])
    {
      forall n | n in t.buckets[b] ensures n in position && position[n] < |newList| && newList[position[n]] == n {
        ReferencedIsNew(t.info, t.buckets, {}, t.next, b, n);
        ListedSomewhere(newList, NewIds(t.info), n);
      }
      var bucket := SaveBucket(t.buckets[b], position, newList);
      buckets := buckets + [bucket];
    }
    saved := Saved(t.nNew, t.nTried, newRecords, triedRecords, buckets);
  }

  lemma ListedSomewhere(list: seq<Id>, ids: set<Id>, n: Id)
    requires Lists(list, ids) && n in ids
    ensures exists i :: 0 <= i < |list| && list[i] == n
  {
  }

  // ---------- loading ----------

  // The ids that the tried records of one bucket get, in order; `base` is the first id given out.
  function TriedOf(k: Key, records: seq<Record>, base: nat, b: nat): seq<Id> {
    if records == [] then []
    else
      var m := |records| - 1;
      TriedOf(k, records[..m], base, b) + if TriedBucket(k, records[m].addr) == b then [base + m] else []
  }

  ghost predicate TriedFit(k: Key, records: seq<Record>) {
    forall b :: 0 <= b < TRIED_BUCKET_COUNT ==> |TriedOf(k, records, 0, b)| <= TRIED_BUCKET_SIZE
  }

  lemma {:induction false} TriedOfPrefix(k: Key, records: seq<Record>, base: nat, b: nat, m: nat)
    requires m <= |records|
    ensures |TriedOf(k, records[..m], base, b)| <= |TriedOf(k, records, base, b)| == |TriedOf(k, records, 0, b)|
    decreases |records|
  {
    if m < |records| {
      assert records[..|records| - 1][..m] == records[..m];
      TriedOfPrefix(k, records[..|records| - 1], base, b, m);
    } else {
      assert records[..m] == records;
      if records != [] {
        TriedOfPrefix(k, records[..m - 1], base, b, m - 1);
      }
    }
  }

  function BucketSets(buckets: seq<seq<nat>>): (sets: seq<set<Id>>)
    ensures |sets| == |buckets| && forall b :: 0 <= b < |sets| ==> sets[b] == SetOf(buckets[b])
  {
    seq(|buckets|, b requires 0 <= b < |buckets| => SetOf(buckets[b]))
  }

  // No position is listed twice in a bucket or in more buckets than an entry may be in.
  ghost predicate NewFit(saved: Saved) {
    && (forall b :: 0 <= b < |saved.buckets| ==> NoDup(saved.buckets[b]))
    && (forall x: Id :: Refs(BucketSets(saved.buckets), x) <= NEW_BUCKETS_PER_ADDRESS)
  }

  // A stream with as many records as its header says, no more buckets than there are, and
  // positions that exist.
  predicate Complete(saved: Saved) {
    && saved.nNew == |saved.newRecords| && saved.nTried == |saved.triedRecords| && |saved.buckets| <= NEW_BUCKET_COUNT
    && forall b, i :: 0 <= b < |saved.buckets| && 0 <= i < |saved.buckets[b]| ==>
         saved.buckets[b][i] < |saved.newRecords|
  }

  // The stream comes from a manager with another number of new buckets.
  predicate Resized(saved: Saved) { |saved.buckets| != NEW_BUCKET_COUNT }

  // Every new entry in the one bucket that its address and its source hash to.
  function OwnBuckets(k: Key, records: seq<Record>): (sets: seq<set<Id>>)
    ensures |sets| == NEW_BUCKET_COUNT
    ensures forall b, n: Id :: 0 <= b < |sets| ==>
              (n in sets[b] <==> n < |records| && NewBucket(k, records[n].addr, records[n].source) == b)
  {
    seq(NEW_BUCKET_COUNT, b requires 0 <= b < NEW_BUCKET_COUNT =>
      set n: nat | n < |records| && NewBucket(k, records[n].addr, records[n].source) == b)
  }

  lemma OwnBucketsNext(k: Key, records: seq<Record>, n: nat)
    requires n < |records|
    ensures var b, sets := NewBucket(k, records[n].addr, records[n].source), OwnBuckets(k, records[..n]);
            OwnBuckets(k, records[..n + 1]) == sets[b := sets[b] + {n}]
  {
    var b := NewBucket(k, records[n].addr, records[n].source);
    var sets, sets' := OwnBuckets(k, records[..n]), OwnBuckets(k, records[..n + 1]);
    forall c | 0 <= c < NEW_BUCKET_COUNT ensures sets'[c] == sets[b := sets[b] + {n}][c] {
      forall x: Id ensures x in sets'[c] <==> x in sets[b := sets[b] + {n}][c] {
      }
    }
  }

  // The new buckets as loaded: those of the stream, unless their number has changed.
  function SetsOf(k: Key, saved: Saved): seq<set<Id>> {
    if Resized(saved) then OwnBuckets(k, saved.newRecords) else BucketSets(saved.buckets)
  }

  function AllRecords(saved: Saved): seq<Record> { saved.newRecords + saved.triedRecords }

  // The entry that record `id` becomes, before the buckets of the stream are read.
  function EntryOf(saved: Saved, id: nat): Info
    requires id < |AllRecords(saved)|
  {
    var r := AllRecords(saved)[id];
    var isNew := id < |saved.newRecords|;
    Info(r.addr, r.source, r.lastSuccess, 0, r.attempts, if Resized(saved) && isNew then 1 else 0, !isNew, id)
  }

  function InfoOf(saved: Saved, m: nat): map<Id, Info>
    requires m <= |AllRecords(saved)|
  {
    map id: nat | id < m :: EntryOf(saved, id)
  }

  function AddrsOf(saved: Saved, m: nat): map<nat, Id>
    requires m <= |AllRecords(saved)|
  {
    if m == 0 then map[] else AddrsOf(saved, m - 1)[AllRecords(saved)[m - 1].addr.ip := m - 1]
  }

  function Numbers(m: nat): seq<Id> { seq(m, i => i) }

  lemma RecordNext(saved: Saved, n: nat)
    requires n < |AllRecords(saved)|
    ensures InfoOf(saved, n + 1) == InfoOf(saved, n)[n := EntryOf(saved, n)]
    ensures AddrsOf(saved, n + 1) == AddrsOf(saved, n)[AllRecords(saved)[n].addr.ip := n]
    ensures Numbers(n + 1) == Numbers(n) + [n] && |Numbers(n)| == n
  {
    hide EntryOf;
  }

  function TriedTable(k: Key, records: seq<Record>, base: nat): (t: seq<seq<Id>>)
    ensures |t| == TRIED_BUCKET_COUNT && forall b :: 0 <= b < |t| ==> t[b] == TriedOf(k, records, base, b)
  {
    seq(TRIED_BUCKET_COUNT, b requires 0 <= b < TRIED_BUCKET_COUNT => TriedOf(k, records, base, b))
  }

  // What a fitting stream loads as.
  ghost function Loaded(k: Key, saved: Saved): Tables
    requires Complete(saved)
  {
    var n, sets := |AllRecords(saved)|, SetsOf(k, saved);
    Tables(n, map id: nat | id < n :: EntryOf(saved, id).(refCount := Refs(sets, id)), AddrsOf(saved, n), Numbers(n),
           saved.nTried, TriedTable(k, saved.triedRecords, |saved.newRecords|), saved.nNew, sets)
  }

  // Reads the new entries: ids from 0 on, in no bucket yet unless the number of buckets has changed.
  method LoadNew(k: Key, saved: Saved)
    returns (info: map<Id, Info>, addrs: map<nat, Id>, random: seq<Id>, buckets: seq<set<Id>>)
    requires Complete(saved)
    ensures var base := |saved.newRecords|;
            info == InfoOf(saved, base) && addrs == AddrsOf(saved, base) && random == Numbers(base)
    ensures buckets == if Resized(saved) then OwnBuckets(k, saved.newRecords) else seq(NEW_BUCKET_COUNT, _ => {})
  {
    hide AddrsOf, OwnBuckets, NewBucket;
    info, addrs, random := map[], map[], [];
    buckets := seq(NEW_BUCKET_COUNT, _ => {});
    EmptyTables(k, saved, buckets);
    for n := 0 to |saved.newRecords|
      invariant info == InfoOf(saved, n) && addrs == AddrsOf(saved, n) && random == Numbers(n)
      invariant buckets == if Resized(saved) then OwnBuckets(k, saved.newRecords[..n])
                           else seq(NEW_BUCKET_COUNT, _ => {})
    {
      hide InfoOf, Numbers;
      var r := saved.newRecords[n];
      assert AllRecords(saved)[n] == r;
      RecordNext(saved, n);
      info := info[n := Info(r.addr, r.source, r.lastSuccess, 0, r.attempts, 0, false, |random|)];
      addrs := addrs[r.addr.ip := n];
      random := random + [n];
      if Resized(saved) {
        var b := NewBucket(k, r.addr, r.source);
        OwnBucketsNext(k, saved.newRecords, n);
        buckets := buckets[b := buckets[b] + {n}];
        info := info[n := info[n].(refCount := info[n].refCount + 1)];
      }
    }
    assert saved.newRecords[..|saved.newRecords|] == saved.newRecords;
  }

  lemma EmptyTables(k: Key, saved: Saved, buckets: seq<set<Id>>)
    requires |buckets| == NEW_BUCKET_COUNT && forall b :: 0 <= b < |buckets| ==> buckets[b] == {}
    ensures InfoOf(saved, 0) == map[] && AddrsOf(saved, 0) == map[] && Numbers(0) == []
    ensures OwnBuckets(k, saved.newRecords[..0]) == buckets
  {
    forall b | 0 <= b < |buckets| ensures OwnBuckets(k, saved.newRecords[..0])[b] == buckets[b] {
    }
  }

  // Reads the tried entries into the buckets their addresses hash to; one that finds its bucket
  // full is lost.
  method LoadTried(k: Key, saved: Saved, info0: map<Id, Info>, addrs0: map<nat, Id>, random0: seq<Id>)
    returns (next: nat, info: map<Id, Info>, addrs: map<nat, Id>, random: seq<Id>, tried: seq<seq<Id>>, lost: nat)
    requires Complete(saved)
    requires ReadUpTo(saved, |saved.newRecords|, info0, addrs0, random0)
    ensures lost == 0 <==> TriedFit(k, saved.triedRecords)
    ensures forall x: nat :: x < |saved.newRecords| ==> x in info
    ensures !Resized(saved) ==> forall n :: n in info ==> info[n].refCount == 0
    ensures lost == 0 ==> && next == |AllRecords(saved)| && ReadUpTo(saved, next, info, addrs, random)
                          && tried == TriedTable(k, saved.triedRecords, |saved.newRecords|)
  {
    hide TriedSoFar, TriedFit, ReadUpTo;
    var base := |saved.newRecords|;
    next, info, addrs, random, lost := base, info0, addrs0, random0, 0;
    tried := seq(TRIED_BUCKET_COUNT, _ => []);
    TriedStart(k, saved.triedRecords, base, tried);
    NoneReferenced(saved, info0, addrs0, random0);
    for n := 0 to |saved.triedRecords|
      invariant |tried| == TRIED_BUCKET_COUNT
      invariant forall x: nat :: x < base ==> x in info
      invariant !Resized(saved) ==> forall n :: n in info ==> info[n].refCount == 0
      invariant lost == 0 ==> next == base + n && ReadUpTo(saved, next, info, addrs, random)
      invariant lost == 0 ==> TriedSoFar(k, saved.triedRecords, base, n, tried)
      invariant lost > 0 ==> !TriedFit(k, saved.triedRecords)
    {
      var r := saved.triedRecords[n];
      var b := TriedBucket(k, r.addr);
      if lost == 0 {
        TriedNext(k, saved.triedRecords, base, n, tried);
        ReadTried(saved, n, info, addrs, random);
      }
      if |tried[b]| < TRIED_BUCKET_SIZE {
        info := info[next := Info(r.addr, r.source, r.lastSuccess, 0, r.attempts, 0, true, |random|)];
        random := random + [next];
        addrs := addrs[r.addr.ip := next];
        tried := tried[b := tried[b] + [next]];
        next := next + 1;
      } else {
        lost := lost + 1;
      }
    }
    if lost == 0 {
      TriedEnd(k, saved.triedRecords, base, tried);
    }
  }

  // The id table, the address table and the random order after the first `m` records, none of them lost.
  ghost predicate ReadUpTo(saved: Saved, m: nat, info: map<Id, Info>, addrs: map<nat, Id>, random: seq<Id>)
    requires m <= |AllRecords(saved)|
  {
    info == InfoOf(saved, m) && addrs == AddrsOf(saved, m) && random == Numbers(m)
  }

  lemma NoneReferenced(saved: Saved, info: map<Id, Info>, addrs: map<nat, Id>, random: seq<Id>)
    requires ReadUpTo(saved, |saved.newRecords|, info, addrs, random)
    ensures forall x: nat :: x < |saved.newRecords| ==> x in info
    ensures !Resized(saved) ==> forall n :: n in info ==> info[n].refCount == 0
  {
  }

  lemma ReadTried(saved: Saved, n: nat, info: map<Id, Info>, addrs: map<nat, Id>, random: seq<Id>)
    requires n < |saved.triedRecords| && ReadUpTo(saved, |saved.newRecords| + n, info, addrs, random)
    ensures var next, r := |saved.newRecords| + n, saved.triedRecords[n];
            var i := Info(r.addr, r.source, r.lastSuccess, 0, r.attempts, 0, true, |random|);
            ReadUpTo(saved, next + 1, info[next := i], addrs[r.addr.ip := next], random + [next])
  {
    hide InfoOf, AddrsOf, Numbers;
    RecordNext(saved, |saved.newRecords| + n);
    assert AllRecords(saved)[|saved.newRecords| + n] == saved.triedRecords[n];
  }

  // The tried buckets after the first `n` records, none of them lost.
  ghost predicate TriedSoFar(k: Key, records: seq<Record>, base: nat, n: nat, tried: seq<seq<Id>>)
    requires n <= |records|
  {
    && |tried| == TRIED_BUCKET_COUNT
    && forall b :: 0 <= b < TRIED_BUCKET_COUNT ==>
         tried[b] == TriedOf(k, records[..n], base, b) && |tried[b]| <= TRIED_BUCKET_SIZE
  }

  lemma TriedStart(k: Key, records: seq<Record>, base: nat, tried: seq<seq<Id>>)
    requires |tried| == TRIED_BUCKET_COUNT && forall b :: 0 <= b < |tried| ==> tried[b] == []
    ensures TriedSoFar(k, records, base, 0, tried)
  {
    EmptyTried(k, base);
    assert records[..0] == [];
  }

  lemma TriedNext(k: Key, records: seq<Record>, base: nat, n: nat, tried: seq<seq<Id>>)
    requires n < |records| && TriedSoFar(k, records, base, n, tried)
    ensures var b := TriedBucket(k, records[n].addr);
            && |tried| == TRIED_BUCKET_COUNT
            && (|tried[b]| < TRIED_BUCKET_SIZE ==>
                  TriedSoFar(k, records, base, n + 1, tried[b := tried[b] + [base + n]]))
            && (|tried[b]| >= TRIED_BUCKET_SIZE ==> !TriedFit(k, records))
  {
    hide TriedOf;
    var b := TriedBucket(k, records[n].addr);
    forall c: nat { TriedOfStep(k, records, base, c, n); }
    TriedOfPrefix(k, records, base, b, n + 1);
  }

  lemma TriedEnd(k: Key, records: seq<Record>, base: nat, tried: seq<seq<Id>>)
    requires TriedSoFar(k, records, base, |records|, tried)
    ensures TriedFit(k, records) && tried == TriedTable(k, records, base)
  {
    hide TriedOf;
    assert records[..|records|] == records;
    forall b | 0 <= b < TRIED_BUCKET_COUNT ensures |TriedOf(k, records, 0, b)| <= TRIED_BUCKET_SIZE {
      TriedOfPrefix(k, records, base, b, 0);
    }
  }

  lemma EmptyTried(k: Key, base: nat)
    ensures forall b: nat :: TriedOf(k, [], base, b) == []
  {
  }

  lemma TriedOfStep(k: Key, records: seq<Record>, base: nat, b: nat, n: nat)
    requires n < |records|
    ensures TriedOf(k, records[..n + 1], base, b) ==
              TriedOf(k, records[..n], base, b) + if TriedBucket(k, records[n].addr) == b then [base + n] else []
  {
    assert records[..n + 1][..n] == records[..n];
  }

  // ---------- the reference counts while loading ----------

  lemma {:induction false} RefsMonotone(a: seq<set<Id>>, b: seq<set<Id>>, n: Id)
    requires |a| == |b| && forall c :: 0 <= c < |a| ==> a[c] <= b[c]
    ensures Refs(a, n) <= Refs(b, n)
    ensures forall c :: 0 <= c < |a| && n !in a[c] && n in b[c] ==> Refs(a, n) < Refs(b, n)
  {
    if a != [] {
      var m := |a| - 1;
      RefsMonotone(a[..m], b[..m], n);
      forall c | 0 <= c < |a| && n !in a[c] && n in b[c] ensures Refs(a, n) < Refs(b, n) {
        if c < m { assert a[..m][c] == a[c] && b[..m][c] == b[c]; }
      }
    }
  }

  // The entries with the counts that the buckets filled so far imply.
  ghost predicate Counted(start: map<Id, Info>, info: map<Id, Info>, buckets: seq<set<Id>>) {
    info.Keys == start.Keys && forall n :: n in info ==> info[n] == start[n].(refCount := Refs(buckets, n))
  }

  lemma CountedStep(start: map<Id, Info>, info: map<Id, Info>, buckets: seq<set<Id>>, b: nat, x: Id)
    requires Counted(start, info, buckets) && b < |buckets| && x !in buckets[b] && x in info
    ensures Counted(start, info[x := info[x].(refCount := info[x].refCount + 1)], buckets[b := buckets[b] + {x}])
  {
    forall n | n in info ensures Refs(buckets[b := buckets[b] + {x}], n) == Refs(buckets, n) + if n == x then 1 else 0 {
      RefsUpdate(buckets, b, buckets[b] + {x}, n);
    }
  }

  // Fills the new buckets; an entry already in four of them is skipped.
  method LoadBuckets(saved: Saved, start: map<Id, Info>) returns (info: map<Id, Info>, buckets: seq<set<Id>>)
    requires Complete(saved) && !Resized(saved) && forall x: nat :: x < |saved.newRecords| ==> x in start
    requires forall n :: n in start ==> start[n].refCount == 0
    ensures NewFit(saved) ==> buckets == BucketSets(saved.buckets) && Counted(start, info, buckets)
  {
    hide Refs;
    info := start;
    buckets := seq(NEW_BUCKET_COUNT, _ => {});
    ghost var sets := BucketSets(saved.buckets);
    EmptyCounted(start, buckets);
    for b := 0 to NEW_BUCKET_COUNT
      invariant |buckets| == NEW_BUCKET_COUNT && info.Keys == start.Keys
      invariant NewFit(saved) ==> Counted(start, info, buckets)
      invariant NewFit(saved) ==> forall c :: 0 <= c < NEW_BUCKET_COUNT ==> buckets[c] == if c < b then sets[c] else {}
    {
      for i := 0 to |saved.buckets[b]|
        invariant |buckets| == NEW_BUCKET_COUNT && info.Keys == start.Keys
        invariant NewFit(saved) ==> Counted(start, info, buckets)
        invariant NewFit(saved) ==>
                    forall c :: 0 <= c < NEW_BUCKET_COUNT && c != b ==> buckets[c] == if c < b then sets[c] else {}
        invariant NewFit(saved) ==> buckets[b] == SetOf(saved.buckets[b][..i])
      {
        var x := saved.buckets[b][i];
        if NewFit(saved) {
          RefsMonotone(buckets, sets, x);
          assert x !in buckets[b] && x in sets[b];
          CountedStep(start, info, buckets, b, x);
        }
        if info[x].refCount < NEW_BUCKETS_PER_ADDRESS {
          info := info[x := info[x].(refCount := info[x].refCount + 1)];
          buckets := buckets[b := buckets[b] + {x}];
        }
        assert SetOf(saved.buckets[b][..i + 1]) == SetOf(saved.buckets[b][..i]) + {x};
      }
      assert saved.buckets[b][..|saved.buckets[b]|] == saved.buckets[b];
    }
  }

  lemma EmptyCounted(start: map<Id, Info>, buckets: seq<set<Id>>)
    requires forall n :: n in start ==> start[n].refCount == 0
    requires forall b :: 0 <= b < |buckets| ==> buckets[b] == {}
    ensures Counted(start, start, buckets)
  {
    forall n | n in start ensures Refs(buckets, n) == 0 {
      RefsZero(buckets, n);
    }
  }

  // Rebuilds the tables.  The bucket lists count only if their number has not changed.
  method Load(k: Key, saved: Saved) returns (t: Tables, lost: nat)
    requires Complete(saved)
    ensures lost == 0 <==> TriedFit(k, saved.triedRecords)
    ensures TriedFit(k, saved.triedRecords) && (Resized(saved) || NewFit(saved)) ==> t == Loaded(k, saved)
  {
    hide Refs, TriedFit, NewFit, AddrsOf, TriedOf, OwnBuckets;
    var info, addrs, random, buckets := LoadNew(k, saved);
    var next, tried;
    next, info, addrs, random, tried, lost := LoadTried(k, saved, info, addrs, random);
    if !Resized(saved) {
      info, buckets := LoadBuckets(saved, info);
    }
    t := Tables(next, info, addrs, random, saved.nTried - lost, tried, saved.nNew, buckets);
    if lost == 0 && (Resized(saved) || NewFit(saved)) {
      forall n: Id | Resized(saved) { OwnRefs(k, saved.newRecords, n); }
      assert t.info == Loaded(k, saved).info;
    }
  }

  lemma {:induction false} RefsOnce(buckets: seq<set<Id>>, n: Id, b: nat)
    requires b < |buckets| && forall c :: 0 <= c < |buckets| ==> (n in buckets[c] <==> c == b)
    ensures Refs(buckets, n) == 1
  {
    var m := |buckets| - 1;
    if b < m {
      RefsOnce(buckets[..m], n, b);
    } else {
      RefsZero(buckets[..m], n);
    }
  }

  // Rebuilt buckets hold every new entry once.
  lemma OwnRefs(k: Key, records: seq<Record>, n: Id)
    ensures Refs(OwnBuckets(k, records), n) == if n < |records| then 1 else 0
  {
    if n < |records| {
      RefsOnce(OwnBuckets(k, records), n, NewBucket(k, records[n].addr, records[n].source));
    } else {
      RefsZero(OwnBuckets(k, records), n);
    }
  }

  // ---------- the round trip ----------

  // `t'` is `t` with id `all[i]` renumbered to `i`: the same peers with the same history, in the
  // same new buckets and the same tried buckets.  Only the time of the last attempt, which is not
  // saved, and the random order start over.
  ghost predicate Renumbered(t: Tables, t': Tables, all: seq<Id>) {
    && SameEntries(t, t', all) && SameNew(t, t', all) && SameTried(t, t', all) && SameAddrs(t, t', all)
    && t'.nNew == t.nNew && t'.nTried == t.nTried && t'.next == |all|
  }

  ghost predicate SameEntries(t: Tables, t': Tables, all: seq<Id>) {
    && NoDup(all) && (forall n :: n in all <==> n in t.info)
    && (forall i :: i in t'.info <==> 0 <= i < |all|)
    && (forall i :: 0 <= i < |all| ==> all[i] in t.info && t'.info[i] == t.info[all[i]].(lastTry := 0, randomPos := i))
  }

  ghost predicate SameNew(t: Tables, t': Tables, all: seq<Id>) {
    && |t'.buckets| == |t.buckets|
    && (forall b, i: Id :: 0 <= b < |t.buckets| ==> (i in t'.buckets[b] <==> i < |all| && all[i] in t.buckets[b]))
  }

  ghost predicate SameTried(t: Tables, t': Tables, all: seq<Id>) {
    && |t'.tried| == |t.tried|
    && (forall b, i: Id :: 0 <= b < |t.tried| ==> (i in t'.tried[b] <==> i < |all| && all[i] in t.tried[b]))
  }

  ghost predicate SameAddrs(t: Tables, t': Tables, all: seq<Id>) {
    && t'.addrs.Keys == t.addrs.Keys
    && (forall a :: a in t'.addrs ==> t'.addrs[a] < |all| && all[t'.addrs[a]] == t.addrs[a])
  }

  // What is saved tells apart everything that matters.
  lemma SavedComplete(k: Key, t: Tables, saved: Saved, newList: seq<Id>, triedList: seq<Id>)
    requires TablesOk(k, t) && SavedAs(t, saved, newList, triedList)
    ensures Complete(saved) && !Resized(saved)
  {
    ListsSize(newList, NewIds(t.info));
    ListsSize(triedList, TriedIds(t.info));
    forall b, i | 0 <= b < |saved.buckets| && 0 <= i < |saved.buckets[b]| ensures saved.buckets[b][i] < |newList| {
      assert Positions(saved.buckets[b], newList, t.buckets[b]);
      assert saved.buckets[b][i] in saved.buckets[b];
    }
  }

  lemma {:induction false} RefsSame(a: seq<set<Id>>, x: Id, b: seq<set<Id>>, n: Id)
    requires |a| == |b| && forall c :: 0 <= c < |a| ==> (x in a[c] <==> n in b[c])
    ensures Refs(a, x) == Refs(b, n)
  {
    if a != [] {
      var m := |a| - 1;
      RefsSame(a[..m], x, b[..m], n);
    }
  }

  // A saved bucket holds position `x` exactly when the bucket holds the id at that position.
  lemma SavedBucket(t: Tables, saved: Saved, newList: seq<Id>, triedList: seq<Id>, b: nat, x: Id)
    requires SavedAs(t, saved, newList, triedList) && b < |t.buckets|
    ensures x in BucketSets(saved.buckets)[b] <==> x < |newList| && newList[x] in t.buckets[b]
  {
    assert Positions(saved.buckets[b], newList, t.buckets[b]);
    ListsSize(newList, NewIds(t.info));
    if x < |newList| && newList[x] in t.buckets[b] {
      var y :| y in saved.buckets[b] && y < |newList| && newList[y] == newList[x];
    }
  }

  lemma SavedRefs(k: Key, t: Tables, saved: Saved, newList: seq<Id>, triedList: seq<Id>, x: Id)
    requires TablesOk(k, t) && SavedAs(t, saved, newList, triedList)
    ensures Refs(BucketSets(saved.buckets), x) == if x < |newList| then t.info[newList[x]].refCount else 0
  {
    hide TriedOk, RandomOk, AddrsOk, Refs, Lists;
    var sets := BucketSets(saved.buckets);
    forall b | 0 <= b < |t.buckets| ensures x in sets[b] <==> x < |newList| && newList[x] in t.buckets[b] {
      SavedBucket(t, saved, newList, triedList, b, x);
    }
    if x < |newList| {
      RefsSame(sets, x, t.buckets, newList[x]);
    } else {
      RefsZero(sets, x);
    }
  }

  lemma SavedNewFits(k: Key, t: Tables, saved: Saved, newList: seq<Id>, triedList: seq<Id>)
    requires TablesOk(k, t) && SavedAs(t, saved, newList, triedList)
    ensures NewFit(saved)
  {
    hide TriedOk, RandomOk, AddrsOk, Refs, NewOk;
    forall b | 0 <= b < |saved.buckets| ensures NoDup(saved.buckets[b]) {
      assert Positions(saved.buckets[b], newList, t.buckets[b]);
    }
    forall x: Id ensures Refs(BucketSets(saved.buckets), x) <= NEW_BUCKETS_PER_ADDRESS {
      SavedRefs(k, t, saved, newList, triedList, x);
      if x < |newList| { assert CountOk(t.info[newList[x]]); }
    }
  }

  lemma {:induction false} TriedOfIs(k: Key, records: seq<Record>, base: nat, b: nat)
    ensures NoDup(TriedOf(k, records, base, b))
    ensures forall x: Id :: x in TriedOf(k, records, base, b) <==>
              base <= x < base + |records| && TriedBucket(k, records[x - base].addr) == b
  {
    if records != [] {
      var m := |records| - 1;
      TriedOfIs(k, records[..m], base, b);
      var init := TriedOf(k, records[..m], base, b);
      forall i | 0 <= i < |init| ensures init[i] < base + m { assert init[i] in init; }
    }
  }

  // The tried records of a bucket are as many as the bucket has entries.
  lemma SavedTriedSize(k: Key, t: Tables, saved: Saved, newList: seq<Id>, triedList: seq<Id>, b: nat)
    requires TablesOk(k, t) && SavedAs(t, saved, newList, triedList) && b < |t.tried|
    ensures |TriedOf(k, saved.triedRecords, 0, b)| == |t.tried[b]|
  {
    hide RandomOk, AddrsOk, NewOk, TriedOf;
    var places := TriedOf(k, saved.triedRecords, 0, b);
    TriedOfIs(k, saved.triedRecords, 0, b);
    ListsSize(triedList, TriedIds(t.info));
    var ids := seq(|places|, j requires 0 <= j < |places| => TriedAt(triedList, places, j));
    var inBucket := set n | n in t.tried[b];
    TriedPlaces(k, t, saved, newList, triedList, b, places, ids);
    ListedOnce(inBucket, ids);
    ListedOnce(inBucket, t.tried[b]);
  }

  ghost function TriedAt(list: seq<Id>, places: seq<Id>, j: nat): Id
    requires j < |places|
  {
    if places[j] < |list| then list[places[j]] else 0
  }

  lemma TriedPlaces(k: Key, t: Tables, saved: Saved, newList: seq<Id>, triedList: seq<Id>, b: nat, places: seq<Id>,
                    ids: seq<Id>)
    requires TablesOk(k, t) && SavedAs(t, saved, newList, triedList) && b < |t.tried|
    requires NoDup(places) && NoDup(triedList)
    requires forall x: Id :: x in places <==>
               0 <= x < |saved.triedRecords| && TriedBucket(k, saved.triedRecords[x].addr) == b
    requires |ids| == |places| && forall j :: 0 <= j < |ids| ==> ids[j] == TriedAt(triedList, places, j)
    ensures NoDup(ids) && forall n :: n in ids <==> n in t.tried[b]
  {
    hide RandomOk, AddrsOk, NewOk, EntriesOk, SizesOk, TriedBucket;
    forall j | 0 <= j < |places| ensures places[j] < |triedList| && ids[j] == triedList[places[j]] {
      assert places[j] in places;
    }
    forall n | n in ids ensures n in t.tried[b] {
      var j :| 0 <= j < |ids| && ids[j] == n;
      assert places[j] in places && n in triedList;
    }
    forall n | n in t.tried[b] ensures n in ids {
      var i :| 0 <= i < |t.tried[b]| && t.tried[b][i] == n;
      assert InTriedAt(k, t.info, t.tried[b][i], b);
      assert n in TriedIds(t.info) && n in triedList;
      var x :| 0 <= x < |triedList| && triedList[x] == n;
      assert x in places;
      var j :| 0 <= j < |places| && places[j] == x;
      assert ids[j] == n;
    }
  }

  lemma SavedTriedFits(k: Key, t: Tables, saved: Saved, newList: seq<Id>, triedList: seq<Id>)
    requires TablesOk(k, t) && SavedAs(t, saved, newList, triedList)
    ensures TriedFit(k, saved.triedRecords)
  {
    forall b | 0 <= b < TRIED_BUCKET_COUNT ensures |TriedOf(k, saved.triedRecords, 0, b)| <= TRIED_BUCKET_SIZE {
      SavedTriedSize(k, t, saved, newList, triedList, b);
    }
  }

  lemma AllListed(t: Tables, newList: seq<Id>, triedList: seq<Id>)
    requires Lists(newList, NewIds(t.info)) && Lists(triedList, TriedIds(t.info))
    ensures NoDup(newList + triedList) && forall n :: n in newList + triedList <==> n in t.info
    ensures forall i :: 0 <= i < |newList| ==> newList[i] in t.info && !t.info[newList[i]].inTried
    ensures forall i :: 0 <= i < |triedList| ==> triedList[i] in t.info && t.info[triedList[i]].inTried
  {
    forall i | 0 <= i < |newList| ensures newList[i] in NewIds(t.info) { assert newList[i] in newList; }
    forall i | 0 <= i < |triedList| ensures triedList[i] in TriedIds(t.info) { assert triedList[i] in triedList; }
    forall n | n in t.info ensures n in newList + triedList {
      if t.info[n].inTried {
        assert n in TriedIds(t.info) && n in triedList;
      } else {
        assert n in NewIds(t.info) && n in newList;
      }
    }
  }

  lemma LoadedEntry(k: Key, t: Tables, saved: Saved, newList: seq<Id>, triedList: seq<Id>, i: nat)
    requires TablesOk(k, t) && SavedAs(t, saved, newList, triedList) && Complete(saved) && !Resized(saved)
    requires i < |newList + triedList|
    ensures (newList + triedList)[i] in t.info && i in Loaded(k, saved).info
    ensures Loaded(k, saved).info[i] == t.info[(newList + triedList)[i]].(lastTry := 0, randomPos := i)
  {
    hide TriedOk, RandomOk, AddrsOk, Refs, NewOk, Lists;
    AllListed(t, newList, triedList);
    SavedRefs(k, t, saved, newList, triedList, i);
    if i >= |newList| {
      assert AllRecords(saved)[i] == saved.triedRecords[i - |newList|];
      assert CountOk(t.info[triedList[i - |newList|]]);
    } else {
      assert AllRecords(saved)[i] == saved.newRecords[i];
    }
  }

  lemma LoadedBucket(k: Key, t: Tables, saved: Saved, newList: seq<Id>, triedList: seq<Id>, b: nat, i: Id)
    requires TablesOk(k, t) && SavedAs(t, saved, newList, triedList) && Complete(saved) && !Resized(saved)
    requires b < |t.buckets|
    ensures i in Loaded(k, saved).buckets[b] <==> i < |newList + triedList| && (newList + triedList)[i] in t.buckets[b]
  {
    hide TriedOk, RandomOk, AddrsOk, Refs, Lists, Positions;
    SavedBucket(t, saved, newList, triedList, b, i);
    AllListed(t, newList, triedList);
    if |newList| <= i < |newList + triedList| && (newList + triedList)[i] in t.buckets[b] {
      ReferencedIsNew(t.info, t.buckets, {}, t.next, b, (newList + triedList)[i]);
    }
  }

  lemma LoadedTriedBucket(k: Key, t: Tables, saved: Saved, newList: seq<Id>, triedList: seq<Id>, b: nat, i: Id)
    requires TablesOk(k, t) && SavedAs(t, saved, newList, triedList) && Complete(saved) && !Resized(saved)
    requires b < |t.tried|
    ensures |Loaded(k, saved).tried| == |t.tried|
    ensures i in Loaded(k, saved).tried[b] <==> i < |newList + triedList| && (newList + triedList)[i] in t.tried[b]
  {
    hide RandomOk, AddrsOk, TriedOk, NewOk, EntriesOk, SizesOk, AllStatsOk, Lists, Positions, TriedOf, TriedBucket;
    hide SetsOf, AddrsOf, Refs;
    TriedBucketsSized(k, t.info, t.tried);
    TriedOfIs(k, saved.triedRecords, |newList|, b);
    AllListed(t, newList, triedList);
    if i < |newList + triedList| {
      var n := (newList + triedList)[i];
      InTriedBucket(k, t.info, t.tried, n, b);
    }
  }

  lemma InTriedBucket(k: Key, info: map<Id, Info>, tried: seq<seq<Id>>, n: Id, b: nat)
    requires TriedOk(k, info, tried) && n in info && b < |tried|
    ensures n in tried[b] <==> info[n].inTried && TriedBucket(k, info[n].addr) == b
  {
    if n in tried[b] {
      var i :| 0 <= i < |tried[b]| && tried[b][i] == n;
      assert InTriedAt(k, info, tried[b][i], b);
    }
  }

  ghost predicate DifferentPeers(saved: Saved) {
    var records := AllRecords(saved);
    forall i, j :: 0 <= i < j < |records| ==> records[i].addr.ip != records[j].addr.ip
  }

  lemma {:induction false} AddrsOfIs(saved: Saved, m: nat)
    requires m <= |AllRecords(saved)|
    requires DifferentPeers(saved)
    ensures forall i :: 0 <= i < m ==>
              AllRecords(saved)[i].addr.ip in AddrsOf(saved, m) && AddrsOf(saved, m)[AllRecords(saved)[i].addr.ip] == i
    ensures forall a :: a in AddrsOf(saved, m) ==>
              0 <= AddrsOf(saved, m)[a] < m && AllRecords(saved)[AddrsOf(saved, m)[a]].addr.ip == a
  {
    if m > 0 {
      AddrsOfIs(saved, m - 1);
    }
  }

  lemma SavedIps(k: Key, t: Tables, saved: Saved, newList: seq<Id>, triedList: seq<Id>)
    requires TablesOk(k, t) && SavedAs(t, saved, newList, triedList)
    ensures var records, all := AllRecords(saved), newList + triedList;
            && |records| == |all| && NoDup(all) && (forall n :: n in all <==> n in t.info)
            && (forall i :: 0 <= i < |all| ==> all[i] in t.info && records[i].addr == t.info[all[i]].addr)
            && DifferentPeers(saved)
  {
    hide RandomOk, TriedOk, NewOk, Lists, Positions, Refs, EntriesOk, SizesOk, SavedAs;
    var all, records := newList + triedList, AllRecords(saved);
    AllListed(t, newList, triedList) by {
      SavedLists(t, saved, newList, triedList);
    }
    SavedRecords(t, saved, newList, triedList);
    forall i, j | 0 <= i < j < |records| ensures records[i].addr.ip != records[j].addr.ip {
      assert t.addrs[records[i].addr.ip] == all[i] && t.addrs[records[j].addr.ip] == all[j];
    }
  }

  lemma SavedLists(t: Tables, saved: Saved, newList: seq<Id>, triedList: seq<Id>)
    requires SavedAs(t, saved, newList, triedList)
    ensures Lists(newList, NewIds(t.info)) && Lists(triedList, TriedIds(t.info))
  {
  }

  lemma SavedRecords(t: Tables, saved: Saved, newList: seq<Id>, triedList: seq<Id>)
    requires SavedAs(t, saved, newList, triedList)
    ensures var records, all := AllRecords(saved), newList + triedList;
            && |records| == |all|
            && (forall i :: 0 <= i < |all| ==> all[i] in t.info && records[i] == RecordOf(t.info[all[i]]))
  {
    hide Positions, Lists;
    AllListed(t, newList, triedList);
  }

  lemma SoundAddrs(k: Key, saved: Saved)
    requires Complete(saved) && DifferentPeers(saved)
    ensures AddrsOk(Loaded(k, saved).info, Loaded(k, saved).addrs)
  {
    hide AddrsOf, TriedTable, SetsOf, Refs, Complete, AllRecords, DifferentPeers;
    AddrsOfIs(saved, |AllRecords(saved)|);
  }

  lemma LoadedAddrs(k: Key, t: Tables, saved: Saved, newList: seq<Id>, triedList: seq<Id>)
    requires TablesOk(k, t) && SavedAs(t, saved, newList, triedList) && Complete(saved)
    ensures AddrsOk(Loaded(k, saved).info, Loaded(k, saved).addrs)
  {
    hide TablesOk, SavedAs, Loaded, AddrsOk, AllRecords;
    SavedIps(k, t, saved, newList, triedList);
    SoundAddrs(k, saved);
  }

  // The address table is determined by the entries.
  lemma AddrsFollow(t: Tables, t': Tables, all: seq<Id>)
    requires AddrsOk(t.info, t.addrs) && AddrsOk(t'.info, t'.addrs) && SameEntries(t, t', all)
    ensures SameAddrs(t, t', all)
  {
    forall a | a in t.addrs ensures a in t'.addrs {
      assert t.addrs[a] in all;
      var i :| 0 <= i < |all| && all[i] == t.addrs[a];
      assert i in t'.info && t'.info[i].addr.ip == a;
    }
    forall a | a in t'.addrs ensures t'.addrs[a] < |all| && a in t.addrs && all[t'.addrs[a]] == t.addrs[a] {
      var i := t'.addrs[a];
      assert i in t'.info && all[i] in t.info;
    }
  }

  lemma {:induction false} ImageSize(a: set<Id>, all: seq<Id>, b: set<Id>)
    requires NoDup(all) && (forall i :: i in a ==> i < |all| && all[i] in b)
    requires forall n :: n in b ==> exists i :: i in a && i < |all| && all[i] == n
    ensures |a| == |b|
    decreases a
  {
    if i :| i in a {
      forall n | n in b - {all[i]} ensures exists j :: j in a - {i} && j < |all| && all[j] == n {
        var j :| j in a && j < |all| && all[j] == n;
      }
      ImageSize(a - {i}, all, b - {all[i]});
    } else {
      assert a == {} && b == {};
    }
  }

  lemma LoadedEntries(k: Key, t: Tables, saved: Saved, newList: seq<Id>, triedList: seq<Id>)
    requires TablesOk(k, t) && SavedAs(t, saved, newList, triedList) && Complete(saved) && !Resized(saved)
    ensures SameEntries(t, Loaded(k, saved), newList + triedList)
  {
    hide TablesOk, Lists, Positions, Loaded, SavedAs, Complete, Resized, NoDup;
    SavedLists(t, saved, newList, triedList);
    AllListed(t, newList, triedList);
    LoadedShape(k, t, saved, newList, triedList);
    forall i | 0 <= i < |newList + triedList|
      ensures var t', all := Loaded(k, saved), newList + triedList;
              all[i] in t.info && i in t'.info && t'.info[i] == t.info[all[i]].(lastTry := 0, randomPos := i)
    {
      LoadedEntry(k, t, saved, newList, triedList, i);
    }
  }

  lemma LoadedBuckets(k: Key, t: Tables, saved: Saved, newList: seq<Id>, triedList: seq<Id>)
    requires TablesOk(k, t) && SavedAs(t, saved, newList, triedList) && Complete(saved) && !Resized(saved)
    ensures SameNew(t, Loaded(k, saved), newList + triedList) && SameTried(t, Loaded(k, saved), newList + triedList)
  {
    hide TablesOk, Lists, Positions, Loaded, SavedAs, Complete, Resized;
    LoadedShape(k, t, saved, newList, triedList);
    var t', all := Loaded(k, saved), newList + triedList;
    forall b, i: Id | 0 <= b < |t.buckets| ensures i in t'.buckets[b] <==> i < |all| && all[i] in t.buckets[b] {
      LoadedBucket(k, t, saved, newList, triedList, b, i);
    }
    forall b, i: Id | 0 <= b < |t.tried| ensures i in t'.tried[b] <==> i < |all| && all[i] in t.tried[b] {
      LoadedTriedBucket(k, t, saved, newList, triedList, b, i);
    }
  }

  // Saving a reachable address manager and loading it again gives the same address manager up to
  // the numbering of its entries, and loses none.
  lemma RoundTrip(k: Key, t: Tables, saved: Saved, newList: seq<Id>, triedList: seq<Id>)
    requires TablesOk(k, t) && SavedAs(t, saved, newList, triedList)
    ensures Complete(saved) && !Resized(saved) && TriedFit(k, saved.triedRecords) && NewFit(saved)
    ensures Renumbered(t, Loaded(k, saved), newList + triedList)
  {
    hide TablesOk, TriedFit, NewFit, Loaded, SavedAs, Complete, Resized, SameEntries, SameNew, SameTried, SameAddrs;
    hide AddrsOk;
    SavedComplete(k, t, saved, newList, triedList);
    SavedTriedFits(k, t, saved, newList, triedList);
    SavedNewFits(k, t, saved, newList, triedList);
    LoadedShape(k, t, saved, newList, triedList);
    LoadedEntries(k, t, saved, newList, triedList);
    LoadedBuckets(k, t, saved, newList, triedList);
    LoadedAddrs(k, t, saved, newList, triedList);
    AddrsFollow(t, Loaded(k, saved), newList + triedList) by {
      SoundHasAddrs(k, t);
    }
  }

  lemma SoundHasAddrs(k: Key, t: Tables)
    requires TablesOk(k, t)
    ensures AddrsOk(t.info, t.addrs)
  {
  }

  lemma LoadedShape(k: Key, t: Tables, saved: Saved, newList: seq<Id>, triedList: seq<Id>)
    requires TablesOk(k, t) && SavedAs(t, saved, newList, triedList) && Complete(saved) && !Resized(saved)
    ensures var t' := Loaded(k, saved);
            && t'.next == |newList + triedList| && t'.nNew == t.nNew && t'.nTried == t.nTried
            && (forall i :: i in t'.info <==> 0 <= i < |newList + triedList|)
            && |t'.buckets| == |t.buckets| == NEW_BUCKET_COUNT && |t'.tried| == |t.tried| == TRIED_BUCKET_COUNT
  {
    hide RandomOk, AddrsOk, Lists, Positions, Refs;
  }

  // The loaded manager is a sound one again.
  lemma LoadedIsSound(k: Key, t: Tables, saved: Saved, newList: seq<Id>, triedList: seq<Id>)
    requires TablesOk(k, t) && SavedAs(t, saved, newList, triedList)
    ensures Complete(saved) && !Resized(saved) && TablesOk(k, Loaded(k, saved))
  {
    hide RandomOk, AddrsOk, TriedOk, NewOk, EntriesOk, SizesOk, SavedAs, Loaded, Renumbered, TriedFit, NewFit, Complete;
    RoundTrip(k, t, saved, newList, triedList);
    LoadedAddrs(k, t, saved, newList, triedList);
    SoundRandom(k, saved);
    SoundTried(k, saved);
    SoundNew(k, t, saved, newList, triedList);
    SoundEntries(k, t, Loaded(k, saved), newList + triedList);
    SoundSizes(k, saved);
  }

  lemma SoundRandom(k: Key, saved: Saved)
    requires Complete(saved)
    ensures RandomOk(Loaded(k, saved).info, Loaded(k, saved).random)
  {
    hide AddrsOf, TriedTable, Refs, SetsOf, Complete;
  }

  lemma SoundTried(k: Key, saved: Saved)
    requires Complete(saved) && TriedFit(k, saved.triedRecords)
    ensures TriedOk(k, Loaded(k, saved).info, Loaded(k, saved).tried)
  {
    hide AddrsOf, SetsOf, Refs, TriedOf, TriedBucket, Complete;
    var t, base := Loaded(k, saved), |saved.newRecords|;
    forall b | 0 <= b < TRIED_BUCKET_COUNT
      ensures |t.tried[b]| <= TRIED_BUCKET_SIZE && NoDup(t.tried[b])
      ensures forall x: Id :: x in t.tried[b] <==> base <= x < t.next && TriedBucket(k, AllRecords(saved)[x].addr) == b
    {
      TriedOfIs(k, saved.triedRecords, base, b);
      TriedOfPrefix(k, saved.triedRecords, base, b, 0);
    }
    forall b, i | 0 <= b < |t.tried| && 0 <= i < |t.tried[b]| ensures InTriedAt(k, t.info, t.tried[b][i], b) {
      assert t.tried[b][i] in t.tried[b];
    }
  }

  lemma SoundNew(k: Key, t: Tables, saved: Saved, newList: seq<Id>, triedList: seq<Id>)
    requires TablesOk(k, t) && SavedAs(t, saved, newList, triedList) && Complete(saved) && !Resized(saved)
    requires Renumbered(t, Loaded(k, saved), newList + triedList)
    ensures NewOk(Loaded(k, saved).info, Loaded(k, saved).buckets, {})
  {
    hide RandomOk, AddrsOk, TriedOk, SizesOk, Lists, Positions, TriedOf, Refs;
    var t', all := Loaded(k, saved), newList + triedList;
    forall b | 0 <= b < |t'.buckets| ensures |t'.buckets[b]| <= NEW_BUCKET_SIZE && t'.buckets[b] <= t'.info.Keys {
      forall n | n in t.buckets[b] ensures exists i :: i in t'.buckets[b] && i < |all| && all[i] == n {
        assert n in t.info && n in all;
        var i :| 0 <= i < |all| && all[i] == n;
        assert i in t'.buckets[b];
      }
      ImageSize(t'.buckets[b], all, t.buckets[b]);
    }
  }

  lemma SoundEntries(k: Key, t: Tables, t': Tables, all: seq<Id>)
    requires TablesOk(k, t) && Renumbered(t, t', all)
    ensures EntriesOk(t'.info, t'.next) && AllStatsOk(t'.info)
  {
    hide RandomOk, AddrsOk, TriedOk, NewOk, SizesOk;
    forall i | i in t'.info ensures CountOk(t'.info[i]) && StatsOk(t'.info[i]) {
      assert all[i] in all;
      assert CountOk(t.info[all[i]]) && StatsOk(t.info[all[i]]);
    }
  }

  lemma SoundSizes(k: Key, saved: Saved)
    requires Complete(saved)
    ensures SizesOk(Loaded(k, saved).info, Loaded(k, saved).nTried, Loaded(k, saved).nNew)
  {
    hide AddrsOf, TriedTable, Refs, SetsOf;
    var info, base, n := Loaded(k, saved).info, |saved.newRecords|, |AllRecords(saved)|;
    var first, rest := Numbers(base), seq(n - base, i => base + i);
    forall x: Id | x < base ensures x in first { assert first[x] == x; }
    forall x: Id | base <= x < n ensures x in rest { assert rest[x - base] == x; }
    ListsSize(first, NewIds(info));
    ListsSize(rest, TriedIds(info));
  }

  // ---------- another number of buckets ----------

  // Different peers, with times as a sound manager keeps them.
  ghost predicate RecordsOk(saved: Saved) {
    && DifferentPeers(saved)
    && (forall i :: 0 <= i < |saved.newRecords| ==> saved.newRecords[i].lastSuccess >= 0)
    && (forall i :: 0 <= i < |saved.triedRecords| ==> saved.triedRecords[i].lastSuccess > 0)
  }

  // The size of a rebuilt bucket is not looked at: what is loaded is a sound manager exactly if
  // no more new entries than a bucket may hold hash to the same one.
  lemma ResizedIsSound(k: Key, saved: Saved)
    requires Complete(saved) && Resized(saved) && TriedFit(k, saved.triedRecords) && RecordsOk(saved)
    ensures TablesOk(k, Loaded(k, saved)) <==>
            forall b :: 0 <= b < NEW_BUCKET_COUNT ==> |OwnBuckets(k, saved.newRecords)[b]| <= NEW_BUCKET_SIZE
  {
    hide RandomOk, AddrsOk, TriedOk, NewOk, EntriesOk, SizesOk, AllStatsOk, Loaded, TriedFit, DifferentPeers, Complete;
    hide OwnBuckets;
    SoundRandom(k, saved);
    SoundAddrs(k, saved);
    SoundTried(k, saved);
    ResizedNew(k, saved);
    ResizedEntries(k, saved);
    SoundSizes(k, saved);
  }

  lemma ResizedNew(k: Key, saved: Saved)
    requires Complete(saved) && Resized(saved)
    ensures NewOk(Loaded(k, saved).info, Loaded(k, saved).buckets, {}) <==>
            forall b :: 0 <= b < NEW_BUCKET_COUNT ==> |OwnBuckets(k, saved.newRecords)[b]| <= NEW_BUCKET_SIZE
  {
    hide AddrsOf, TriedTable, Refs, Complete, NewBucket;
    var t := Loaded(k, saved);
    forall b | 0 <= b < |t.buckets| ensures t.buckets[b] <= t.info.Keys {
    }
  }

  lemma ResizedEntries(k: Key, saved: Saved)
    requires Complete(saved) && Resized(saved) && RecordsOk(saved)
    ensures EntriesOk(Loaded(k, saved).info, Loaded(k, saved).next) && AllStatsOk(Loaded(k, saved).info)
  {
    hide AddrsOf, TriedTable, Refs, Complete, OwnBuckets;
    var t := Loaded(k, saved);
    forall n: Id { OwnRefs(k, saved.newRecords, n); }
    forall n | n in t.info ensures CountOk(t.info[n]) && StatsOk(t.info[n]) {
      if t.info[n].inTried { assert AllRecords(saved)[n] == saved.triedRecords[n - |saved.newRecords|]; }
    }
  }
}
