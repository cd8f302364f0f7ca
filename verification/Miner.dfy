/**
 Block assembly: choosing transactions of the memory pool for a new block.

 A transaction whose inputs are all on the chain goes into a priority queue at once; one that
 spends outputs of other pool transactions waits until all of those are in the block.  The
 queue hands out a transaction none of the others beats, first by priority and later by fee.

 What was done with the pool is a log of picks; everything the assembly keeps track of
 is a function of the log.
 */
module Miner {
  import opened Wrappers
  import opened BlockTree
  import opened Transactions
  import opened Sequences

  const MAX_BLOCK_SIGOPS := 20_000
  const COIN := 100_000_000

  // `final` stands for `IsFinalTx` at the next height.
  datatype MemTx = MemTx(tx: Tx, size: nat, sigOps: nat, time: int, final: bool)

  type Pool = map<Hash, MemTx>

  // An output on the chain and how deep it is buried.
  datatype Coin = Coin(value: int, depth: int)
  type Disk = OutPoint -> Option<Coin>

  // The options and the block under construction; `maxSize` is clamped already.
  datatype Limits = Limits(maxSize: nat, prioritySize: nat, minSize: nat, minTxFee: int, now: int,
                           proofOfStake: bool, coinbaseTime: int)

  // The checks whose code is elsewhere.  `valueIn` is `FetchInputs` and `GetValueIn` on top of
  // the transactions chosen so far; `tokens` may also depend on those looked at in vain.
  datatype Checks = Checks(valueIn: (Hash, seq<Hash>) -> Option<int>, minFee: (Hash, nat) -> int,
                           p2shSigOps: (Hash, seq<Hash>) -> nat, tokens: (Hash, seq<Hash>, seq<Hash>) -> bool,
                           connect: (Hash, seq<Hash>) -> bool)

  predicate Eligible(m: MemTx) { !m.tx.IsCoinBase() && !m.tx.IsCoinStake() && m.final }

  // Neither on the chain nor in the pool.
  predicate Missing(pool: Pool, disk: Disk, o: OutPoint) { disk(o).None? && o.hash !in pool }

  predicate FromPool(pool: Pool, disk: Disk, o: OutPoint) { disk(o).None? && o.hash in pool }

  ghost predicate Complete(pool: Pool, disk: Disk, vin: seq<OutPoint>) {
    forall i :: 0 <= i < |vin| ==> !Missing(pool, disk, vin[i])
  }

  // The transactions that can go into a block.
  ghost predicate Wanted(pool: Pool, disk: Disk, h: Hash)
    requires h in pool
  {
    Eligible(pool[h]) && Complete(pool, disk, pool[h].tx.vin)
  }

  // Inputs from the pool name existing outputs, and a missing input does not come after one from
  // the pool: the source would go on using the orphan entry it has removed then.
  ghost predicate Orderly(pool: Pool, disk: Disk) {
    forall h :: h in pool ==> pool[h].size > 0 && OrderlyInputs(pool, disk, pool[h].tx.vin)
  }

  ghost predicate OrderlyInputs(pool: Pool, disk: Disk, vin: seq<OutPoint>) {
    && (forall i :: 0 <= i < |vin| && FromPool(pool, disk, vin[i]) ==> vin[i].n < |pool[vin[i].hash].tx.vout|)
    && (forall i, j :: 0 <= i < j < |vin| && FromPool(pool, disk, vin[i]) ==> !Missing(pool, disk, vin[j]))
  }

  // ---------- priorities ----------

  datatype Entry = Entry(priority: real, feePerKb: real, hash: Hash)

  predicate Less(byFee: bool, a: Entry, b: Entry) {
    if byFee then (if a.feePerKb == b.feePerKb then a.priority < b.priority else a.feePerKb < b.feePerKb)
    else (if a.priority == b.priority then a.feePerKb < b.feePerKb else a.priority < b.priority)
  }

  function InValue(pool: Pool, disk: Disk, o: OutPoint): int {
    if disk(o).Some? then disk(o).value.value
    else if o.hash in pool && o.n < |pool[o.hash].tx.vout| then pool[o.hash].tx.vout[o.n].value
    else 0
  }

  function TotalIn(pool: Pool, disk: Disk, vin: seq<OutPoint>): int {
    if vin == [] then 0 else TotalIn(pool, disk, vin[..|vin| - 1]) + InValue(pool, disk, vin[|vin| - 1])
  }

  // Value times age.
  function Aged(c: Coin): real { c.value as real * c.depth as real }

  // The sum of value times age of the inputs on the chain.
  function AgeSum(disk: Disk, vin: seq<OutPoint>): real {
    if vin == [] then 0.0
    else
      var c := disk(vin[|vin| - 1]);
      AgeSum(disk, vin[..|vin| - 1]) + if c.Some? then Aged(c.value) else 0.0
  }

  // The pool transactions that `vin` spends from.
  function Needed(disk: Disk, vin: seq<OutPoint>): set<Hash> {
    set i | 0 <= i < |vin| && disk(vin[i]).None? :: vin[i].hash
  }

  function Parents(pool: Pool, disk: Disk, h: Hash): set<Hash>
    requires h in pool
  {
    Needed(disk, pool[h].tx.vin)
  }

  function EntryOf(pool: Pool, disk: Disk, h: Hash): (e: Entry)
    requires Orderly(pool, disk) && h in pool
    ensures e.hash == h
  {
    var m := pool[h];
    Entry(AgeSum(disk, m.tx.vin) / m.size as real,
          (TotalIn(pool, disk, m.tx.vin) - m.tx.ValueOut()) as real / (m.size as real / 1000.0), h)
  }

  // ---------- the log ----------

  datatype Pick = Pick(hash: Hash, added: bool)

  function Considered(log: seq<Pick>): (c: seq<Hash>)
    ensures |c| == |log| && forall i :: 0 <= i < |log| ==> c[i] == log[i].hash
  {
    if log == [] then [] else Considered(log[..|log| - 1]) + [log[|log| - 1].hash]
  }

  function Included(log: seq<Pick>): seq<Hash> {
    if log == [] then []
    else Included(log[..|log| - 1]) + if log[|log| - 1].added then [log[|log| - 1].hash] else []
  }

  // The transactions that may be picked next.
  ghost function Ready(pool: Pool, disk: Disk, log: seq<Pick>): set<Hash> {
    set h | && h in pool && Wanted(pool, disk, h) && Parents(pool, disk, h) <= SetOf(Included(log))
            && h !in Considered(log)
  }

  // Size, signature operations and fees of a list of transactions, each added to those before it.
  function SizeOf(pool: Pool, inc: seq<Hash>): nat
    requires forall i :: 0 <= i < |inc| ==> inc[i] in pool
  {
    if inc == [] then 1000 else SizeOf(pool, inc[..|inc| - 1]) + pool[inc[|inc| - 1]].size
  }

  function SigOpsOf(pool: Pool, checks: Checks, inc: seq<Hash>): nat
    requires forall i :: 0 <= i < |inc| ==> inc[i] in pool
  {
    if inc == [] then 100
    else
      var rest, h := inc[..|inc| - 1], inc[|inc| - 1];
      SigOpsOf(pool, checks, rest) + pool[h].sigOps + checks.p2shSigOps(h, rest)
  }

  function FeeOf(pool: Pool, checks: Checks, inc: seq<Hash>, h: Hash): int
    requires h in pool
  {
    var v := checks.valueIn(h, inc);
    (if v.Some? then v.value else 0) - pool[h].tx.ValueOut()
  }

  function FeesOf(pool: Pool, checks: Checks, inc: seq<Hash>): int
    requires forall i :: 0 <= i < |inc| ==> inc[i] in pool
  {
    if inc == [] then 0
    else
      var rest, h := inc[..|inc| - 1], inc[|inc| - 1];
      FeesOf(pool, checks, rest) + FeeOf(pool, checks, rest, h)
  }

  // ---------- one pick ----------

  // The checks before the order of the queue may change, and those after.
  predicate PassesLimits(l: Limits, m: MemTx, e: Entry, byFee: bool, size: nat, sigOps: nat) {
    && size + m.size < l.maxSize
    && sigOps + m.sigOps < MAX_BLOCK_SIGOPS
    && !(m.time > l.now || (l.proofOfStake && m.time > l.coinbaseTime))
    && !(byFee && e.feePerKb < l.minTxFee as real && size + m.size >= l.minSize)
  }

  predicate TurnsToFees(l: Limits, m: MemTx, e: Entry, size: nat) {
    size + m.size >= l.prioritySize || e.priority < (COIN * 144 / 250) as real
  }

  predicate PassesChecks(pool: Pool, checks: Checks, h: Hash, inc: seq<Hash>, con: seq<Hash>, size: nat, sigOps: nat)
    requires h in pool
  {
    && checks.valueIn(h, inc).Some?
    && FeeOf(pool, checks, inc, h) >= checks.minFee(h, size)
    && sigOps + pool[h].sigOps + checks.p2shSigOps(h, inc) < MAX_BLOCK_SIGOPS
    && checks.tokens(h, inc, con)
    && checks.connect(h, inc)
  }

  datatype Setting = Setting(pool: Pool, disk: Disk, limits: Limits, checks: Checks)

  ghost predicate Logged(s: Setting, log: seq<Pick>) { forall i :: 0 <= i < |log| ==> log[i].hash in s.pool }

  lemma {:induction false} IncludedLogged(s: Setting, log: seq<Pick>)
    requires Logged(s, log)
    ensures forall i :: 0 <= i < |Included(log)| ==> Included(log)[i] in s.pool
  {
    if log != [] {
      IncludedLogged(s, log[..|log| - 1]);
    }
  }

  ghost function Size(s: Setting, log: seq<Pick>): nat
    requires Logged(s, log)
  {
    IncludedLogged(s, log);
    SizeOf(s.pool, Included(log))
  }

  ghost function SigOps(s: Setting, log: seq<Pick>): nat
    requires Logged(s, log)
  {
    IncludedLogged(s, log);
    SigOpsOf(s.pool, s.checks, Included(log))
  }

  ghost function Fees(s: Setting, log: seq<Pick>): int
    requires Logged(s, log)
  {
    IncludedLogged(s, log);
    FeesOf(s.pool, s.checks, Included(log))
  }

  ghost predicate WithinLimits(s: Setting, log: seq<Pick>, h: Hash)
    requires Orderly(s.pool, s.disk) && Logged(s, log) && h in s.pool
    decreases |log|, 1
  {
    PassesLimits(s.limits, s.pool[h], EntryOf(s.pool, s.disk, h), ByFee(s, log), Size(s, log), SigOps(s, log))
  }

  // Whether the queue is in order of fees by now.
  ghost predicate ByFee(s: Setting, log: seq<Pick>)
    requires Orderly(s.pool, s.disk) && Logged(s, log)
    decreases |log|, 0
  {
    if log == [] then s.limits.prioritySize <= 0
    else
      var rest, h := log[..|log| - 1], log[|log| - 1].hash;
      || ByFee(s, rest)
      || (WithinLimits(s, rest, h) && TurnsToFees(s.limits, s.pool[h], EntryOf(s.pool, s.disk, h), Size(s, rest)))
  }

  // A right pick: none of those ready beats it, and it is added exactly when it passes.
  ghost predicate RightPick(s: Setting, log: seq<Pick>, p: Pick)
    requires Orderly(s.pool, s.disk) && Logged(s, log)
  {
    && p.hash in Ready(s.pool, s.disk, log)
    && (forall o :: o in Ready(s.pool, s.disk, log) ==>
          !Less(ByFee(s, log), EntryOf(s.pool, s.disk, p.hash), EntryOf(s.pool, s.disk, o)))
    && (p.added <==>
          && WithinLimits(s, log, p.hash)
          && PassesChecks(s.pool, s.checks, p.hash, Included(log), Considered(log), Size(s, log), SigOps(s, log)))
  }

  ghost predicate RightLog(s: Setting, log: seq<Pick>): (right: bool)
    requires Orderly(s.pool, s.disk)
    ensures right ==> Logged(s, log)
  {
    Logged(s, log) && (log == [] || (RightLog(s, log[..|log| - 1]) && RightPick(s, log[..|log| - 1], log[|log| - 1])))
  }

  // ---------- what the counters mean ----------

  ghost function SumTo(f: nat -> int, n: nat): int {
    if n == 0 then 0 else SumTo(f, n - 1) + f(n - 1)
  }

  lemma {:induction false} SumSame(f: nat -> int, g: nat -> int, n: nat)
    requires forall i :: 0 <= i < n ==> f(i) == g(i)
    ensures SumTo(f, n) == SumTo(g, n)
  {
    if n > 0 {
      SumSame(f, g, n - 1);
    }
  }

  // What the transaction at place `i` of the block adds to each counter.
  ghost function SizeAt(pool: Pool, inc: seq<Hash>): nat -> int {
    (i: nat) => if i < |inc| && inc[i] in pool then pool[inc[i]].size else 0
  }

  ghost function OpsAt(pool: Pool, checks: Checks, inc: seq<Hash>): nat -> int {
    (i: nat) => if i < |inc| && inc[i] in pool then pool[inc[i]].sigOps + checks.p2shSigOps(inc[i], inc[..i]) else 0
  }

  ghost function FeeAt(pool: Pool, checks: Checks, inc: seq<Hash>): nat -> int {
    (i: nat) =>
      if i < |inc| && inc[i] in pool && checks.valueIn(inc[i], inc[..i]).Some?
      then checks.valueIn(inc[i], inc[..i]).value - pool[inc[i]].tx.ValueOut() else 0
  }

  // Every transaction of the block could read its inputs.
  ghost predicate Funded(checks: Checks, inc: seq<Hash>) {
    forall i :: 0 <= i < |inc| ==> checks.valueIn(inc[i], inc[..i]).Some?
  }

  lemma {:induction false} SizeSum(pool: Pool, inc: seq<Hash>)
    requires forall i :: 0 <= i < |inc| ==> inc[i] in pool
    ensures SizeOf(pool, inc) == 1000 + SumTo(SizeAt(pool, inc), |inc|)
  {
    if inc != [] {
      var m := |inc| - 1;
      SizeSum(pool, inc[..m]);
      SumSame(SizeAt(pool, inc[..m]), SizeAt(pool, inc), m);
    }
  }

  lemma {:induction false} OpsSum(pool: Pool, checks: Checks, inc: seq<Hash>)
    requires forall i :: 0 <= i < |inc| ==> inc[i] in pool
    ensures SigOpsOf(pool, checks, inc) == 100 + SumTo(OpsAt(pool, checks, inc), |inc|)
  {
    if inc != [] {
      var m := |inc| - 1;
      assert forall i :: 0 <= i < m ==> inc[..m][..i] == inc[..i];
      OpsSum(pool, checks, inc[..m]);
      SumSame(OpsAt(pool, checks, inc[..m]), OpsAt(pool, checks, inc), m);
    }
  }

  lemma {:induction false} FeeSum(pool: Pool, checks: Checks, inc: seq<Hash>)
    requires (forall i :: 0 <= i < |inc| ==> inc[i] in pool) && Funded(checks, inc)
    ensures FeesOf(pool, checks, inc) == SumTo(FeeAt(pool, checks, inc), |inc|)
  {
    if inc != [] {
      var m := |inc| - 1;
      assert forall i :: 0 <= i < m ==> inc[..m][..i] == inc[..i];
      FeeSum(pool, checks, inc[..m]);
      SumSame(FeeAt(pool, checks, inc[..m]), FeeAt(pool, checks, inc), m);
    }
  }

  // ---------- what every right log keeps ----------

  lemma LogSteps(log: seq<Pick>, p: Pick)
    ensures (log + [p])[..|log|] == log
    ensures Considered(log + [p]) == Considered(log) + [p.hash]
    ensures Included(log + [p]) == Included(log) + if p.added then [p.hash] else []
  {
    assert (log + [p])[..|log|] == log;
  }

  // Each transaction is picked at most once, and never before its parents are in the block.
  lemma {:induction false} PickedOnce(s: Setting, log: seq<Pick>)
    requires Orderly(s.pool, s.disk) && RightLog(s, log)
    ensures forall i, j :: 0 <= i < j < |log| ==> Considered(log)[i] != Considered(log)[j]
    ensures forall h :: h in Included(log) ==> h in Considered(log)
    ensures forall h :: h in Considered(log) ==>
              h in s.pool && Wanted(s.pool, s.disk, h) && Parents(s.pool, s.disk, h) <= SetOf(Included(log))
  {
    hide Orderly, Wanted, WithinLimits, PassesChecks, Size, SigOps, ByFee, EntryOf, Less, Parents;
    if log != [] {
      PickedOnce(s, log[..|log| - 1]);
    }
  }

  // In the block, every transaction comes after its parents and none comes twice.
  lemma {:induction false} ParentsFirst(s: Setting, log: seq<Pick>, i: nat)
    requires Orderly(s.pool, s.disk) && RightLog(s, log) && i < |Included(log)|
    ensures var inc := Included(log);
            && inc[i] in s.pool && Parents(s.pool, s.disk, inc[i]) <= SetOf(inc[..i])
            && inc[i] !in inc[..i]
  {
    hide Orderly, Wanted, WithinLimits, PassesChecks, Size, SigOps, ByFee, EntryOf, Less, Parents;
    var rest, p := log[..|log| - 1], log[|log| - 1];
    LogSteps(rest, p);
    assert log == rest + [p];
    if i < |Included(rest)| {
      ParentsFirst(s, rest, i);
      assert Included(log)[..i] == Included(rest)[..i];
    } else {
      PickedOnce(s, rest);
      assert Included(log)[..i] == Included(rest);
    }
  }

  // After every addition, size and signature operations are strictly below their limits.
  lemma {:induction false} BelowLimits(s: Setting, log: seq<Pick>)
    requires Orderly(s.pool, s.disk) && RightLog(s, log) && Included(log) != []
    ensures Size(s, log) < s.limits.maxSize && SigOps(s, log) < MAX_BLOCK_SIGOPS
  {
    hide Orderly, Wanted, ByFee, EntryOf, Less, Parents, Ready;
    var rest, p := log[..|log| - 1], log[|log| - 1];
    LogSteps(rest, p);
    assert log == rest + [p];
    if p.added {
      assert Included(log)[..|Included(rest)|] == Included(rest);
    } else {
      assert Included(log) == Included(rest);
      BelowLimits(s, rest);
    }
  }

  // Every transaction in the block has its inputs and pays its minimum fee.
  lemma {:induction false} FeesArePaid(s: Setting, log: seq<Pick>, i: nat)
    requires Orderly(s.pool, s.disk) && RightLog(s, log) && i < |Included(log)|
    ensures var inc := Included(log);
            && (forall j :: 0 <= j < |inc| ==> inc[j] in s.pool)
            && s.checks.valueIn(inc[i], inc[..i]).Some?
            && s.checks.valueIn(inc[i], inc[..i]).value - s.pool[inc[i]].tx.ValueOut()
                 >= s.checks.minFee(inc[i], SizeOf(s.pool, inc[..i]))
            && s.checks.connect(inc[i], inc[..i])
  {
    hide Orderly, Wanted, WithinLimits, SigOpsOf, ByFee, EntryOf, Less, Parents, Ready;
    IncludedLogged(s, log);
    var rest, p := log[..|log| - 1], log[|log| - 1];
    LogSteps(rest, p);
    assert log == rest + [p];
    if i < |Included(rest)| {
      FeesArePaid(s, rest, i);
      assert Included(log)[..i] == Included(rest)[..i];
    } else {
      assert Included(log)[..i] == Included(rest);
    }
  }

  // When nothing is ready any more, the transactions that were considered are exactly those
  // whose parents are all in the block.
  lemma ConsideredIffParentsIncluded(s: Setting, log: seq<Pick>, h: Hash)
    requires Orderly(s.pool, s.disk) && RightLog(s, log) && Ready(s.pool, s.disk, log) == {}
    requires h in s.pool && Wanted(s.pool, s.disk, h)
    ensures h in Considered(log) <==> Parents(s.pool, s.disk, h) <= SetOf(Included(log))
  {
    hide Orderly, Wanted, RightLog, Parents;
    PickedOnce(s, log);
    assert h !in Ready(s.pool, s.disk, log);
  }

  // ---------- collecting the pool ----------

  datatype Orphan = Orphan(dependsOn: set<Hash>, priority: real, feePerKb: real)

  function DependersOf(dependers: map<Hash, seq<Hash>>, p: Hash): seq<Hash> {
    if p in dependers then dependers[p] else []
  }

  // The waiting transactions, of those in `done`, when `inc` are in the block.
  ghost predicate OrphansOk(pool: Pool, disk: Disk, done: set<Hash>, inc: set<Hash>, orphans: map<Hash, Orphan>,
                            dependers: map<Hash, seq<Hash>>)
    requires Orderly(pool, disk)
  {
    && (forall h :: h in orphans <==> h in done && h in pool && Wanted(pool, disk, h) && Parents(pool, disk, h) != {})
    && (forall h :: h in orphans ==>
          var e := EntryOf(pool, disk, h); orphans[h] == Orphan(Parents(pool, disk, h) - inc, e.priority, e.feePerKb))
    && (forall p, h :: h in DependersOf(dependers, p) <==> h in orphans && p in Parents(pool, disk, h))
  }

  // The queue holds the entries of `ready`, each once.
  ghost predicate QueueOk(pool: Pool, disk: Disk, ready: set<Hash>, queue: multiset<Entry>)
    requires Orderly(pool, disk) && ready <= pool.Keys
  {
    forall e :: queue[e] == if e.hash in ready && e == EntryOf(pool, disk, e.hash) then 1 else 0
  }

  // Looks up the inputs of one transaction and registers it with those it has to wait for.
  method Examine(pool: Pool, disk: Disk, h: Hash, before: map<Hash, seq<Hash>>)
      returns (e: Entry, missing: bool, waits: bool, dependsOn: set<Hash>, dependers: map<Hash, seq<Hash>>)
    requires Orderly(pool, disk) && h in pool
    ensures missing <==> !Complete(pool, disk, pool[h].tx.vin)
    ensures missing ==> dependers == before
    ensures !missing ==>
              e == EntryOf(pool, disk, h) && dependsOn == Parents(pool, disk, h) && (waits <==> dependsOn != {})
    ensures !missing ==> forall p, x :: x in DependersOf(dependers, p) <==>
              x in DependersOf(before, p) || (x == h && p in dependsOn)
  {
    hide Missing, FromPool, Aged;
    var m := pool[h];
    var vin := m.tx.vin;
    var priority, totalIn := 0.0, 0;
    missing, waits, dependsOn, dependers := false, false, {}, before;
    e := Entry(0.0, 0.0, h);
    for k := 0 to |vin|
      invariant priority == AgeSum(disk, vin[..k]) && totalIn == TotalIn(pool, disk, vin[..k])
      invariant dependsOn == Needed(disk, vin[..k]) && (waits <==> dependsOn != {})
      invariant !waits ==> dependers == before
      invariant waits ==> exists i :: 0 <= i < k && FromPool(pool, disk, vin[i])
      invariant forall i :: 0 <= i < k ==> !Missing(pool, disk, vin[i])
      invariant forall p, x :: x in DependersOf(dependers, p) <==>
                  x in DependersOf(before, p) || (x == h && p in dependsOn)
    {
      assert vin[..k + 1][..k] == vin[..k];
      NeededStep(disk, vin, k);
      InputKind(pool, disk, vin[k]);
      var o := vin[k];
      var coin := disk(o);
      if coin.None? {
        if o.hash !in pool {
          missing := true;
          return;
        }
        waits := true;
        DependersGrow(dependers, o.hash, h);
        dependers := dependers[o.hash := DependersOf(dependers, o.hash) + [h]];
        dependsOn := dependsOn + {o.hash};
        totalIn := totalIn + pool[o.hash].tx.vout[o.n].value;
      } else {
        totalIn := totalIn + coin.value.value;
        priority := priority + Aged(coin.value);
      }
    }
    assert vin[..|vin|] == vin;
    e := Entry(priority / m.size as real, (totalIn - m.tx.ValueOut()) as real / (m.size as real / 1000.0), h);
  }

  lemma InputKind(pool: Pool, disk: Disk, o: OutPoint)
    ensures Missing(pool, disk, o) <==> disk(o).None? && o.hash !in pool
    ensures FromPool(pool, disk, o) <==> disk(o).None? && o.hash in pool
  {
  }

  lemma NeededStep(disk: Disk, vin: seq<OutPoint>, k: nat)
    requires k < |vin|
    ensures Needed(disk, vin[..k + 1]) == Needed(disk, vin[..k]) + if disk(vin[k]).None? then {vin[k].hash} else {}
  {
    var a, b := vin[..k], vin[..k + 1];
    forall x | x in Needed(disk, a) ensures x in Needed(disk, b) {
      var i :| 0 <= i < |a| && disk(a[i]).None? && a[i].hash == x;
      assert b[i] == a[i];
    }
    assert disk(vin[k]).None? ==> disk(b[k]).None? && b[k].hash in Needed(disk, b);
    forall x | x in Needed(disk, b) ensures x in Needed(disk, a) || (disk(vin[k]).None? && x == vin[k].hash) {
      var i :| 0 <= i < |b| && disk(b[i]).None? && b[i].hash == x;
      if i < k {
        assert a[i] == b[i];
      }
    }
  }

  lemma DependersGrow(dependers: map<Hash, seq<Hash>>, p: Hash, h: Hash)
    ensures var d := dependers[p := DependersOf(dependers, p) + [h]];
            forall q, x :: x in DependersOf(d, q) <==> x in DependersOf(dependers, q) || (x == h && q == p)
  {
  }

  // The eligible transactions of `done` that wait for nothing.
  ghost function Unbound(pool: Pool, disk: Disk, done: set<Hash>): set<Hash> {
    set h | h in pool && h in done && Wanted(pool, disk, h) && Parents(pool, disk, h) == {}
  }

  // Splits the pool into the queue and the waiting transactions.
  method Collect(pool: Pool, disk: Disk)
    returns (queue: multiset<Entry>, orphans: map<Hash, Orphan>, dependers: map<Hash, seq<Hash>>)
    requires Orderly(pool, disk)
    ensures OrphansOk(pool, disk, pool.Keys, {}, orphans, dependers)
    ensures QueueOk(pool, disk, Unbound(pool, disk, pool.Keys), queue)
  {
    hide Orderly, Wanted, Eligible, Complete, EntryOf, Parents, DependersOf, OrphansOk, QueueOk, Unbound;
    queue, orphans, dependers := multiset{}, map[], map[];
    CollectedNone(pool, disk);
    var rest := pool.Keys;
    ghost var done: set<Hash> := {};
    while rest != {}
      invariant rest + done == pool.Keys
      invariant OrphansOk(pool, disk, done, {}, orphans, dependers)
      invariant Unbound(pool, disk, done) <= pool.Keys && QueueOk(pool, disk, Unbound(pool, disk, done), queue)
      invariant rest !! done
      decreases rest
    {
      var h :| h in rest;
      ghost var o', d', q' := orphans, dependers, queue;
      WantedIs(pool, disk, h);
      if Eligible(pool[h]) {
        var e, missing, waits, dependsOn;
        e, missing, waits, dependsOn, dependers := Examine(pool, disk, h, dependers);
        if missing {
          CollectedOther(pool, disk, done, h, orphans, dependers, queue);
        } else if waits {
          orphans := orphans[h := Orphan(dependsOn, e.priority, e.feePerKb)];
          CollectedOrphan(pool, disk, done, h, o', d', dependers, queue);
        } else {
          queue := queue + multiset{e};
          CollectedFree(pool, disk, done, h, o', d', dependers, q');
        }
      } else {
        CollectedOther(pool, disk, done, h, orphans, dependers, queue);
      }
      rest, done := rest - {h}, done + {h};
    }
    assert done == pool.Keys;
  }

  lemma WantedIs(pool: Pool, disk: Disk, h: Hash)
    requires h in pool
    ensures Wanted(pool, disk, h) <==> Eligible(pool[h]) && Complete(pool, disk, pool[h].tx.vin)
  {
  }

  lemma CollectedNone(pool: Pool, disk: Disk)
    requires Orderly(pool, disk)
    ensures OrphansOk(pool, disk, {}, {}, map[], map[]) && Unbound(pool, disk, {}) == {}
    ensures QueueOk(pool, disk, {}, multiset{})
  {
  }

  lemma CollectedOrphan(pool: Pool, disk: Disk, done: set<Hash>, h: Hash, orphans: map<Hash, Orphan>,
                        dependers: map<Hash, seq<Hash>>,
                        dependers': map<Hash, seq<Hash>>, queue: multiset<Entry>)
    requires Orderly(pool, disk) && OrphansOk(pool, disk, done, {}, orphans, dependers) && h in pool && h !in done
    requires Wanted(pool, disk, h) && Parents(pool, disk, h) != {}
    requires Unbound(pool, disk, done) <= pool.Keys && QueueOk(pool, disk, Unbound(pool, disk, done), queue)
    requires forall p, x :: x in DependersOf(dependers', p) <==>
               x in DependersOf(dependers, p) || (x == h && p in Parents(pool, disk, h))
    ensures var e := EntryOf(pool, disk, h);
            OrphansOk(pool, disk, done + {h}, {}, orphans[h := Orphan(Parents(pool, disk, h), e.priority, e.feePerKb)],
                      dependers')
    ensures Unbound(pool, disk, done + {h}) == Unbound(pool, disk, done)
  {
    hide Orderly, Wanted, EntryOf, Parents, DependersOf, QueueOk;
    assert Unbound(pool, disk, done + {h}) == Unbound(pool, disk, done);
  }

  lemma CollectedFree(pool: Pool, disk: Disk, done: set<Hash>, h: Hash, orphans: map<Hash, Orphan>,
                      dependers: map<Hash, seq<Hash>>,
                      dependers': map<Hash, seq<Hash>>, queue: multiset<Entry>)
    requires Orderly(pool, disk) && OrphansOk(pool, disk, done, {}, orphans, dependers) && h in pool && h !in done
    requires Wanted(pool, disk, h) && Parents(pool, disk, h) == {}
    requires Unbound(pool, disk, done) <= pool.Keys && QueueOk(pool, disk, Unbound(pool, disk, done), queue)
    requires forall p, x :: x in DependersOf(dependers', p) <==>
               x in DependersOf(dependers, p) || (x == h && p in Parents(pool, disk, h))
    ensures OrphansOk(pool, disk, done + {h}, {}, orphans, dependers')
    ensures Unbound(pool, disk, done + {h}) <= pool.Keys
    ensures QueueOk(pool, disk, Unbound(pool, disk, done + {h}), queue + multiset{EntryOf(pool, disk, h)})
  {
    hide Orderly, Wanted, EntryOf, Parents, DependersOf;
    assert Unbound(pool, disk, done + {h}) == Unbound(pool, disk, done) + {h};
  }

  lemma CollectedOther(pool: Pool, disk: Disk, done: set<Hash>, h: Hash, orphans: map<Hash, Orphan>,
                       dependers: map<Hash, seq<Hash>>,
                       queue: multiset<Entry>)
    requires Orderly(pool, disk) && OrphansOk(pool, disk, done, {}, orphans, dependers) && h in pool && h !in done
    requires !Wanted(pool, disk, h)
    requires Unbound(pool, disk, done) <= pool.Keys && QueueOk(pool, disk, Unbound(pool, disk, done), queue)
    ensures OrphansOk(pool, disk, done + {h}, {}, orphans, dependers)
    ensures Unbound(pool, disk, done + {h}) == Unbound(pool, disk, done)
  {
    hide Orderly, Wanted, EntryOf, Parents, DependersOf, QueueOk;
    assert Unbound(pool, disk, done + {h}) == Unbound(pool, disk, done);
  }

  // ---------- releasing the transactions that waited ----------

  predicate Freed(orphans: map<Hash, Orphan>, hash: Hash, h: Hash) { h in orphans && orphans[h].dependsOn == {hash} }

  function Requeued(o: Orphan, h: Hash): Entry { Entry(o.priority, o.feePerKb, h) }

  // Those that waited for `hash` wait for it no longer; those that waited for nothing else join the queue.
  method Release(orphans: map<Hash, Orphan>, dependers: map<Hash, seq<Hash>>, hash: Hash, queue: multiset<Entry>)
      returns (orphans': map<Hash, Orphan>, queue': multiset<Entry>)
    requires forall h :: h in DependersOf(dependers, hash) ==> h in orphans
    requires forall h :: h in orphans && hash in orphans[h].dependsOn ==> h in DependersOf(dependers, hash)
    ensures orphans'.Keys == orphans.Keys
    ensures forall h :: h in orphans ==> orphans'[h] == orphans[h].(dependsOn := orphans[h].dependsOn - {hash})
    ensures forall e :: queue'[e] ==
              queue[e] + if Freed(orphans, hash, e.hash) && e == Requeued(orphans[e.hash], e.hash) then 1 else 0
  {
    hide DependersOf, Freed, Shed, Joined;
    orphans', queue' := orphans, queue;
    var list := DependersOf(dependers, hash);
    NoneReleased(orphans, queue, hash);
    assert list[..0] == [];
    for k := 0 to |list|
      invariant orphans'.Keys == orphans.Keys
      invariant Shed(orphans, orphans', hash, list[..k]) && Joined(orphans, queue, queue', hash, list[..k])
    {
      var h := list[k];
      assert h in list;
      assert list[..k + 1] == list[..k] + [h];
      OneReleased(orphans, orphans', queue, queue', hash, list[..k], h);
      if orphans'[h].dependsOn != {} {
        orphans' := orphans'[h := orphans'[h].(dependsOn := orphans'[h].dependsOn - {hash})];
        if orphans'[h].dependsOn == {} {
          queue' := queue' + multiset{Requeued(orphans'[h], h)};
        }
      }
    }
    assert list[..|list|] == list;
    AllReleased(orphans, orphans', queue, queue', hash, list);
  }

  // Those of `done` no longer wait for `hash` ...
  ghost predicate Shed(orphans: map<Hash, Orphan>, orphans': map<Hash, Orphan>, hash: Hash, done: seq<Hash>) {
    && orphans'.Keys == orphans.Keys
    && forall h :: h in orphans ==>
         orphans'[h] == orphans[h].(dependsOn := orphans[h].dependsOn - if h in done then {hash} else {})
  }

  // ... and those that waited for nothing else have joined the queue.
  ghost predicate Joined(orphans: map<Hash, Orphan>, queue: multiset<Entry>, queue': multiset<Entry>, hash: Hash,
                         done: seq<Hash>) {
    forall e :: queue'[e] == queue[e] +
      if e.hash in done && Freed(orphans, hash, e.hash) && e == Requeued(orphans[e.hash], e.hash) then 1 else 0
  }

  lemma NoneReleased(orphans: map<Hash, Orphan>, queue: multiset<Entry>, hash: Hash)
    ensures Shed(orphans, orphans, hash, []) && Joined(orphans, queue, queue, hash, [])
  {
  }

  lemma OneReleased(orphans: map<Hash, Orphan>, orphans': map<Hash, Orphan>, queue: multiset<Entry>,
                    queue': multiset<Entry>, hash: Hash, done: seq<Hash>, h: Hash)
    requires Shed(orphans, orphans', hash, done) && Joined(orphans, queue, queue', hash, done) && h in orphans
    ensures h in orphans'
    ensures var o := orphans'[h].(dependsOn := orphans'[h].dependsOn - {hash});
            var grown := if o.dependsOn == {} then queue' + multiset{Requeued(o, h)} else queue';
            if orphans'[h].dependsOn == {}
            then Shed(orphans, orphans', hash, done + [h]) && Joined(orphans, queue, queue', hash, done + [h])
            else Shed(orphans, orphans'[h := o], hash, done + [h]) && Joined(orphans, queue, grown, hash, done + [h])
  {
  }

  lemma AllReleased(orphans: map<Hash, Orphan>, orphans': map<Hash, Orphan>, queue: multiset<Entry>,
                    queue': multiset<Entry>, hash: Hash, done: seq<Hash>)
    requires Shed(orphans, orphans', hash, done) && Joined(orphans, queue, queue', hash, done)
    requires forall h :: h in orphans && hash in orphans[h].dependsOn ==> h in done
    ensures orphans'.Keys == orphans.Keys
    ensures forall h :: h in orphans ==> orphans'[h] == orphans[h].(dependsOn := orphans[h].dependsOn - {hash})
    ensures forall e :: queue'[e] ==
              queue[e] + if Freed(orphans, hash, e.hash) && e == Requeued(orphans[e.hash], e.hash) then 1 else 0
  {
  }

  // ---------- assembling the block ----------

  lemma {:induction false} BestExists(byFee: bool, queue: multiset<Entry>)
    requires queue != multiset{}
    ensures exists e :: e in queue && forall o :: o in queue ==> !Less(byFee, e, o)
    decreases |queue|
  {
    var e :| e in queue;
    var rest := queue - multiset{e};
    assert queue == rest + multiset{e};
    if rest == multiset{} {
      assert forall o :: o in queue ==> !Less(byFee, e, o);
    } else {
      BestExists(byFee, rest);
      var b :| b in rest && forall o :: o in rest ==> !Less(byFee, b, o);
      assert b in queue;
      if Less(byFee, b, e) {
        assert forall o :: o in queue ==> !Less(byFee, e, o);
      } else {
        assert forall o :: o in queue ==> !Less(byFee, b, o);
      }
    }
  }

  // What becomes ready, and what is ready no longer, by a pick.
  lemma AfterPick(s: Setting, log: seq<Pick>, p: Pick, x: Hash)
    requires Orderly(s.pool, s.disk) && RightLog(s, log) && RightPick(s, log, p)
    ensures RightLog(s, log + [p])
    ensures x in Ready(s.pool, s.disk, log + [p]) <==>
              || (x in Ready(s.pool, s.disk, log) && x != p.hash)
              || (&& p.added && x in s.pool && Wanted(s.pool, s.disk, x)
                  && Parents(s.pool, s.disk, x) - SetOf(Included(log)) == {p.hash})
  {
    hide Orderly, Wanted, WithinLimits, PassesChecks, Size, SigOps, ByFee, EntryOf, Less, Parents, SetOf, Included;
    hide Considered;
    LogSteps(log, p);
    PickedOnce(s, log);
    SetOfSnoc(Included(log), p.hash);
    assert !p.added ==> Included(log + [p]) == Included(log);
    assert forall y :: y in Considered(log + [p]) <==> y in Considered(log) || y == p.hash;
  }

  // One transaction off the queue: whether it goes in, and whether the queue turns to fees.
  method Examined(s: Setting, h: Hash, e: Entry, byFee: bool, size: nat, sigOps: nat, inc: seq<Hash>, con: seq<Hash>)
      returns (added: bool, byFee': bool, fee: int, ops: nat)
    requires h in s.pool
    ensures added <==>
              && PassesLimits(s.limits, s.pool[h], e, byFee, size, sigOps)
              && PassesChecks(s.pool, s.checks, h, inc, con, size, sigOps)
    ensures byFee' <==>
              || byFee
              || (&& PassesLimits(s.limits, s.pool[h], e, byFee, size, sigOps)
                  && TurnsToFees(s.limits, s.pool[h], e, size))
    ensures added ==> fee == FeeOf(s.pool, s.checks, inc, h) && ops == s.pool[h].sigOps + s.checks.p2shSigOps(h, inc)
  {
    var m, l := s.pool[h], s.limits;
    added, byFee', fee, ops := false, byFee, 0, m.sigOps;
    if size + m.size >= l.maxSize {
      return;
    }
    if sigOps + ops >= MAX_BLOCK_SIGOPS {
      return;
    }
    if m.time > l.now || (l.proofOfStake && m.time > l.coinbaseTime) {
      return;
    }
    var minFee := s.checks.minFee(h, size);
    if byFee && e.feePerKb < l.minTxFee as real && size + m.size >= l.minSize {
      return;
    }
    if !byFee && (size + m.size >= l.prioritySize || e.priority < (COIN * 144 / 250) as real) {
      byFee' := true;
    }
    var valueIn := s.checks.valueIn(h, inc);
    if valueIn.None? {
      return;
    }
    fee := valueIn.value - m.tx.ValueOut();
    if fee < minFee {
      return;
    }
    ops := ops + s.checks.p2shSigOps(h, inc);
    if sigOps + ops >= MAX_BLOCK_SIGOPS {
      return;
    }
    if !s.checks.tokens(h, inc, con) {
      return;
    }
    if !s.checks.connect(h, inc) {
      return;
    }
    added := true;
  }

  ghost predicate Waiting(s: Setting, log: seq<Pick>, queue: multiset<Entry>, orphans: map<Hash, Orphan>,
                          dependers: map<Hash, seq<Hash>>)
    requires Orderly(s.pool, s.disk)
  {
    && OrphansOk(s.pool, s.disk, s.pool.Keys, SetOf(Included(log)), orphans, dependers)
    && QueueOk(s.pool, s.disk, Ready(s.pool, s.disk, log), queue)
  }

  method CreateNewBlock(s: Setting)
    returns (vtx: seq<Hash>, nFees: int, nBlockSize: nat, nBlockTx: nat, ghost log: seq<Pick>)
    requires Orderly(s.pool, s.disk)
    ensures RightLog(s, log) && Ready(s.pool, s.disk, log) == {}
    ensures vtx == Included(log) && nBlockTx == |vtx| && nFees == Fees(s, log) && nBlockSize == Size(s, log)
    ensures nBlockSize == 1000 + SumTo(SizeAt(s.pool, vtx), |vtx|)
    ensures nFees == SumTo(FeeAt(s.pool, s.checks, vtx), |vtx|)
  {
    hide Orderly, RightPick, Ready, Included, Considered, Size, SigOps, Fees, ByFee, EntryOf, PassesLimits;
    hide PassesChecks, TurnsToFees, Waiting, DependersOf, OrphansOk, QueueOk, Less, RightLog;
    var queue, orphans, dependers := Collect(s.pool, s.disk);
    vtx, nFees, nBlockSize, nBlockTx, log := [], 0, 1000, 0, [];
    var considered: seq<Hash> := [];
    var sigOps, byFee := 100, s.limits.prioritySize <= 0;
    StartsRight(s, queue, orphans, dependers);
    while queue != multiset{}
      invariant RightLog(s, log) && Waiting(s, log, queue, orphans, dependers)
      invariant vtx == Included(log) && considered == Considered(log) && nBlockTx == |vtx|
      invariant nBlockSize == Size(s, log) && sigOps == SigOps(s, log) && nFees == Fees(s, log)
      invariant byFee == ByFee(s, log)
      decreases s.pool.Keys - SetOf(considered)
    {
      BestExists(byFee, queue);
      var e :| e in queue && forall o :: o in queue ==> !Less(byFee, e, o);
      var h := e.hash;
      BestIsReady(s, log, queue, orphans, dependers, byFee, e);
      var added, turned, fee, ops := Examined(s, h, e, byFee, nBlockSize, sigOps, vtx, considered);
      ghost var p := Pick(h, added);
      PickIsRight(s, log, p);
      CountersStep(s, log, p);
      SetOfSnoc(considered, h);
      assert queue == (queue - multiset{e}) + multiset{e};
      queue := queue - multiset{e};
      byFee := turned;
      if added {
        vtx := vtx + [h];
        nBlockSize, nBlockTx, sigOps, nFees := nBlockSize + s.pool[h].size, nBlockTx + 1, sigOps + ops, nFees + fee;
        ReleaseReady(s, log, queue + multiset{e}, orphans, dependers, h);
        ghost var orphans0, queue0 := orphans, queue;
        orphans, queue := Release(orphans, dependers, h, queue);
        StillWaitingAdded(s, log, p, queue0, orphans0, dependers, queue, orphans);
      } else {
        StillWaitingSkipped(s, log, p, queue, orphans, dependers);
      }
      considered := considered + [h];
      log := log + [p];
    }
    NothingReady(s, log, orphans, dependers);
    CountersAre(s, log);
  }

  lemma CountersAre(s: Setting, log: seq<Pick>)
    requires Orderly(s.pool, s.disk) && RightLog(s, log)
    ensures var inc := Included(log);
            && Size(s, log) == 1000 + SumTo(SizeAt(s.pool, inc), |inc|)
            && SigOps(s, log) == 100 + SumTo(OpsAt(s.pool, s.checks, inc), |inc|)
            && Fees(s, log) == SumTo(FeeAt(s.pool, s.checks, inc), |inc|)
  {
    hide Orderly, RightLog, Included, SizeOf, SigOpsOf, FeesOf, SumTo, SizeAt, OpsAt, FeeAt;
    var inc := Included(log);
    IncludedLogged(s, log);
    forall i | 0 <= i < |inc| ensures s.checks.valueIn(inc[i], inc[..i]).Some? {
      FeesArePaid(s, log, i);
    }
    SizeSum(s.pool, inc);
    OpsSum(s.pool, s.checks, inc);
    FeeSum(s.pool, s.checks, inc);
  }

  lemma StartsRight(s: Setting, queue: multiset<Entry>, orphans: map<Hash, Orphan>, dependers: map<Hash, seq<Hash>>)
    requires Orderly(s.pool, s.disk) && OrphansOk(s.pool, s.disk, s.pool.Keys, {}, orphans, dependers)
    requires QueueOk(s.pool, s.disk, Unbound(s.pool, s.disk, s.pool.Keys), queue)
    ensures RightLog(s, []) && Waiting(s, [], queue, orphans, dependers)
    ensures Included([]) == [] && Considered([]) == [] && Size(s, []) == 1000 && SigOps(s, []) == 100
    ensures Fees(s, []) == 0
    ensures ByFee(s, []) == (s.limits.prioritySize <= 0)
  {
    hide Orderly, Wanted, EntryOf, Parents, DependersOf, OrphansOk, QueueOk;
    assert SetOf<Hash>([]) == {};
    assert Ready(s.pool, s.disk, []) == Unbound(s.pool, s.disk, s.pool.Keys);
  }

  lemma NothingReady(s: Setting, log: seq<Pick>, orphans: map<Hash, Orphan>, dependers: map<Hash, seq<Hash>>)
    requires Orderly(s.pool, s.disk) && Waiting(s, log, multiset{}, orphans, dependers)
    ensures Ready(s.pool, s.disk, log) == {}
  {
    hide Orderly, Wanted, EntryOf, Parents, DependersOf, OrphansOk, Ready;
    if h :| h in Ready(s.pool, s.disk, log) {
      ReadyQueued(s, log, multiset{}, orphans, dependers, h);
    }
  }

  lemma ReadyQueued(s: Setting, log: seq<Pick>, queue: multiset<Entry>, orphans: map<Hash, Orphan>,
                    dependers: map<Hash, seq<Hash>>, h: Hash)
    requires Orderly(s.pool, s.disk) && Waiting(s, log, queue, orphans, dependers) && h in Ready(s.pool, s.disk, log)
    ensures h in s.pool && EntryOf(s.pool, s.disk, h) in queue
  {
    hide Orderly, Wanted, EntryOf, Parents, DependersOf, OrphansOk, Ready;
    InPool(s, log, h);
    assert queue[EntryOf(s.pool, s.disk, h)] == 1;
  }

  lemma InPool(s: Setting, log: seq<Pick>, h: Hash)
    requires h in Ready(s.pool, s.disk, log)
    ensures h in s.pool && h !in Considered(log) && Wanted(s.pool, s.disk, h)
  {
  }

  // The entry taken belongs to a ready transaction that no other one beats.
  lemma BestIsReady(s: Setting, log: seq<Pick>, queue: multiset<Entry>, orphans: map<Hash, Orphan>,
                    dependers: map<Hash, seq<Hash>>, byFee: bool, e: Entry)
    requires Orderly(s.pool, s.disk) && Waiting(s, log, queue, orphans, dependers)
    requires e in queue && forall o :: o in queue ==> !Less(byFee, e, o)
    ensures e.hash in s.pool && e.hash in Ready(s.pool, s.disk, log) && e.hash !in Considered(log)
    ensures e == EntryOf(s.pool, s.disk, e.hash)
    ensures Ready(s.pool, s.disk, log) <= s.pool.Keys
    ensures forall o :: o in Ready(s.pool, s.disk, log) ==> !Less(byFee, e, EntryOf(s.pool, s.disk, o))
  {
    hide Orderly, Wanted, EntryOf, Parents, DependersOf, OrphansOk, Less, Ready;
    assert queue[e] > 0;
    InPool(s, log, e.hash);
    forall o | o in Ready(s.pool, s.disk, log) ensures o in s.pool && !Less(byFee, e, EntryOf(s.pool, s.disk, o)) {
      InPool(s, log, o);
      assert queue[EntryOf(s.pool, s.disk, o)] == 1;
    }
  }

  lemma PickIsRight(s: Setting, log: seq<Pick>, p: Pick)
    requires Orderly(s.pool, s.disk) && RightLog(s, log) && p.hash in s.pool && p.hash in Ready(s.pool, s.disk, log)
    requires Ready(s.pool, s.disk, log) <= s.pool.Keys
    requires forall o :: o in Ready(s.pool, s.disk, log) ==>
               !Less(ByFee(s, log), EntryOf(s.pool, s.disk, p.hash), EntryOf(s.pool, s.disk, o))
    requires p.added <==>
               && PassesLimits(s.limits, s.pool[p.hash], EntryOf(s.pool, s.disk, p.hash), ByFee(s, log), Size(s, log),
                               SigOps(s, log))
               && PassesChecks(s.pool, s.checks, p.hash, Included(log), Considered(log), Size(s, log), SigOps(s, log))
    ensures RightPick(s, log, p) && RightLog(s, log + [p])
    ensures Considered(log + [p]) == Considered(log) + [p.hash]
    ensures Included(log + [p]) == Included(log) + if p.added then [p.hash] else []
  {
    hide Orderly, Ready, EntryOf, Less, PassesLimits, PassesChecks, Size, SigOps, ByFee;
    LogSteps(log, p);
  }

  lemma CountersStep(s: Setting, log: seq<Pick>, p: Pick)
    requires Orderly(s.pool, s.disk) && RightLog(s, log) && RightLog(s, log + [p])
    ensures p.hash in s.pool
    ensures Size(s, log + [p]) == Size(s, log) + if p.added then s.pool[p.hash].size else 0
    ensures SigOps(s, log + [p]) == SigOps(s, log) +
              if p.added then s.pool[p.hash].sigOps + s.checks.p2shSigOps(p.hash, Included(log)) else 0
    ensures Fees(s, log + [p]) == Fees(s, log) + if p.added then FeeOf(s.pool, s.checks, Included(log), p.hash) else 0
    ensures var e := EntryOf(s.pool, s.disk, p.hash);
            ByFee(s, log + [p]) <==>
              || ByFee(s, log)
              || (PassesLimits(s.limits, s.pool[p.hash], e, ByFee(s, log), Size(s, log), SigOps(s, log)) &&
                    TurnsToFees(s.limits, s.pool[p.hash], e, Size(s, log)))
  {
    hide Orderly, EntryOf, PassesLimits, TurnsToFees, FeeOf;
    LogSteps(log, p);
    assert (log + [p])[|log|] == p;
    IncludedLogged(s, log);
    IncludedLogged(s, log + [p]);
    var inc := Included(log);
    assert Included(log + [p]) == if p.added then inc + [p.hash] else inc;
    assert (inc + [p.hash])[..|inc|] == inc;
  }

  lemma ReleaseReady(s: Setting, log: seq<Pick>, queue: multiset<Entry>, orphans: map<Hash, Orphan>,
                     dependers: map<Hash, seq<Hash>>, h: Hash)
    requires Orderly(s.pool, s.disk) && Waiting(s, log, queue, orphans, dependers)
    ensures forall x :: x in DependersOf(dependers, h) ==> x in orphans
    ensures forall x :: x in orphans && h in orphans[x].dependsOn ==> x in DependersOf(dependers, h)
  {
    hide Orderly, Wanted, EntryOf, Parents, DependersOf, QueueOk, Ready;
  }

  lemma StillWaitingSkipped(s: Setting, log: seq<Pick>, p: Pick, queue: multiset<Entry>, orphans: map<Hash, Orphan>,
                            dependers: map<Hash, seq<Hash>>)
    requires Orderly(s.pool, s.disk) && RightLog(s, log) && RightPick(s, log, p) && !p.added && p.hash in s.pool
    requires Waiting(s, log, queue + multiset{EntryOf(s.pool, s.disk, p.hash)}, orphans, dependers)
    ensures Waiting(s, log + [p], queue, orphans, dependers)
  {
    hide Orderly, Wanted, EntryOf, Parents, DependersOf, OrphansOk, RightPick, RightLog, Ready;
    LogSteps(log, p);
    assert Included(log + [p]) == Included(log);
    ReadyInPool(s, log + [p]);
    forall e
      ensures queue[e] == if e.hash in Ready(s.pool, s.disk, log + [p]) && e == EntryOf(s.pool, s.disk, e.hash) then 1
                          else 0
    {
      AfterPick(s, log, p, e.hash);
      PickReady(s, log, p);
    }
  }

  lemma ReadyInPool(s: Setting, log: seq<Pick>)
    ensures Ready(s.pool, s.disk, log) <= s.pool.Keys
  {
  }

  lemma PickReady(s: Setting, log: seq<Pick>, p: Pick)
    requires Orderly(s.pool, s.disk) && RightLog(s, log) && RightPick(s, log, p)
    ensures p.hash in Ready(s.pool, s.disk, log)
  {
  }

  lemma StillWaitingAdded(s: Setting, log: seq<Pick>, p: Pick, queue: multiset<Entry>, orphans: map<Hash, Orphan>,
                          dependers: map<Hash, seq<Hash>>,
                          queue': multiset<Entry>, orphans': map<Hash, Orphan>)
    requires Orderly(s.pool, s.disk) && RightLog(s, log) && RightPick(s, log, p) && p.added && p.hash in s.pool
    requires Waiting(s, log, queue + multiset{EntryOf(s.pool, s.disk, p.hash)}, orphans, dependers)
    requires orphans'.Keys == orphans.Keys
    requires forall h :: h in orphans ==> orphans'[h] == orphans[h].(dependsOn := orphans[h].dependsOn - {p.hash})
    requires forall e :: queue'[e] == queue[e] +
               if Freed(orphans, p.hash, e.hash) && e == Requeued(orphans[e.hash], e.hash) then 1 else 0
    ensures Waiting(s, log + [p], queue', orphans', dependers)
  {
    hide Orderly, Wanted, EntryOf, Parents, DependersOf, RightPick, RightLog, Ready, SetOf;
    LogSteps(log, p);
    ReadyInPool(s, log + [p]);
    SetOfSnoc(Included(log), p.hash);
    PickReady(s, log, p);
    forall e
      ensures queue'[e] == if e.hash in Ready(s.pool, s.disk, log + [p]) && e == EntryOf(s.pool, s.disk, e.hash) then 1
                           else 0
    {
      AfterPick(s, log, p, e.hash);
      FreedNotReady(s, log, e.hash, p.hash);
    }
  }

  lemma FreedNotReady(s: Setting, log: seq<Pick>, x: Hash, h: Hash)
    requires h in Ready(s.pool, s.disk, log)
    ensures x in Ready(s.pool, s.disk, log) ==>
              x in s.pool && Wanted(s.pool, s.disk, x) && Parents(s.pool, s.disk, x) - SetOf(Included(log)) == {}
  {
  }
}
