/**
 What a right pick means for the transactions themselves: the order in which the memory pool is
 used up, and the rules that decide what goes into the block, without the working of the queue.
 */
module MinerPicks {
  import opened Wrappers
  import opened BlockTree
  import opened Transactions
  import opened Sequences
  import opened Miner

  // ---------- priority and fee rate ----------

  // The value of an input on the chain times its depth.
  ghost function AgedValue(disk: Disk, o: OutPoint): real {
    if disk(o).Some? then disk(o).value.value as real * disk(o).value.depth as real else 0.0
  }

  // The value of an input, on the chain or in the pool.
  ghost function SpentValue(pool: Pool, disk: Disk, o: OutPoint): int {
    if disk(o).Some? then disk(o).value.value
    else if o.hash in pool && o.n < |pool[o.hash].tx.vout| then pool[o.hash].tx.vout[o.n].value else 0
  }

  ghost function AgeOf(disk: Disk, vin: seq<OutPoint>): real {
    if vin == [] then 0.0 else AgedValue(disk, vin[0]) + AgeOf(disk, vin[1..])
  }

  ghost function ValueOf(pool: Pool, disk: Disk, vin: seq<OutPoint>): int {
    if vin == [] then 0 else SpentValue(pool, disk, vin[0]) + ValueOf(pool, disk, vin[1..])
  }

  lemma {:induction false} InputsSnoc(pool: Pool, disk: Disk, vin: seq<OutPoint>, o: OutPoint)
    ensures AgeOf(disk, vin + [o]) == AgeOf(disk, vin) + AgedValue(disk, o)
    ensures ValueOf(pool, disk, vin + [o]) == ValueOf(pool, disk, vin) + SpentValue(pool, disk, o)
  {
    hide AgedValue, SpentValue;
    if vin == [] {
      assert (vin + [o])[1..] == [];
    } else {
      assert (vin + [o])[0] == vin[0] && (vin + [o])[1..] == vin[1..] + [o];
      InputsSnoc(pool, disk, vin[1..], o);
    }
  }

  lemma LastInput(pool: Pool, disk: Disk, vin: seq<OutPoint>)
    requires vin != []
    ensures AgeSum(disk, vin) == AgeSum(disk, vin[..|vin| - 1]) + AgedValue(disk, vin[|vin| - 1])
    ensures TotalIn(pool, disk, vin) == TotalIn(pool, disk, vin[..|vin| - 1]) + SpentValue(pool, disk, vin[|vin| - 1])
  {
  }

  lemma {:induction false} InputSums(pool: Pool, disk: Disk, vin: seq<OutPoint>)
    ensures AgeSum(disk, vin) == AgeOf(disk, vin) && TotalIn(pool, disk, vin) == ValueOf(pool, disk, vin)
  {
    if vin != [] {
      hide AgeSum, AgeOf, TotalIn, ValueOf, AgedValue, SpentValue;
      var m := |vin| - 1;
      assert vin == vin[..m] + [vin[m]];
      InputSums(pool, disk, vin[..m]);
      LastInput(pool, disk, vin);
      InputsSnoc(pool, disk, vin[..m], vin[m]);
    }
  }

  // Per byte of the transaction, and per 1000 bytes of it.
  ghost function Priority(pool: Pool, disk: Disk, h: Hash): real
    requires h in pool && pool[h].size > 0
  {
    AgeOf(disk, pool[h].tx.vin) / pool[h].size as real
  }

  ghost function FeeRate(pool: Pool, disk: Disk, h: Hash): real
    requires h in pool && pool[h].size > 0
  {
    (1000 * (ValueOf(pool, disk, pool[h].tx.vin) - pool[h].tx.ValueOut())) as real / pool[h].size as real
  }

  lemma EntryIs(pool: Pool, disk: Disk, h: Hash)
    requires Orderly(pool, disk) && h in pool
    ensures pool[h].size > 0
    ensures EntryOf(pool, disk, h) == Entry(Priority(pool, disk, h), FeeRate(pool, disk, h), h)
  {
    hide AgeSum, TotalIn, AgeOf, ValueOf, OrderlyInputs;
    InputSums(pool, disk, pool[h].tx.vin);
    Per1000(ValueOf(pool, disk, pool[h].tx.vin) - pool[h].tx.ValueOut(), pool[h].size);
  }

  lemma Per1000(fee: int, size: nat)
    requires size > 0
    ensures fee as real / (size as real / 1000.0) == (1000 * fee) as real / size as real
  {
    var s, f := size as real, fee as real;
    var q := f / (s / 1000.0);
    assert q * (s / 1000.0) == f;
    assert q * s == 1000.0 * f;
    assert (1000 * fee) as real == 1000.0 * f;
  }

  // ---------- the order ----------

  lemma {:induction false} RightPrefix(s: Setting, log: seq<Pick>, k: nat)
    requires Orderly(s.pool, s.disk) && RightLog(s, log) && k < |log|
    ensures RightLog(s, log[..k]) && RightPick(s, log[..k], log[k])
  {
    hide Orderly, RightPick, Logged;
    var m := |log| - 1;
    if k < m {
      RightPrefix(s, log[..m], k);
      assert log[..m][..k] == log[..k];
    }
  }

  // A transaction can be picked when it is final, neither coinbase nor coinstake, has every input on
  // the chain or from a pool transaction in the block, and has not been picked before.
  ghost predicate CanBePicked(s: Setting, log: seq<Pick>, h: Hash) {
    && h in s.pool && s.pool[h].final && !s.pool[h].tx.IsCoinBase() && !s.pool[h].tx.IsCoinStake()
    && (forall i :: 0 <= i < |s.pool[h].tx.vin| ==> InputAtHand(s, log, s.pool[h].tx.vin[i]))
    && (forall k :: 0 <= k < |log| ==> log[k].hash != h)
  }

  ghost predicate InputAtHand(s: Setting, log: seq<Pick>, o: OutPoint) {
    s.disk(o).Some? || (o.hash in s.pool && exists k :: 0 <= k < |log| && log[k].added && log[k].hash == o.hash)
  }

  lemma {:induction false} IncludedIff(log: seq<Pick>, h: Hash)
    ensures h in Included(log) <==> exists k :: 0 <= k < |log| && log[k].added && log[k].hash == h
  {
    if log != [] {
      var m := |log| - 1;
      IncludedIff(log[..m], h);
      if k :| 0 <= k < |log| && log[k].added && log[k].hash == h {
        if k < m {
          assert log[..m][k] == log[k];
        }
      }
    }
  }

  lemma ReadyIff(s: Setting, log: seq<Pick>, h: Hash)
    requires Logged(s, log)
    ensures h in Ready(s.pool, s.disk, log) <==> CanBePicked(s, log, h)
  {
    hide Included;
    forall x { IncludedIff(log, x); }
    if h in s.pool {
      var vin := s.pool[h].tx.vin;
      if CanBePicked(s, log, h) {
        forall x | x in Parents(s.pool, s.disk, h) ensures x in SetOf(Included(log)) {
          var i :| 0 <= i < |vin| && s.disk(vin[i]).None? && vin[i].hash == x;
          assert InputAtHand(s, log, vin[i]);
        }
        assert forall i :: 0 <= i < |vin| ==> InputAtHand(s, log, vin[i]);
      }
      if h in Ready(s.pool, s.disk, log) {
        forall i | 0 <= i < |vin| ensures InputAtHand(s, log, vin[i]) {
          assert !Missing(s.pool, s.disk, vin[i]);
          assert s.disk(vin[i]).None? ==> vin[i].hash in Parents(s.pool, s.disk, h);
        }
        forall k | 0 <= k < |log| ensures log[k].hash != h {
          assert Considered(log)[k] == log[k].hash;
        }
      }
    }
  }

  lemma IsKnown(s: Setting, log: seq<Pick>, h: Hash)
    requires h in Ready(s.pool, s.disk, log)
    ensures h in s.pool
  {
  }

  // Of two numbers, the first is compared before the second.
  ghost predicate AtLeast(a1: real, a2: real, b1: real, b2: real) { a1 > b1 || (a1 == b1 && a2 >= b2) }

  // Every pick is one that no other transaction beats that can be picked then: in priority, and in
  // fee rate at equal priority, until the queue turns to fees, and the other way round after that.
  lemma PickIsBest(s: Setting, log: seq<Pick>, k: nat, o: Hash)
    requires Orderly(s.pool, s.disk) && RightLog(s, log) && k < |log| && CanBePicked(s, log[..k], o)
    ensures Logged(s, log[..k]) && CanBePicked(s, log[..k], log[k].hash)
    ensures s.pool[o].size > 0 && s.pool[log[k].hash].size > 0
    ensures var h, pool, disk := log[k].hash, s.pool, s.disk;
            var fee, fee', prio, prio' :=
              FeeRate(pool, disk, h), FeeRate(pool, disk, o), Priority(pool, disk, h), Priority(pool, disk, o);
            if ByFee(s, log[..k]) then AtLeast(fee, prio, fee', prio') else AtLeast(prio, fee, prio', fee')
  {
    hide Orderly, RightLog, Ready, CanBePicked, ByFee, WithinLimits, PassesChecks, FeeRate, Priority, EntryOf;
    RightPrefix(s, log, k);
    ReadyIff(s, log[..k], o);
    ReadyIff(s, log[..k], log[k].hash);
    IsKnown(s, log[..k], o);
    IsKnown(s, log[..k], log[k].hash);
    EntryIs(s.pool, s.disk, o);
    EntryIs(s.pool, s.disk, log[k].hash);
  }

  // ---------- the rules ----------

  // The block with `h` added would stay below its limits, `h` is not from the future, and it is not
  // a cheap transaction in a block that is large enough already.
  ghost predicate FitsIn(s: Setting, log: seq<Pick>, h: Hash)
    requires Orderly(s.pool, s.disk) && Logged(s, log) && h in s.pool && s.pool[h].size > 0
  {
    var l, m, inc := s.limits, s.pool[h], Included(log);
    var size := 1000 + SumTo(SizeAt(s.pool, inc), |inc|) + m.size;
    && size < l.maxSize
    && 100 + SumTo(OpsAt(s.pool, s.checks, inc), |inc|) + m.sigOps < 20000
    && m.time <= l.now && (l.proofOfStake ==> m.time <= l.coinbaseTime)
    && (ByFee(s, log) && FeeRate(s.pool, s.disk, h) < l.minTxFee as real ==> size < l.minSize)
  }

  lemma FitsIff(s: Setting, log: seq<Pick>, h: Hash)
    requires Orderly(s.pool, s.disk) && RightLog(s, log) && h in s.pool
    ensures s.pool[h].size > 0 && (WithinLimits(s, log, h) <==> FitsIn(s, log, h))
  {
    hide Orderly, RightLog, ByFee, FeeRate, Priority, EntryOf, Included, Size, SigOps, SumTo, SizeAt, OpsAt;
    EntryIs(s.pool, s.disk, h);
    CountersAre(s, log);
  }

  // A pick goes into the block exactly when it fits in, its inputs can be read, it pays the minimum
  // fee for a block of the size so far, its script operations stay below the limit too, and the
  // token rules and its inputs pass.
  lemma AddedIff(s: Setting, log: seq<Pick>, k: nat)
    requires Orderly(s.pool, s.disk) && RightLog(s, log) && k < |log|
    ensures var before, h := log[..k], log[k].hash;
            var inc := Included(before);
            && Logged(s, before) && h in s.pool && s.pool[h].size > 0
            && Size(s, before) == 1000 + SumTo(SizeAt(s.pool, inc), |inc|)
            && (log[k].added <==>
                  && FitsIn(s, before, h)
                  && s.checks.valueIn(h, inc).Some?
                  && s.checks.valueIn(h, inc).value - s.pool[h].tx.ValueOut() >= s.checks.minFee(h, Size(s, before))
                  && 100 + SumTo(OpsAt(s.pool, s.checks, inc), |inc|) + s.pool[h].sigOps + s.checks.p2shSigOps(h, inc)
                       < 20000
                  && s.checks.tokens(h, inc, Considered(before)) && s.checks.connect(h, inc))
  {
    hide Orderly, RightLog, Ready, Less, WithinLimits, FitsIn, Included, Considered, SumTo, SizeAt, OpsAt, EntryOf;
    hide Size, SigOps;
    RightPrefix(s, log, k);
    IsKnown(s, log[..k], log[k].hash);
    FitsIff(s, log[..k], log[k].hash);
    CountersAre(s, log[..k]);
  }

  // The pick fits in, and either fills the part of the block kept for priorities or has a priority
  // below that of a coin of one day in 250 bytes.
  ghost predicate Turns(s: Setting, log: seq<Pick>, k: nat)
    requires Orderly(s.pool, s.disk) && Logged(s, log) && k < |log|
  {
    var before, h := log[..k], log[k].hash;
    var inc := Included(before);
    && h in s.pool && s.pool[h].size > 0 && Logged(s, before) && FitsIn(s, before, h)
    && (|| 1000 + SumTo(SizeAt(s.pool, inc), |inc|) + s.pool[h].size >= s.limits.prioritySize
        || Priority(s.pool, s.disk, h) < 57600000.0)
  }

  lemma TurnsIff(s: Setting, log: seq<Pick>)
    requires Orderly(s.pool, s.disk) && RightLog(s, log) && log != []
    ensures var m := |log| - 1;
            Logged(s, log[..m]) && (ByFee(s, log) <==> ByFee(s, log[..m]) || Turns(s, log, m))
  {
    hide Orderly, RightLog, Ready, WithinLimits, FitsIn, Included, SumTo, SizeAt, Priority, FeeRate, EntryOf, Size;
    var m := |log| - 1;
    RightPrefix(s, log, m);
    FitsIff(s, log[..m], log[m].hash);
    EntryIs(s.pool, s.disk, log[m].hash);
    CountersAre(s, log[..m]);
  }

  // The queue is in order of fees from the start if no part of the block is kept for priorities, and
  // otherwise after the first such pick.
  lemma {:induction false} ByFeeIff(s: Setting, log: seq<Pick>)
    requires Orderly(s.pool, s.disk) && RightLog(s, log)
    ensures ByFee(s, log) <==> s.limits.prioritySize == 0 || exists k :: 0 <= k < |log| && Turns(s, log, k)
    decreases |log|
  {
    hide Orderly, RightLog, Turns, Logged;
    if log != [] {
      hide ByFee;
      var m := |log| - 1;
      RightPrefix(s, log, m);
      TurnsIff(s, log);
      ByFeeIff(s, log[..m]);
      if k :| 0 <= k < m && Turns(s, log[..m], k) {
        TurnsPrefix(s, log, k);
      } else if k :| 0 <= k < |log| && Turns(s, log, k) {
        if k < m {
          TurnsPrefix(s, log, k);
        }
      }
    }
  }

  lemma TurnsPrefix(s: Setting, log: seq<Pick>, k: nat)
    requires Orderly(s.pool, s.disk) && Logged(s, log) && k < |log| - 1 && Logged(s, log[..|log| - 1])
    ensures Turns(s, log, k) == Turns(s, log[..|log| - 1], k)
  {
    assert log[..|log| - 1][..k] == log[..k];
  }
}
