/**
 The fork spend simulation against the plain meaning of a fork: replay its transactions one by
 one on the outputs that were unspent at the common ancestor.
 */
module ForkReplay {
  import opened Sequences
  import opened BlockTree
  import opened Transactions
  import opened ForkSpend
  import opened Wrappers

  type Utxo = iset<OutPoint>

  // `t` is confirmed on the main chain at or below the common ancestor.
  ghost predicate Old(db: Tables, ancestor: nat, t: Hash) {
    t in db.txs && db.txs[t].block in db.heights && db.heights[db.txs[t].block] <= ancestor
  }

  ghost predicate InBase(db: Tables, ancestor: nat, op: OutPoint) {
    Old(db, ancestor, op.hash) && op.n < |db.txs[op.hash].vSpent| && !SpentBelow(db, ancestor, op)
  }

  // The unspent outputs at the common ancestor.
  ghost function Base(db: Tables, ancestor: nat): Utxo { iset op: OutPoint | InBase(db, ancestor, op) }

  ghost predicate OutputOf(tx: Tx, op: OutPoint) { op.hash == tx.id && op.n < |tx.vout| }

  ghost function SpendAll(u: Utxo, vin: seq<OutPoint>): Option<Utxo> {
    if vin == [] then Some(u)
    else
      var r := SpendAll(u, vin[..|vin| - 1]);
      if r.Some? && vin[|vin| - 1] in r.value then Some(r.value - iset{vin[|vin| - 1]}) else None
  }

  // Spends the inputs of a transaction, in order, then adds its outputs.
  ghost function ReplayTx(u: Utxo, tx: Tx): Option<Utxo> {
    var r := if tx.IsCoinBase() then Some(u) else SpendAll(u, tx.vin);
    if r.None? then None else Some(r.value + iset op: OutPoint | OutputOf(tx, op))
  }

  ghost function Replay(u: Utxo, txs: seq<Placed>): Option<Utxo> {
    if txs == [] then Some(u)
    else
      var r := Replay(u, txs[..|txs| - 1]);
      if r.None? then None else ReplayTx(r.value, txs[|txs| - 1].tx)
  }

  ghost predicate Made(txs: seq<Placed>, op: OutPoint) { exists j :: 0 <= j < |txs| && OutputOf(txs[j].tx, op) }

  // What an input of `txs[k]` may name in a replay.
  ghost predicate Offers(db: Tables, ancestor: nat, txs: seq<Placed>, k: nat, op: OutPoint)
    requires k <= |txs|
  {
    InBase(db, ancestor, op) || Made(txs[..k], op)
  }

  ghost predicate AllOffered(db: Tables, ancestor: nat, txs: seq<Placed>) {
    forall k, i :: IsInput(txs, k, i) ==> Offers(db, ancestor, txs, k, txs[k].tx.vin[i])
  }

  // The ids of the fork are new: unlike each other, and neither confirmed nor spent from at or
  // below the ancestor.
  ghost predicate NewIds(db: Tables, ancestor: nat, txs: seq<Placed>) {
    && (forall j, k :: 0 <= j < k < |txs| ==> txs[j].tx.id != txs[k].tx.id)
    && (forall j :: 0 <= j < |txs| ==> !Old(db, ancestor, txs[j].tx.id))
    && (forall j, n: nat :: 0 <= j < |txs| ==> !SpentBelow(db, ancestor, OutPoint(txs[j].tx.id, n)))
  }

  lemma {:induction false} SpendAllIs(u: Utxo, vin: seq<OutPoint>)
    ensures SpendAll(u, vin).Some? <==> NoDup(vin) && forall i :: 0 <= i < |vin| ==> vin[i] in u
    ensures SpendAll(u, vin).Some? ==> forall op :: op in SpendAll(u, vin).value <==> op in u && op !in vin
  {
    if vin != [] {
      var m := |vin| - 1;
      SpendAllIs(u, vin[..m]);
      NoDupSnoc(vin[..m], vin[m]);
      assert vin == vin[..m] + [vin[m]];
    }
  }

  // The state of a replay after the first `m` transactions.
  ghost predicate ReplayedTo(db: Tables, ancestor: nat, txs: seq<Placed>, m: nat)
    requires m <= |txs|
  {
    var r := Replay(Base(db, ancestor), txs[..m]);
    && (r.Some? <==> AllOffered(db, ancestor, txs[..m]) && NoDup(Inputs(txs[..m])))
    && (r.Some? ==>
          forall op :: op in r.value <==> (InBase(db, ancestor, op) || Made(txs[..m], op)) && op !in Inputs(txs[..m]))
  }

  lemma {:induction false} ReplayIs(db: Tables, ancestor: nat, txs: seq<Placed>, m: nat)
    requires m <= |txs| && NewIds(db, ancestor, txs)
    ensures ReplayedTo(db, ancestor, txs, m)
  {
    if m > 0 {
      ReplayIs(db, ancestor, txs, m - 1);
      ReplayStep(db, ancestor, txs, m - 1);
    }
  }

  lemma DistinctConcat(a: seq<OutPoint>, b: seq<OutPoint>)
    ensures NoDup(a + b) <==> NoDup(a) && NoDup(b) && forall i :: 0 <= i < |b| ==> b[i] !in a
  {
    var all := a + b;
    if NoDup(all) {
      assert forall i :: 0 <= i < |a| ==> all[i] == a[i];
      forall i, j | 0 <= i < j < |b| ensures b[i] != b[j] { assert all[|a| + i] != all[|a| + j]; }
      forall i, j | 0 <= i < |b| && 0 <= j < |a| ensures b[i] != a[j] { assert all[|a| + i] != all[j]; }
    }
  }

  lemma OfferedStep(db: Tables, ancestor: nat, txs: seq<Placed>, k: nat)
    requires k < |txs|
    ensures AllOffered(db, ancestor, txs[..k + 1]) <==>
              && AllOffered(db, ancestor, txs[..k])
              && (!txs[k].tx.IsCoinBase() ==>
                    forall i :: 0 <= i < |txs[k].tx.vin| ==> Offers(db, ancestor, txs, k, txs[k].tx.vin[i]))
  {
    hide InBase, Made;
    var init, next := txs[..k], txs[..k + 1];
    forall j | 0 <= j <= k ensures next[..j] == txs[..j] {}
    forall j | 0 <= j < k ensures init[..j] == txs[..j] {}
    if AllOffered(db, ancestor, next) {
      forall j, i | IsInput(init, j, i) ensures Offers(db, ancestor, init, j, init[j].tx.vin[i]) {
        assert IsInput(next, j, i);
      }
      if !txs[k].tx.IsCoinBase() {
        forall i | 0 <= i < |txs[k].tx.vin| ensures Offers(db, ancestor, txs, k, txs[k].tx.vin[i]) {
          assert IsInput(next, k, i);
        }
      }
    }
    if AllOffered(db, ancestor, init) &&
       (!txs[k].tx.IsCoinBase() ==>
          forall i :: 0 <= i < |txs[k].tx.vin| ==> Offers(db, ancestor, txs, k, txs[k].tx.vin[i])) {
      forall j, i | IsInput(next, j, i) ensures Offers(db, ancestor, next, j, next[j].tx.vin[i]) {
        assert j < k ==> IsInput(init, j, i);
      }
    }
  }

  lemma MadeStep(txs: seq<Placed>, k: nat, op: OutPoint)
    requires k < |txs|
    ensures Made(txs[..k + 1], op) <==> Made(txs[..k], op) || OutputOf(txs[k].tx, op)
  {
    if Made(txs[..k], op) {
      var j :| 0 <= j < k && OutputOf(txs[..k][j].tx, op);
      assert txs[..k + 1][j] == txs[..k][j];
    }
    if OutputOf(txs[k].tx, op) {
      assert txs[..k + 1][k] == txs[k];
    }
    if Made(txs[..k + 1], op) {
      var j :| 0 <= j < k + 1 && OutputOf(txs[..k + 1][j].tx, op);
      assert j < k ==> txs[..k][j] == txs[..k + 1][j];
    }
  }

  // Inputs that were offered never name the transaction at `k` or a later one.
  lemma NotYetNamed(db: Tables, ancestor: nat, txs: seq<Placed>, k: nat, op: OutPoint)
    requires k < |txs| && NewIds(db, ancestor, txs) && OutputOf(txs[k].tx, op)
    ensures !InBase(db, ancestor, op) && !Made(txs[..k], op)
  {
    forall j | 0 <= j < k ensures !OutputOf(txs[..k][j].tx, op) {
      assert txs[..k][j] == txs[j];
    }
  }

  lemma InputsNamed(db: Tables, ancestor: nat, txs: seq<Placed>, op: OutPoint)
    requires AllOffered(db, ancestor, txs) && op in Inputs(txs)
    ensures InBase(db, ancestor, op) || Made(txs, op)
  {
    InputsAre(txs, op);
    var k, i :| IsInput(txs, k, i) && txs[k].tx.vin[i] == op;
    assert Offers(db, ancestor, txs, k, op);
    if Made(txs[..k], op) {
      var j :| 0 <= j < k && OutputOf(txs[..k][j].tx, op);
      assert txs[j] == txs[..k][j];
    }
  }

  lemma ReplayStep(db: Tables, ancestor: nat, txs: seq<Placed>, k: nat)
    requires k < |txs| && NewIds(db, ancestor, txs) && ReplayedTo(db, ancestor, txs, k)
    ensures ReplayedTo(db, ancestor, txs, k + 1)
  {
    hide InBase, Made, NoDup, OutputOf, SpendAll, NewIds, AllOffered;
    var init, tx := txs[..k], txs[k].tx;
    var vin := if tx.IsCoinBase() then [] else tx.vin;
    assert txs[..k + 1][..k] == init;
    assert Inputs(txs[..k + 1]) == Inputs(init) + vin;
    OfferedStep(db, ancestor, txs, k);
    DistinctConcat(Inputs(init), vin);
    var r := Replay(Base(db, ancestor), init);
    if r.Some? {
      SpendAllIs(r.value, vin);
      assert tx.IsCoinBase() ==> SpendAll(r.value, []) == Some(r.value) by { EmptySpend(r.value); }
      var t := SpendAll(r.value, vin);
      if t.Some? {
        forall op
          ensures Made(txs[..k + 1], op) <==> Made(init, op) || OutputOf(tx, op)
          ensures OutputOf(tx, op) ==> op !in Inputs(init) + vin
        {
          MadeStep(txs, k, op);
          if OutputOf(tx, op) {
            NotYetNamed(db, ancestor, txs, k, op);
            assert op !in r.value && op !in vin;
            if op in Inputs(init) {
              InputsNamed(db, ancestor, init, op);
            }
          }
        }
      }
    }
  }

  lemma EmptySpend(u: Utxo)
    ensures SpendAll(u, []) == Some(u)
  {
  }

  // Every input names a transaction confirmed at or below the ancestor or an earlier one of the fork.
  ghost predicate NamesEarlier(db: Tables, ancestor: nat, txs: seq<Placed>) {
    forall k, i :: IsInput(txs, k, i) ==>
      Old(db, ancestor, txs[k].tx.vin[i].hash) || Created(txs[..k], txs[k].tx.vin[i].hash)
  }

  lemma OfferedIs(db: Tables, ancestor: nat, txs: seq<Placed>, k: nat, op: OutPoint)
    requires k < |txs| && IdsAgree(db, txs) && NewIds(db, ancestor, txs)
    ensures Offers(db, ancestor, txs, k, op) <==>
              && InRange(db, txs[..k + 1], op) && !SpentBelow(db, ancestor, op)
              && (Old(db, ancestor, op.hash) || Created(txs[..k], op.hash))
  {
    hide SpentBelow;
    assert op == OutPoint(op.hash, op.n);
    if Made(txs[..k], op) {
      var j :| 0 <= j < k && OutputOf(txs[..k][j].tx, op);
      assert txs[j] == txs[..k][j] == txs[..k + 1][j];
    }
    if Created(txs[..k], op.hash) && InRange(db, txs[..k + 1], op) {
      var j :| 0 <= j < k && txs[..k][j].tx.id == op.hash;
      assert txs[j] == txs[..k][j];
      if op.hash !in db.txs {
        var j' :| 0 <= j' < k + 1 && txs[..k + 1][j'].tx.id == op.hash && op.n < |txs[..k + 1][j'].tx.vout|;
        assert txs[j'] == txs[..k + 1][j'];
      }
      assert OutputOf(txs[..k][j].tx, op);
    }
  }

  // Replaying the fork on the outputs unspent at the common ancestor succeeds exactly when the
  // simulation does and no input reaches for a transaction that only the abandoned part of the
  // main chain, or a later part of the fork, contains.
  lemma ReplayIffSimulated(db: Tables, ancestor: nat, txs: seq<Placed>)
    requires IdsAgree(db, txs) && NewIds(db, ancestor, txs)
    ensures Replay(Base(db, ancestor), txs).Some? <==>
              Simulate(db, ancestor, txs).Ok? && NamesEarlier(db, ancestor, txs)
  {
    hide Replay, Simulate, SpentBelow, InRange, InBase, Made, NoDup, Old, Created, IdsAgree, Inputs;
    assert ReuseIsSpent(db, ancestor, txs);
    SimulationExact(db, ancestor, txs);
    ReplayIs(db, ancestor, txs, |txs|);
    assert txs[..|txs|] == txs;
    forall k, i | IsInput(txs, k, i)
      ensures Offers(db, ancestor, txs, k, txs[k].tx.vin[i]) <==>
              && InRange(db, txs[..k + 1], txs[k].tx.vin[i]) && !SpentBelow(db, ancestor, txs[k].tx.vin[i])
              && (Old(db, ancestor, txs[k].tx.vin[i].hash) || Created(txs[..k], txs[k].tx.vin[i].hash))
    {
      OfferedIs(db, ancestor, txs, k, txs[k].tx.vin[i]);
    }
    hide Offers;
  }

  // ---------- what the simulation lets through ----------

  // A main chain that goes on above the common ancestor, at height 1, with a block that confirms
  // transaction 7, and a fork that spends the output of 7.
  ghost const ABANDONED := Tables(map[7 := TxIndex(5, [Unspent])], map[1 := 1, 5 := 2])
  ghost const SPENDER := Placed(6, Tx(8, [OutPoint(7, 0)], [TxOut(0, false)], 0))

  // The simulation accepts the fork, although once the main chain is left at the ancestor there is
  // no transaction 7 any more.
  lemma AbandonedOutputPasses()
    ensures Simulate(ABANDONED, 1, [SPENDER]).Ok? && !NamesEarlier(ABANDONED, 1, [SPENDER])
    ensures Replay(Base(ABANDONED, 1), [SPENDER]).None?
  {
    hide Simulate, Replay;
    AbandonedAvailable();
    SimulationExact(ABANDONED, 1, [SPENDER]);
    assert IsInput([SPENDER], 0, 0);
    assert [SPENDER][..0] == [];
    ReplayIffSimulated(ABANDONED, 1, [SPENDER]);
  }

  lemma AbandonedAvailable()
    ensures AllAvailable(ABANDONED, 1, [SPENDER]) && Inputs([SPENDER]) == [OutPoint(7, 0)]
    ensures IdsAgree(ABANDONED, [SPENDER]) && NewIds(ABANDONED, 1, [SPENDER]) && ReuseIsSpent(ABANDONED, 1, [SPENDER])
  {
    assert [SPENDER][..0] == [];
    assert Inputs([]) == [];
  }
}
