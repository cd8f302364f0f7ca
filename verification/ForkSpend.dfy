/**
 The fork spend simulation of `VerifyInputsUnspent`.

 To see whether a block on a fork spends only what the fork may spend, the inputs of the fork
 are first "unspent" in an overlay over the transaction index of the main chain and then
 "respent" in order.  The database is never written.
 */
module ForkSpend {
  import opened Sequences
  import opened BlockTree
  import opened Transactions

  // An entry of `vSpent`: the null position, or the block that spends the output.
  datatype Spent = Unspent | SpentIn(block: Hash)

  datatype TxIndex = TxIndex(block: Hash, vSpent: seq<Spent>)

  // The tables the simulation reads: the transaction index of the main chain and the height of
  // every indexed block.
  datatype Tables = Tables(txs: map<Hash, TxIndex>, heights: map<Hash, nat>)

  datatype Error =
    | TxInputIndexOutOfRange_Case1 | TxInputIndexOutOfRange_Case2 | DoublespendAttempt
    | TxNonExistent_ReadTxIndexFailed_Case1 | TxNonExistent_ReadTxIndexFailed_Case2
    | ReadBlockIndexFailed | BlockCannotBeReadFromDB
    | BlockIndexOfPrevBlockNotFound | CommonAncestorSearchFailed

  datatype Result<T> = Ok(value: T) | Err(error: Error) {
    predicate IsFailure() { Err? }
    function PropagateFailure<U>(): Result<U> requires Err? { Err(error) }
    function Extract(): T requires Ok? { value }
  }

  type Overlay = map<Hash, TxIndex>
  type OutCounts = map<Hash, nat>

  // ---------- the two passes over one transaction's inputs ----------

  function FreshIndex(block: Hash, count: nat): TxIndex { TxIndex(block, seq(count, _ => Unspent)) }

  // One input of the first pass: an output spent above the common ancestor becomes unspent.
  function UnspendInput(db: Tables, ancestor: nat, outs: OutCounts, st: Overlay, op: OutPoint): Result<Overlay> {
    if op.hash !in st && op.hash !in db.txs then
      if op.hash in outs then Ok(st) else Err(TxNonExistent_ReadTxIndexFailed_Case1)
    else
      var txindex := if op.hash in st then st[op.hash] else db.txs[op.hash];
      if op.n >= |txindex.vSpent| then Err(TxInputIndexOutOfRange_Case1)
      else if txindex.vSpent[op.n].Unspent? then Ok(st)
      else if txindex.vSpent[op.n].block !in db.heights then Err(ReadBlockIndexFailed)
      else if db.heights[txindex.vSpent[op.n].block] > ancestor then
        Ok(st[op.hash := txindex.(vSpent := txindex.vSpent[op.n := Unspent])])
      else Ok(st)
  }

  function UnspendInputs(db: Tables, ancestor: nat, outs: OutCounts, st: Overlay, vin: seq<OutPoint>): Result<Overlay> {
    if vin == [] then Ok(st)
    else
      var st' :- UnspendInputs(db, ancestor, outs, st, vin[..|vin| - 1]);
      UnspendInput(db, ancestor, outs, st', vin[|vin| - 1])
  }

  // One input of the second pass: the output must be there and unspent, and becomes spent.
  function RespendInput(db: Tables, outs: OutCounts, block: Hash, st: Overlay, op: OutPoint): Result<Overlay> {
    if op.hash !in st && op.hash !in db.txs && op.hash !in outs then Err(TxNonExistent_ReadTxIndexFailed_Case2)
    else
      var txindex := if op.hash in st then st[op.hash] else if op.hash in db.txs then db.txs[op.hash]
                     else FreshIndex(block, outs[op.hash]);
      if op.n >= |txindex.vSpent| then Err(TxInputIndexOutOfRange_Case2)
      else if txindex.vSpent[op.n].Unspent? then
        Ok(st[op.hash := txindex.(vSpent := txindex.vSpent[op.n := SpentIn(txindex.block)])])
      else Err(DoublespendAttempt)
  }

  function RespendInputs(db: Tables, outs: OutCounts, block: Hash, st: Overlay, vin: seq<OutPoint>): Result<Overlay> {
    if vin == [] then Ok(st)
    else
      var st' :- RespendInputs(db, outs, block, st, vin[..|vin| - 1]);
      RespendInput(db, outs, block, st', vin[|vin| - 1])
  }

  // ---------- the two passes over the transactions of a fork ----------

  // A transaction of the fork with the hash of its block.
  datatype Placed = Placed(block: Hash, tx: Tx)

  datatype Sim = Sim(outs: OutCounts, st: Overlay)

  function UnspendTx(db: Tables, ancestor: nat, s: Sim, tx: Tx): Result<Sim> {
    var outs := s.outs[tx.id := |tx.vout|];
    if tx.IsCoinBase() then Ok(Sim(outs, s.st))
    else
      var st :- UnspendInputs(db, ancestor, outs, s.st, tx.vin);
      Ok(Sim(outs, st))
  }

  function UnspendTxs(db: Tables, ancestor: nat, s: Sim, txs: seq<Placed>): Result<Sim> {
    if txs == [] then Ok(s)
    else
      var s' :- UnspendTxs(db, ancestor, s, txs[..|txs| - 1]);
      UnspendTx(db, ancestor, s', txs[|txs| - 1].tx)
  }

  function RespendTx(db: Tables, s: Sim, p: Placed): Result<Sim> {
    if p.tx.IsCoinBase() then Ok(s)
    else
      var st :- RespendInputs(db, s.outs, p.block, s.st, p.tx.vin);
      Ok(s.(st := if p.tx.id in st then st else st[p.tx.id := FreshIndex(p.block, |p.tx.vout|)]))
  }

  function RespendTxs(db: Tables, s: Sim, txs: seq<Placed>): Result<Sim> {
    if txs == [] then Ok(s)
    else
      var s' :- RespendTxs(db, s, txs[..|txs| - 1]);
      RespendTx(db, s', txs[|txs| - 1])
  }

  // Both passes, from an empty overlay.
  function Simulate(db: Tables, ancestor: nat, txs: seq<Placed>): Result<Sim> {
    var s :- UnspendTxs(db, ancestor, Sim(map[], map[]), txs);
    RespendTxs(db, s, txs)
  }

  // ---------- what the fork may spend ----------

  // The inputs of a fork in order, leaving out those of coinbases.
  ghost function Inputs(txs: seq<Placed>): seq<OutPoint> {
    if txs == [] then []
    else
      var tx := txs[|txs| - 1].tx;
      Inputs(txs[..|txs| - 1]) + if tx.IsCoinBase() then [] else tx.vin
  }

  // `op` names an output that the main chain spends, and not (provably) above the ancestor.
  ghost predicate SpentBelow(db: Tables, ancestor: nat, op: OutPoint) {
    && op.hash in db.txs && op.n < |db.txs[op.hash].vSpent|
    && db.txs[op.hash].vSpent[op.n].SpentIn?
    && !(db.txs[op.hash].vSpent[op.n].block in db.heights && db.heights[db.txs[op.hash].vSpent[op.n].block] > ancestor)
  }

  ghost predicate SpentAbove(db: Tables, ancestor: nat, op: OutPoint) {
    && op.hash in db.txs && op.n < |db.txs[op.hash].vSpent|
    && db.txs[op.hash].vSpent[op.n].SpentIn?
    && db.txs[op.hash].vSpent[op.n].block in db.heights && db.heights[db.txs[op.hash].vSpent[op.n].block] > ancestor
  }

  // `id` is the id of one of the transactions.
  ghost predicate Created(txs: seq<Placed>, id: Hash) { exists j :: 0 <= j < |txs| && txs[j].tx.id == id }

  // `op` names an in-range output of a main-chain transaction or of one of `txs`.
  ghost predicate InRange(db: Tables, txs: seq<Placed>, op: OutPoint) {
    if op.hash in db.txs then op.n < |db.txs[op.hash].vSpent|
    else exists j :: 0 <= j < |txs| && txs[j].tx.id == op.hash && op.n < |txs[j].tx.vout|
  }

  // Every input names an in-range output of a main-chain transaction or of a fork transaction
  // not after its own, and that output is not spent at or below the common ancestor.
  ghost predicate AllAvailable(db: Tables, ancestor: nat, txs: seq<Placed>) {
    forall k, i :: IsInput(txs, k, i) ==>
                     InRange(db, txs[..k + 1], txs[k].tx.vin[i]) && !SpentBelow(db, ancestor, txs[k].tx.vin[i])
  }

  ghost predicate IsInput(txs: seq<Placed>, k: int, i: int) {
    0 <= k < |txs| && !txs[k].tx.IsCoinBase() && 0 <= i < |txs[k].tx.vin|
  }

  // A transaction id determines the transaction, so also how many outputs it has.
  ghost predicate IdsAgree(db: Tables, txs: seq<Placed>) {
    && (forall j, k :: 0 <= j < |txs| && 0 <= k < |txs| && txs[j].tx.id == txs[k].tx.id ==>
          |txs[j].tx.vout| == |txs[k].tx.vout|)
    && (forall j :: 0 <= j < |txs| && txs[j].tx.id in db.txs ==> |db.txs[txs[j].tx.id].vSpent| == |txs[j].tx.vout|)
  }

  // The main chain spends from `id` at or below the ancestor.
  ghost predicate SpentFrom(db: Tables, ancestor: nat, id: Hash) {
    exists n: nat :: SpentBelow(db, ancestor, OutPoint(id, n))
  }

  ghost predicate SpendsSpent(db: Tables, ancestor: nat, tx: Tx) {
    exists i :: 0 <= i < |tx.vin| && SpentBelow(db, ancestor, tx.vin[i])
  }

  // A fork transaction whose id the main chain already spends from at or below the ancestor is
  // confirmed there itself, and so has an input that is spent there.
  ghost predicate ReuseIsSpent(db: Tables, ancestor: nat, txs: seq<Placed>) {
    forall j :: 0 <= j < |txs| && !txs[j].tx.IsCoinBase() && SpentFrom(db, ancestor, txs[j].tx.id) ==>
      SpendsSpent(db, ancestor, txs[j].tx)
  }

  // ---------- the index and the transactions behind it ----------

  // `bodies` are the confirmed transactions: the index has an entry for every output of each,
  // the inputs of each are marked as spent by its block, and no output is spent by a block
  // below the one that has it.
  ghost predicate IndexOf(db: Tables, bodies: map<Hash, Tx>) {
    && bodies.Keys == db.txs.Keys
    && (forall t :: t in bodies ==> db.txs[t].block in db.heights && |db.txs[t].vSpent| == |bodies[t].vout|)
    && (forall t, n :: t in bodies && 0 <= n < |db.txs[t].vSpent| && db.txs[t].vSpent[n].SpentIn? ==>
          SpentNoLower(db, db.txs[t].block, db.txs[t].vSpent[n].block))
    && (forall t, i :: t in bodies && !bodies[t].IsCoinBase() && 0 <= i < |bodies[t].vin| ==>
          MarkedSpent(db, bodies[t].vin[i], db.txs[t].block))
  }

  ghost predicate SpentNoLower(db: Tables, block: Hash, spender: Hash)
    requires block in db.heights
  {
    spender in db.heights && db.heights[block] <= db.heights[spender]
  }

  ghost predicate MarkedSpent(db: Tables, op: OutPoint, block: Hash) {
    op.hash in db.txs && op.n < |db.txs[op.hash].vSpent| && db.txs[op.hash].vSpent[op.n] == SpentIn(block)
  }

  // An id determines the transaction, on the fork and on the main chain, and every transaction has inputs.
  ghost predicate OneTxPerId(bodies: map<Hash, Tx>, txs: seq<Placed>) {
    && (forall j :: 0 <= j < |txs| ==> txs[j].tx.vin != [])
    && (forall j :: 0 <= j < |txs| && txs[j].tx.id in bodies ==> txs[j].tx == bodies[txs[j].tx.id])
    && (forall j, k :: 0 <= j < |txs| && 0 <= k < |txs| && txs[j].tx.id == txs[k].tx.id ==> txs[j].tx == txs[k].tx)
  }

  lemma IndexedForkAgrees(db: Tables, bodies: map<Hash, Tx>, ancestor: nat, txs: seq<Placed>)
    requires IndexOf(db, bodies) && OneTxPerId(bodies, txs)
    ensures IdsAgree(db, txs) && ReuseIsSpent(db, ancestor, txs)
  {
    forall j | 0 <= j < |txs| && !txs[j].tx.IsCoinBase() && SpentFrom(db, ancestor, txs[j].tx.id)
      ensures SpendsSpent(db, ancestor, txs[j].tx)
    {
      var id := txs[j].tx.id;
      var n: nat :| SpentBelow(db, ancestor, OutPoint(id, n));
      assert SpentNoLower(db, db.txs[id].block, db.txs[id].vSpent[n].block);
      assert MarkedSpent(db, bodies[id].vin[0], db.txs[id].block);
      assert SpentBelow(db, ancestor, txs[j].tx.vin[0]);
    }
  }

  // ---------- the first pass ----------

  // The output counts recorded for a fork.
  ghost function OutsOf(txs: seq<Placed>): OutCounts {
    if txs == [] then map[] else OutsOf(txs[..|txs| - 1])[txs[|txs| - 1].tx.id := |txs[|txs| - 1].tx.vout|]
  }

  lemma {:induction false} OutsOfCreated(txs: seq<Placed>, id: Hash)
    ensures id in OutsOf(txs) <==> Created(txs, id)
    ensures id in OutsOf(txs) ==>
              exists j :: 0 <= j < |txs| && txs[j].tx.id == id && OutsOf(txs)[id] == |txs[j].tx.vout|
  {
    if txs != [] {
      var m := |txs| - 1;
      OutsOfCreated(txs[..m], id);
      if txs[m].tx.id != id && id in OutsOf(txs) {
        var j :| 0 <= j < m && txs[..m][j].tx.id == id && OutsOf(txs[..m])[id] == |txs[..m][j].tx.vout|;
        assert txs[j] == txs[..m][j];
      }
      if Created(txs, id) && txs[m].tx.id != id {
        var j :| 0 <= j < |txs| && txs[j].tx.id == id;
        assert txs[..m][j] == txs[j];
      }
    }
  }

  // The first pass gets past `op`.
  ghost predicate Readable(db: Tables, outs: OutCounts, op: OutPoint) {
    if op.hash in db.txs then
      && op.n < |db.txs[op.hash].vSpent|
      && (db.txs[op.hash].vSpent[op.n].SpentIn? ==> db.txs[op.hash].vSpent[op.n].block in db.heights)
    else op.hash in outs
  }

  // The overlay of the first pass after the inputs `ops`: the index of the main chain with the
  // outputs among `ops` that it spends above the ancestor marked unspent.
  ghost predicate Unspends(db: Tables, ancestor: nat, st: Overlay, ops: seq<OutPoint>) {
    && (forall t :: t in st ==> t in db.txs && |st[t].vSpent| == |db.txs[t].vSpent|)
    && (forall t, n {:trigger st[t].vSpent[n]} :: t in st && 0 <= n < |st[t].vSpent| ==>
          st[t].vSpent[n] == if OutPoint(t, n) in ops && SpentAbove(db, ancestor, OutPoint(t, n)) then Unspent
                             else db.txs[t].vSpent[n])
    && (forall op :: op in ops && SpentAbove(db, ancestor, op) ==> op.hash in st)
  }

  lemma UnspendOne(db: Tables, ancestor: nat, outs: OutCounts, st: Overlay, ops: seq<OutPoint>, op: OutPoint)
    requires Unspends(db, ancestor, st, ops)
    ensures UnspendInput(db, ancestor, outs, st, op).Ok? <==> Readable(db, outs, op)
    ensures UnspendInput(db, ancestor, outs, st, op).Ok? ==>
              Unspends(db, ancestor, UnspendInput(db, ancestor, outs, st, op).value, ops + [op])
  {
  }

  lemma {:induction false} UnspendAll(db: Tables, ancestor: nat, outs: OutCounts, st: Overlay, ops: seq<OutPoint>,
                                      vin: seq<OutPoint>)
    requires Unspends(db, ancestor, st, ops)
    ensures UnspendInputs(db, ancestor, outs, st, vin).Ok? <==>
              forall i :: 0 <= i < |vin| ==> Readable(db, outs, vin[i])
    ensures UnspendInputs(db, ancestor, outs, st, vin).Ok? ==>
              Unspends(db, ancestor, UnspendInputs(db, ancestor, outs, st, vin).value, ops + vin)
  {
    hide UnspendInput, Unspends, Readable;
    if vin == [] {
      assert ops + vin == ops;
    } else {
      var m := |vin| - 1;
      UnspendAll(db, ancestor, outs, st, ops, vin[..m]);
      var r := UnspendInputs(db, ancestor, outs, st, vin[..m]);
      if r.Ok? {
        UnspendOne(db, ancestor, outs, r.value, ops + vin[..m], vin[m]);
        assert ops + vin[..m] + [vin[m]] == ops + vin;
      }
    }
  }

  // The inputs of `txs[k]` get past the first pass.
  ghost predicate TxReadable(db: Tables, txs: seq<Placed>, k: nat)
    requires k < |txs|
  {
    !txs[k].tx.IsCoinBase() ==>
      forall i :: 0 <= i < |txs[k].tx.vin| ==> Readable(db, OutsOf(txs[..k + 1]), txs[k].tx.vin[i])
  }

  // The first pass has gone through `txs`.
  ghost predicate FirstPassed(db: Tables, ancestor: nat, txs: seq<Placed>) {
    var r := UnspendTxs(db, ancestor, Sim(map[], map[]), txs);
    && (r.Ok? <==> forall k :: 0 <= k < |txs| ==> TxReadable(db, txs, k))
    && (r.Ok? ==> r.value.outs == OutsOf(txs) && Unspends(db, ancestor, r.value.st, Inputs(txs)))
  }

  lemma {:induction false} FirstPass(db: Tables, ancestor: nat, txs: seq<Placed>)
    ensures FirstPassed(db, ancestor, txs)
  {
    if txs != [] {
      hide FirstPassed;
      FirstPass(db, ancestor, txs[..|txs| - 1]);
      FirstPassStep(db, ancestor, txs);
    }
  }

  lemma FirstPassStep(db: Tables, ancestor: nat, txs: seq<Placed>)
    requires txs != [] && FirstPassed(db, ancestor, txs[..|txs| - 1])
    ensures FirstPassed(db, ancestor, txs)
  {
    hide Unspends, UnspendTx, TxReadable, OutsOf, Inputs;
    var m := |txs| - 1;
    ReadablePrefix(db, txs);
    var r := UnspendTxs(db, ancestor, Sim(map[], map[]), txs[..m]);
    if r.Ok? {
      LastUnspent(db, ancestor, r.value, txs);
    }
  }

  lemma ReadablePrefix(db: Tables, txs: seq<Placed>)
    requires txs != []
    ensures var m := |txs| - 1;
            (forall k :: 0 <= k < |txs| ==> TxReadable(db, txs, k)) <==>
            (forall k :: 0 <= k < m ==> TxReadable(db, txs[..m], k)) && TxReadable(db, txs, m)
  {
    hide Readable, OutsOf;
    var m := |txs| - 1;
    forall k | 0 <= k < m ensures TxReadable(db, txs[..m], k) == TxReadable(db, txs, k) {
      assert txs[..m][..k + 1] == txs[..k + 1] && txs[..m][k] == txs[k];
    }
  }

  lemma LastUnspent(db: Tables, ancestor: nat, s: Sim, txs: seq<Placed>)
    requires txs != [] && s.outs == OutsOf(txs[..|txs| - 1]) && Unspends(db, ancestor, s.st, Inputs(txs[..|txs| - 1]))
    ensures var r := UnspendTx(db, ancestor, s, txs[|txs| - 1].tx);
            && (r.Ok? <==> TxReadable(db, txs, |txs| - 1))
            && (r.Ok? ==> r.value.outs == OutsOf(txs) && Unspends(db, ancestor, r.value.st, Inputs(txs)))
  {
    hide Readable, Unspends, UnspendInputs;
    var m := |txs| - 1;
    assert txs[..m + 1] == txs;
    assert Inputs(txs[..m]) + [] == Inputs(txs[..m]);
    UnspendAll(db, ancestor, OutsOf(txs), s.st, Inputs(txs[..m]), txs[m].tx.vin);
  }

  // ---------- the second pass ----------

  // How many outputs the simulation believes `t` to have.
  ghost function Size(db: Tables, outs: OutCounts, t: Hash): nat
    requires t in db.txs || t in outs
  {
    if t in db.txs then |db.txs[t].vSpent| else outs[t]
  }

  ghost function View(db: Tables, outs: OutCounts, st: Overlay, t: Hash): seq<Spent>
    requires t in db.txs || t in outs
  {
    if t in st then st[t].vSpent else if t in db.txs then db.txs[t].vSpent else seq(outs[t], _ => Unspent)
  }

  // The overlay of the second pass after the inputs `done`, as far as the inputs `all` of the
  // whole fork can tell: an output is free unless spent below the ancestor or by `done`.
  ghost predicate Respends(db: Tables, ancestor: nat, outs: OutCounts, all: seq<OutPoint>, st: Overlay,
                           done: seq<OutPoint>) {
    && (forall t :: t in st ==> (t in db.txs || t in outs) && |st[t].vSpent| == Size(db, outs, t))
    && (forall op :: op in done ==> op.hash in st)
    && (forall op :: op in all && (op.hash in db.txs || op.hash in outs) && op.n < Size(db, outs, op.hash) ==>
          (View(db, outs, st, op.hash)[op.n].Unspent? <==> !SpentBelow(db, ancestor, op) && op !in done))
  }

  ghost predicate Spendable(db: Tables, ancestor: nat, outs: OutCounts, op: OutPoint)
    requires op.hash in db.txs || op.hash in outs
  {
    op.n < Size(db, outs, op.hash) && !SpentBelow(db, ancestor, op)
  }

  ghost predicate Found(db: Tables, outs: OutCounts, ops: seq<OutPoint>) {
    forall op :: op in ops ==> op.hash in db.txs || op.hash in outs
  }

  lemma RespendOne(db: Tables, ancestor: nat, outs: OutCounts, block: Hash, all: seq<OutPoint>, st: Overlay,
                   done: seq<OutPoint>, op: OutPoint)
    requires Respends(db, ancestor, outs, all, st, done) && op in all && (op.hash in db.txs || op.hash in outs)
    ensures RespendInput(db, outs, block, st, op).Ok? <==> Spendable(db, ancestor, outs, op) && op !in done
    ensures RespendInput(db, outs, block, st, op).Ok? ==>
              Respends(db, ancestor, outs, all, RespendInput(db, outs, block, st, op).value, done + [op])
  {
  }

  lemma {:induction false} RespendAll(db: Tables, ancestor: nat, outs: OutCounts, block: Hash, all: seq<OutPoint>,
                                      st: Overlay, done: seq<OutPoint>, vin: seq<OutPoint>)
    requires Respends(db, ancestor, outs, all, st, done) && Found(db, outs, all) && NoDup(done)
    requires forall i :: 0 <= i < |vin| ==> vin[i] in all
    ensures RespendInputs(db, outs, block, st, vin).Ok? <==>
              NoDup(done + vin) && forall i :: 0 <= i < |vin| ==> Spendable(db, ancestor, outs, vin[i])
    ensures RespendInputs(db, outs, block, st, vin).Ok? ==>
              Respends(db, ancestor, outs, all, RespendInputs(db, outs, block, st, vin).value, done + vin)
  {
    hide RespendInput, Respends, Spendable, NoDup;
    if vin == [] {
      assert done + vin == done;
    } else {
      var m := |vin| - 1;
      RespendAll(db, ancestor, outs, block, all, st, done, vin[..m]);
      assert done + vin[..m] + [vin[m]] == done + vin;
      NoDupSnoc(done + vin[..m], vin[m]);
      var r := RespendInputs(db, outs, block, st, vin[..m]);
      if r.Ok? {
        RespendOne(db, ancestor, outs, block, all, r.value, done + vin[..m], vin[m]);
      } else if NoDup(done + vin[..m]) {
        var i :| 0 <= i < m && !Spendable(db, ancestor, outs, vin[..m][i]);
        assert vin[i] == vin[..m][i];
      }
    }
  }

  // Entering a fork transaction that the overlay does not hold yet frees nothing that was spent.
  lemma RespendEnter(db: Tables, ancestor: nat, outs: OutCounts, all: seq<OutPoint>, st: Overlay, done: seq<OutPoint>,
                     id: Hash, entry: TxIndex)
    requires Respends(db, ancestor, outs, all, st, done)
    requires id !in st && id in outs && entry.vSpent == seq(Size(db, outs, id), _ => Unspent)
    requires !SpentFrom(db, ancestor, id)
    ensures Respends(db, ancestor, outs, all, st[id := entry], done)
  {
    forall op | op in all && op.hash == id && op.n < Size(db, outs, id)
      ensures !SpentBelow(db, ancestor, op) && op !in done
    {
      assert op == OutPoint(id, op.n);
    }
  }

  lemma {:induction false} InputsPrefix(txs: seq<Placed>, m: nat)
    requires m <= |txs|
    ensures Inputs(txs[..m]) <= Inputs(txs)
    decreases |txs|
  {
    if m < |txs| {
      assert txs[..|txs| - 1][..m] == txs[..m];
      InputsPrefix(txs[..|txs| - 1], m);
    } else {
      assert txs[..m] == txs;
    }
  }

  // Spendable inputs are not spent at or below the ancestor.
  lemma NothingOldSpent(db: Tables, ancestor: nat, outs: OutCounts, tx: Tx)
    requires forall i :: 0 <= i < |tx.vin| ==> tx.vin[i].hash in db.txs || tx.vin[i].hash in outs
    requires forall i :: 0 <= i < |tx.vin| ==> Spendable(db, ancestor, outs, tx.vin[i])
    ensures !SpendsSpent(db, ancestor, tx)
  {
  }

  // One transaction more: its inputs, then the transaction itself.
  lemma RespendTxOk(db: Tables, ancestor: nat, s: Sim, all: seq<OutPoint>, done: seq<OutPoint>, p: Placed)
    requires Respends(db, ancestor, s.outs, all, s.st, done) && Found(db, s.outs, all) && NoDup(done)
    requires !p.tx.IsCoinBase() && forall i :: 0 <= i < |p.tx.vin| ==> p.tx.vin[i] in all
    requires p.tx.id in s.outs && Size(db, s.outs, p.tx.id) == |p.tx.vout|
    requires SpentFrom(db, ancestor, p.tx.id) ==> SpendsSpent(db, ancestor, p.tx)
    ensures RespendTx(db, s, p).Ok? <==>
              NoDup(done + p.tx.vin) && forall i :: 0 <= i < |p.tx.vin| ==> Spendable(db, ancestor, s.outs, p.tx.vin[i])
    ensures RespendTx(db, s, p).Ok? ==> RespendTx(db, s, p).value.outs == s.outs
    ensures RespendTx(db, s, p).Ok? ==>
              Respends(db, ancestor, s.outs, all, RespendTx(db, s, p).value.st, done + p.tx.vin)
  {
    hide Respends, RespendInputs, Spendable, NoDup, Size, SpentFrom, SpendsSpent;
    RespendAll(db, ancestor, s.outs, p.block, all, s.st, done, p.tx.vin);
    var r := RespendInputs(db, s.outs, p.block, s.st, p.tx.vin);
    if r.Ok? && p.tx.id !in r.value {
      NothingOldSpent(db, ancestor, s.outs, p.tx);
      RespendEnter(db, ancestor, s.outs, all, r.value, done + p.tx.vin, p.tx.id, FreshIndex(p.block, |p.tx.vout|));
    }
  }

  ghost predicate AllSpendable(db: Tables, ancestor: nat, outs: OutCounts, ops: seq<OutPoint>)
    requires Found(db, outs, ops)
  {
    forall i :: 0 <= i < |ops| ==> Spendable(db, ancestor, outs, ops[i])
  }

  lemma SpendableConcat(db: Tables, ancestor: nat, outs: OutCounts, a: seq<OutPoint>, b: seq<OutPoint>)
    requires Found(db, outs, a) && Found(db, outs, b) && Found(db, outs, a + b)
    ensures AllSpendable(db, ancestor, outs, a + b) <==>
              AllSpendable(db, ancestor, outs, a) && AllSpendable(db, ancestor, outs, b)
    ensures NoDup(a + b) ==> NoDup(a)
  {
    hide Spendable;
    if AllSpendable(db, ancestor, outs, a + b) {
      forall i | 0 <= i < |a| ensures Spendable(db, ancestor, outs, a[i]) { assert (a + b)[i] == a[i]; }
      forall i | 0 <= i < |b| ensures Spendable(db, ancestor, outs, b[i]) { assert (a + b)[|a| + i] == b[i]; }
    }
    if NoDup(a + b) {
      forall i, j | 0 <= i < j < |a| ensures a[i] != a[j] { assert (a + b)[i] != (a + b)[j]; }
    }
  }

  // What the second pass relies on.
  ghost predicate Coherent(db: Tables, ancestor: nat, txs: seq<Placed>) {
    IdsAgree(db, txs) && ReuseIsSpent(db, ancestor, txs)
  }

  lemma SizeAgrees(db: Tables, txs: seq<Placed>, k: nat)
    requires IdsAgree(db, txs) && k < |txs|
    ensures txs[k].tx.id in OutsOf(txs) && Size(db, OutsOf(txs), txs[k].tx.id) == |txs[k].tx.vout|
  {
    OutsOfCreated(txs, txs[k].tx.id);
  }

  // The second pass has gone through the first `m` transactions.
  ghost predicate PassedTo(db: Tables, ancestor: nat, st: Overlay, txs: seq<Placed>, m: nat)
    requires m <= |txs|
  {
    var r, done := RespendTxs(db, Sim(OutsOf(txs), st), txs[..m]), Inputs(txs[..m]);
    && Found(db, OutsOf(txs), done)
    && (r.Ok? <==> NoDup(done) && AllSpendable(db, ancestor, OutsOf(txs), done))
    && (r.Ok? ==> r.value.outs == OutsOf(txs) && Respends(db, ancestor, OutsOf(txs), Inputs(txs), r.value.st, done))
  }

  lemma {:induction false} SecondPass(db: Tables, ancestor: nat, st: Overlay, txs: seq<Placed>, m: nat)
    requires m <= |txs| && Coherent(db, ancestor, txs)
    requires Respends(db, ancestor, OutsOf(txs), Inputs(txs), st, []) && Found(db, OutsOf(txs), Inputs(txs))
    ensures PassedTo(db, ancestor, st, txs, m)
  {
    if m > 0 {
      hide Respends, PassedTo;
      SecondPass(db, ancestor, st, txs, m - 1);
      SecondPassStep(db, ancestor, st, txs, m - 1);
    }
  }

  lemma SecondPassStep(db: Tables, ancestor: nat, st: Overlay, txs: seq<Placed>, k: nat)
    requires k < |txs| && Coherent(db, ancestor, txs)
    requires Found(db, OutsOf(txs), Inputs(txs)) && PassedTo(db, ancestor, st, txs, k)
    ensures PassedTo(db, ancestor, st, txs, k + 1)
  {
    hide Respends, Spendable, NoDup, RespendTx, OutsOf, Size, AllSpendable, Coherent, Found, Inputs;
    var outs, init, p := OutsOf(txs), txs[..k], txs[k];
    assert txs[..k + 1][..k] == init;
    var vin := if p.tx.IsCoinBase() then [] else p.tx.vin;
    InputsOneMore(txs, k);
    FoundPart(db, outs, Inputs(txs), Inputs(init));
    FoundPart(db, outs, Inputs(txs), vin);
    FoundPart(db, outs, Inputs(txs), Inputs(init) + vin);
    SpendableConcat(db, ancestor, outs, Inputs(init), vin);
    var r := RespendTxs(db, Sim(outs, st), init);
    if r.Ok? {
      LastTx(db, ancestor, r.value, txs, k, Inputs(init));
    }
  }

  lemma InputsOneMore(txs: seq<Placed>, k: nat)
    requires k < |txs|
    ensures var init, vin := Inputs(txs[..k]), if txs[k].tx.IsCoinBase() then [] else txs[k].tx.vin;
            && Inputs(txs[..k + 1]) == init + vin
            && (forall i :: 0 <= i < |init| ==> init[i] in Inputs(txs))
            && (forall i :: 0 <= i < |vin| ==> vin[i] in Inputs(txs))
  {
    hide Inputs;
    LastInputs(txs, k);
    InputsPrefix(txs, k + 1);
    PartsOf(Inputs(txs[..k]), if txs[k].tx.IsCoinBase() then [] else txs[k].tx.vin, Inputs(txs));
  }

  lemma LastInputs(txs: seq<Placed>, k: nat)
    requires k < |txs|
    ensures Inputs(txs[..k + 1]) == Inputs(txs[..k]) + if txs[k].tx.IsCoinBase() then [] else txs[k].tx.vin
  {
    assert txs[..k + 1][..k] == txs[..k];
  }

  lemma PartsOf(a: seq<OutPoint>, b: seq<OutPoint>, all: seq<OutPoint>)
    requires a + b <= all
    ensures forall i :: 0 <= i < |a| ==> a[i] in all
    ensures forall i :: 0 <= i < |b| ==> b[i] in all
  {
    forall i | 0 <= i < |a| ensures a[i] in all { assert all[i] == (a + b)[i]; }
    forall i | 0 <= i < |b| ensures b[i] in all { assert all[|a| + i] == (a + b)[|a| + i]; }
  }

  lemma FoundPart(db: Tables, outs: OutCounts, all: seq<OutPoint>, part: seq<OutPoint>)
    requires Found(db, outs, all) && forall i :: 0 <= i < |part| ==> part[i] in all
    ensures Found(db, outs, part)
  {
  }

  lemma LastTx(db: Tables, ancestor: nat, s: Sim, txs: seq<Placed>, k: nat, done: seq<OutPoint>)
    requires k < |txs| && Coherent(db, ancestor, txs) && s.outs == OutsOf(txs) && NoDup(done)
    requires Respends(db, ancestor, s.outs, Inputs(txs), s.st, done) && Found(db, s.outs, Inputs(txs))
    requires forall i :: 0 <= i < |txs[k].tx.vin| && !txs[k].tx.IsCoinBase() ==> txs[k].tx.vin[i] in Inputs(txs)
    ensures var vin := if txs[k].tx.IsCoinBase() then [] else txs[k].tx.vin;
            var r := RespendTx(db, s, txs[k]);
            && Found(db, s.outs, vin)
            && (r.Ok? <==> NoDup(done + vin) && AllSpendable(db, ancestor, s.outs, vin))
            && (r.Ok? ==> r.value.outs == s.outs && Respends(db, ancestor, s.outs, Inputs(txs), r.value.st, done + vin))
  {
    hide Respends, RespendInputs, Spendable, NoDup, Size, OutsOf;
    SizeAgrees(db, txs, k);
    assert done + [] == done;
    if !txs[k].tx.IsCoinBase() {
      RespendTxOk(db, ancestor, s, Inputs(txs), done, txs[k]);
    }
  }

  // ---------- exactness ----------

  lemma {:induction false} InputsAre(txs: seq<Placed>, op: OutPoint)
    ensures op in Inputs(txs) <==> exists k, i :: IsInput(txs, k, i) && txs[k].tx.vin[i] == op
  {
    if txs != [] {
      hide Inputs;
      var m := |txs| - 1;
      assert txs[..m + 1] == txs;
      LastInputs(txs, m);
      InputsAre(txs[..m], op);
      if op in Inputs(txs[..m]) {
        var k, i :| IsInput(txs[..m], k, i) && txs[..m][k].tx.vin[i] == op;
        assert IsInput(txs, k, i) && txs[k].tx.vin[i] == op;
      } else if op in Inputs(txs) {
        var i :| 0 <= i < |txs[m].tx.vin| && txs[m].tx.vin[i] == op;
        assert IsInput(txs, m, i);
      }
      if k, i :| IsInput(txs, k, i) && txs[k].tx.vin[i] == op {
        if k < m {
          assert IsInput(txs[..m], k, i) && txs[..m][k].tx.vin[i] == op;
        }
      }
    }
  }

  lemma AllFound(db: Tables, txs: seq<Placed>, op: OutPoint)
    requires forall k :: 0 <= k < |txs| ==> TxReadable(db, txs, k)
    requires op in Inputs(txs)
    ensures op.hash in db.txs || op.hash in OutsOf(txs)
  {
    hide Inputs, OutsOf;
    InputsAre(txs, op);
    var k, i :| IsInput(txs, k, i) && txs[k].tx.vin[i] == op;
    assert TxReadable(db, txs, k);
    OutsOfCreated(txs[..k + 1], op.hash);
    OutsOfCreated(txs, op.hash);
    if Created(txs[..k + 1], op.hash) {
      var j :| 0 <= j < k + 1 && txs[..k + 1][j].tx.id == op.hash;
      assert txs[j].tx.id == op.hash;
    }
  }

  lemma BetweenPasses(db: Tables, ancestor: nat, st: Overlay, txs: seq<Placed>)
    requires Unspends(db, ancestor, st, Inputs(txs)) && forall k :: 0 <= k < |txs| ==> TxReadable(db, txs, k)
    ensures Found(db, OutsOf(txs), Inputs(txs))
    ensures Respends(db, ancestor, OutsOf(txs), Inputs(txs), st, [])
  {
    hide Inputs, OutsOf, TxReadable, Unspends, Respends;
    forall op | op in Inputs(txs) ensures op.hash in db.txs || op.hash in OutsOf(txs) {
      AllFound(db, txs, op);
    }
    SecondPassStart(db, ancestor, OutsOf(txs), st, Inputs(txs));
  }

  lemma SecondPassStart(db: Tables, ancestor: nat, outs: OutCounts, st: Overlay, ops: seq<OutPoint>)
    requires Unspends(db, ancestor, st, ops) && Found(db, outs, ops)
    ensures Respends(db, ancestor, outs, ops, st, [])
  {
    hide SpentBelow, SpentAbove, View;
    forall op | op in ops && op.n < Size(db, outs, op.hash)
      ensures op.n < |View(db, outs, st, op.hash)|
      ensures View(db, outs, st, op.hash)[op.n].Unspent? <==> !SpentBelow(db, ancestor, op)
    {
      ViewAfterFirst(db, ancestor, outs, st, ops, op);
    }
  }

  lemma ViewAfterFirst(db: Tables, ancestor: nat, outs: OutCounts, st: Overlay, ops: seq<OutPoint>, op: OutPoint)
    requires Unspends(db, ancestor, st, ops) && op in ops
    requires (op.hash in db.txs || op.hash in outs) && op.n < Size(db, outs, op.hash)
    ensures op.n < |View(db, outs, st, op.hash)|
    ensures View(db, outs, st, op.hash)[op.n].Unspent? <==> !SpentBelow(db, ancestor, op)
  {
    assert op == OutPoint(op.hash, op.n);
  }

  // One input at a time, passing both passes is being available.
  lemma AvailableIs(db: Tables, ancestor: nat, txs: seq<Placed>, k: nat, i: nat)
    requires IdsAgree(db, txs) && IsInput(txs, k, i)
    ensures var op := txs[k].tx.vin[i];
            && (Readable(db, OutsOf(txs[..k + 1]), op) ==> op.hash in db.txs || op.hash in OutsOf(txs))
            && (Readable(db, OutsOf(txs[..k + 1]), op) && Spendable(db, ancestor, OutsOf(txs), op) <==>
                InRange(db, txs[..k + 1], op) && !SpentBelow(db, ancestor, op))
  {
    var op := txs[k].tx.vin[i];
    if op.hash !in db.txs {
      OutsOfCreated(txs[..k + 1], op.hash);
      OutsOfCreated(txs, op.hash);
      if Created(txs[..k + 1], op.hash) {
        var j :| 0 <= j < k + 1 && txs[..k + 1][j].tx.id == op.hash;
        assert txs[j].tx.id == op.hash && txs[j] == txs[..k + 1][j];
        SizeAgrees(db, txs, j);
      }
    }
  }

  // The simulation succeeds exactly when every input of the fork names an in-range output of a
  // main-chain transaction or of a fork transaction not after it, no such output is spent on
  // the main chain at or below the common ancestor, and no two inputs name the same output.
  lemma SimulationExact(db: Tables, ancestor: nat, txs: seq<Placed>)
    requires IdsAgree(db, txs) && ReuseIsSpent(db, ancestor, txs)
    ensures Simulate(db, ancestor, txs).Ok? <==> AllAvailable(db, ancestor, txs) && NoDup(Inputs(txs))
  {
    hide UnspendTxs, RespendTxs, Readable, Spendable, InRange, SpentBelow, NoDup, IdsAgree, OutsOf, Respends, Unspends;
    FirstPass(db, ancestor, txs);
    var r := UnspendTxs(db, ancestor, Sim(map[], map[]), txs);
    if r.Ok? {
      BetweenPasses(db, ancestor, r.value.st, txs);
      SecondPass(db, ancestor, r.value.st, txs, |txs|);
      assert txs[..|txs|] == txs;
      SpendableByInput(db, ancestor, txs);
    } else {
      var k :| 0 <= k < |txs| && !TxReadable(db, txs, k);
      var i :| 0 <= i < |txs[k].tx.vin| && !Readable(db, OutsOf(txs[..k + 1]), txs[k].tx.vin[i]);
      assert IsInput(txs, k, i);
      AvailableIs(db, ancestor, txs, k, i);
    }
  }

  lemma SpendableByInput(db: Tables, ancestor: nat, txs: seq<Placed>)
    requires IdsAgree(db, txs) && Found(db, OutsOf(txs), Inputs(txs))
    requires forall k :: 0 <= k < |txs| ==> TxReadable(db, txs, k)
    ensures AllSpendable(db, ancestor, OutsOf(txs), Inputs(txs)) <==> AllAvailable(db, ancestor, txs)
  {
    hide Readable, Spendable, InRange, SpentBelow, IdsAgree, OutsOf, Inputs;
    if AllSpendable(db, ancestor, OutsOf(txs), Inputs(txs)) {
      forall k, i | IsInput(txs, k, i)
        ensures InRange(db, txs[..k + 1], txs[k].tx.vin[i]) && !SpentBelow(db, ancestor, txs[k].tx.vin[i])
      {
        InputsAre(txs, txs[k].tx.vin[i]);
        assert TxReadable(db, txs, k);
        AvailableIs(db, ancestor, txs, k, i);
      }
    }
    if AllAvailable(db, ancestor, txs) {
      forall x | 0 <= x < |Inputs(txs)| ensures Spendable(db, ancestor, OutsOf(txs), Inputs(txs)[x]) {
        InputsAre(txs, Inputs(txs)[x]);
        var k, i :| IsInput(txs, k, i) && txs[k].tx.vin[i] == Inputs(txs)[x];
        AvailableIs(db, ancestor, txs, k, i);
      }
    }
  }

  // The same for a fork of transactions with ids of their own, over an index that records what
  // the main chain spends: ids that the fork repeats make no difference.
  lemma SimulationExactOnIndex(db: Tables, bodies: map<Hash, Tx>, ancestor: nat, txs: seq<Placed>)
    requires IndexOf(db, bodies) && OneTxPerId(bodies, txs)
    ensures Simulate(db, ancestor, txs).Ok? <==> AllAvailable(db, ancestor, txs) && NoDup(Inputs(txs))
  {
    hide Simulate, AllAvailable, IndexOf, OneTxPerId, IdsAgree, ReuseIsSpent, Inputs;
    IndexedForkAgrees(db, bodies, ancestor, txs);
    SimulationExact(db, ancestor, txs);
  }
}
