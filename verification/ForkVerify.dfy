/**
 `VerifyInputsUnspent` as the node runs it: walk back to the main chain, read the blocks of the
 fork, and simulate.
 */
module ForkVerify {
  import opened Sequences
  import opened BlockTree
  import opened Transactions
  import opened ChainState
  import opened ForkSpend

  function PlaceAll(block: Hash, vtx: seq<Tx>): (txs: seq<Placed>)
    ensures |txs| == |vtx| && forall i :: 0 <= i < |vtx| ==> txs[i] == Placed(block, vtx[i])
  {
    seq(|vtx|, i requires 0 <= i < |vtx| => Placed(block, vtx[i]))
  }

  // ---------- the passes compose ----------

  lemma {:induction false} UnspendInputsPrefix(db: Tables, ancestor: nat, outs: OutCounts, st: Overlay,
                                               vin: seq<OutPoint>, k: nat)
    requires k <= |vin| && UnspendInputs(db, ancestor, outs, st, vin[..k]).Err?
    ensures UnspendInputs(db, ancestor, outs, st, vin) == UnspendInputs(db, ancestor, outs, st, vin[..k])
    decreases |vin|
  {
    if k < |vin| {
      assert vin[..|vin| - 1][..k] == vin[..k];
      UnspendInputsPrefix(db, ancestor, outs, st, vin[..|vin| - 1], k);
    } else {
      assert vin[..k] == vin;
    }
  }

  lemma {:induction false} RespendInputsPrefix(db: Tables, outs: OutCounts, block: Hash, st: Overlay,
                                               vin: seq<OutPoint>, k: nat)
    requires k <= |vin| && RespendInputs(db, outs, block, st, vin[..k]).Err?
    ensures RespendInputs(db, outs, block, st, vin) == RespendInputs(db, outs, block, st, vin[..k])
    decreases |vin|
  {
    if k < |vin| {
      assert vin[..|vin| - 1][..k] == vin[..k];
      RespendInputsPrefix(db, outs, block, st, vin[..|vin| - 1], k);
    } else {
      assert vin[..k] == vin;
    }
  }

  lemma {:induction false} UnspendTxsConcat(db: Tables, ancestor: nat, s: Sim, a: seq<Placed>, b: seq<Placed>)
    ensures UnspendTxs(db, ancestor, s, a + b) ==
              var r := UnspendTxs(db, ancestor, s, a);
              if r.Err? then r else UnspendTxs(db, ancestor, r.value, b)
    decreases |b|
  {
    if b == [] {
      assert a + b == a;
    } else {
      var m := |b| - 1;
      UnspendTxsConcat(db, ancestor, s, a, b[..m]);
      assert (a + b)[..|a + b| - 1] == a + b[..m];
    }
  }

  lemma {:induction false} RespendTxsConcat(db: Tables, s: Sim, a: seq<Placed>, b: seq<Placed>)
    ensures RespendTxs(db, s, a + b) ==
              var r := RespendTxs(db, s, a);
              if r.Err? then r else RespendTxs(db, r.value, b)
    decreases |b|
  {
    if b == [] {
      assert a + b == a;
    } else {
      var m := |b| - 1;
      RespendTxsConcat(db, s, a, b[..m]);
      assert (a + b)[..|a + b| - 1] == a + b[..m];
    }
  }

  // ---------- the passes as the node runs them ----------

  method UnspendTransaction(db: Tables, ancestor: nat, outs: OutCounts, st0: Overlay, vin: seq<OutPoint>)
    returns (r: Result<Overlay>)
    ensures r == UnspendInputs(db, ancestor, outs, st0, vin)
  {
    var st := st0;
    for i := 0 to |vin|
      invariant UnspendInputs(db, ancestor, outs, st0, vin[..i]) == Ok(st)
    {
      assert vin[..i + 1][..i] == vin[..i];
      var op := vin[i];
      var txindex: TxIndex;
      if op.hash in st {
        txindex := st[op.hash];
      } else if op.hash in db.txs {
        txindex := db.txs[op.hash];
      } else if op.hash in outs {
        continue;
      } else {
        UnspendInputsPrefix(db, ancestor, outs, st0, vin, i + 1);
        return Err(TxNonExistent_ReadTxIndexFailed_Case1);
      }
      if op.n >= |txindex.vSpent| {
        UnspendInputsPrefix(db, ancestor, outs, st0, vin, i + 1);
        return Err(TxInputIndexOutOfRange_Case1);
      }
      if txindex.vSpent[op.n].Unspent? {
        continue;
      }
      var spender := txindex.vSpent[op.n].block;
      if spender !in db.heights {
        UnspendInputsPrefix(db, ancestor, outs, st0, vin, i + 1);
        return Err(ReadBlockIndexFailed);
      }
      if db.heights[spender] > ancestor {
        st := st[op.hash := txindex.(vSpent := txindex.vSpent[op.n := Unspent])];
      }
    }
    assert vin[..|vin|] == vin;
    return Ok(st);
  }

  method UnspendBlock(db: Tables, ancestor: nat, s0: Sim, block: Hash, vtx: seq<Tx>) returns (r: Result<Sim>)
    ensures r == UnspendTxs(db, ancestor, s0, PlaceAll(block, vtx))
  {
    hide UnspendInputs;
    ghost var txs := PlaceAll(block, vtx);
    var outs: OutCounts, st: Overlay := s0.outs, s0.st;
    for i := 0 to |vtx|
      invariant UnspendTxs(db, ancestor, s0, txs[..i]) == Ok(Sim(outs, st))
    {
      assert txs[..i + 1][..i] == txs[..i];
      assert txs == txs[..i + 1] + txs[i + 1..];
      UnspendTxsConcat(db, ancestor, s0, txs[..i + 1], txs[i + 1..]);
      var tx := vtx[i];
      outs := outs[tx.id := |tx.vout|];
      if tx.IsCoinBase() {
        continue;
      }
      var t := UnspendTransaction(db, ancestor, outs, st, tx.vin);
      if t.Err? {
        return Err(t.error);
      }
      st := t.value;
    }
    assert txs[..|txs|] == txs;
    return Ok(Sim(outs, st));
  }

  method RespendTransaction(db: Tables, outs: OutCounts, block: Hash, st0: Overlay, vin: seq<OutPoint>)
    returns (r: Result<Overlay>)
    ensures r == RespendInputs(db, outs, block, st0, vin)
  {
    var st := st0;
    for i := 0 to |vin|
      invariant RespendInputs(db, outs, block, st0, vin[..i]) == Ok(st)
    {
      assert vin[..i + 1][..i] == vin[..i];
      var op := vin[i];
      var txindex: TxIndex;
      if op.hash in st {
        txindex := st[op.hash];
      } else if op.hash in db.txs {
        txindex := db.txs[op.hash];
      } else if op.hash in outs {
        txindex := FreshIndex(block, outs[op.hash]);
      } else {
        RespendInputsPrefix(db, outs, block, st0, vin, i + 1);
        return Err(TxNonExistent_ReadTxIndexFailed_Case2);
      }
      if op.n >= |txindex.vSpent| {
        RespendInputsPrefix(db, outs, block, st0, vin, i + 1);
        return Err(TxInputIndexOutOfRange_Case2);
      }
      if txindex.vSpent[op.n].Unspent? {
        st := st[op.hash := txindex.(vSpent := txindex.vSpent[op.n := SpentIn(txindex.block)])];
      } else {
        RespendInputsPrefix(db, outs, block, st0, vin, i + 1);
        return Err(DoublespendAttempt);
      }
    }
    assert vin[..|vin|] == vin;
    return Ok(st);
  }

  method RespendBlock(db: Tables, s0: Sim, block: Hash, vtx: seq<Tx>) returns (r: Result<Sim>)
    ensures r == RespendTxs(db, s0, PlaceAll(block, vtx))
  {
    hide RespendInputs;
    ghost var txs := PlaceAll(block, vtx);
    var st: Overlay := s0.st;
    for i := 0 to |vtx|
      invariant RespendTxs(db, s0, txs[..i]) == Ok(s0.(st := st))
    {
      assert txs[..i + 1][..i] == txs[..i];
      assert txs == txs[..i + 1] + txs[i + 1..];
      RespendTxsConcat(db, s0, txs[..i + 1], txs[i + 1..]);
      var tx := vtx[i];
      if tx.IsCoinBase() {
        continue;
      }
      var t := RespendTransaction(db, s0.outs, block, st, tx.vin);
      if t.Err? {
        return Err(t.error);
      }
      st := t.value;
      if tx.id !in st {
        st := st[tx.id := FreshIndex(block, |tx.vout|)];
      }
    }
    assert txs[..|txs|] == txs;
    return Ok(s0.(st := st));
  }

  // ---------- the whole check ----------

  // The blocks of the fork that are not in the main chain, lowest first, and the block it left
  // the main chain from.
  method GetBlocksUpToCommonAncestor(db: Db, ghost s: State, hashPrev: Hash) returns (r: Result<(seq<Hash>, Index)>)
    requires Stores(db, s)
    ensures hashPrev !in s.tree ==> r == Err(BlockIndexOfPrevBlockNotFound)
    ensures hashPrev in s.tree ==> Inv(s) && r.Ok?
    ensures hashPrev in s.tree ==> r.value.0 == NewPath(s, hashPrev)[Fork(s, hashPrev)..]
    ensures hashPrev in s.tree ==>
              r.value.1.blockHash == ForkBlock(s, hashPrev) && r.value.1.node.height == Fork(s, hashPrev) - 1
  {
    hide Stores, Inv, WellFormed, Path, NextOn, NewPath, Fork, ForkBlock, IsAncestor;
    StoredEntry(db, s, hashPrev);
    if hashPrev !in db.index {
      return Err(BlockIndexOfPrevBlockNotFound);
    }
    SelfAncestor(s.tree, s.genesis, hashPrev);
    ghost var p := NewPath(s, hashPrev);
    var inFork := [];
    var curr := db.index[hashPrev];
    while !IsInMainChain(curr, db.best)
      invariant curr.blockHash in s.tree && curr.blockHash in db.index && curr == db.index[curr.blockHash]
      invariant curr.node == s.tree[curr.blockHash]
      invariant curr.node.height < |p| && p[curr.node.height] == curr.blockHash
      invariant inFork == p[curr.node.height + 1..]
      invariant Fork(s, hashPrev) <= curr.node.height + 1
      decreases curr.node.height
    {
      MainChainByHeight(db, s, hashPrev, curr.node.height);
      NewPathStep(s, hashPrev, curr.node.height);
      inFork := [curr.blockHash] + inFork;
      StoredEntry(db, s, curr.blockHash);
      StoredEntry(db, s, curr.node.prev);
      curr := db.index[curr.node.prev];
    }
    MainChainByHeight(db, s, hashPrev, curr.node.height);
    return Ok((inFork, curr));
  }

  // On the path of `h`, the main chain is what lies below the fork.
  lemma MainChainByHeight(db: Db, s: State, h: Hash, i: nat)
    requires Stores(db, s) && Inv(s) && h in s.tree && i < |NewPath(s, h)|
    ensures NewPath(s, h)[i] in db.index
    ensures IsInMainChain(db.index[NewPath(s, h)[i]], db.best) <==> i < Fork(s, h)
    ensures i == Fork(s, h) - 1 ==> NewPath(s, h)[i] == ForkBlock(s, h)
    ensures Fork(s, h) >= 1
  {
    hide Inv, Path, WellFormed, NextOn, RenderHeights, ForkLength;
    InvTree(s);
    var p := NewPath(s, h);
    InMainChainIffAncestor(s.tree, s.genesis, s.tip, p[i]);
    CommonAncestors(s.tree, s.genesis, h, s.tip, p[i]);
    ForkLengthSymmetric(s.tree, s.genesis, h, s.tip);
  }

  function TablesOf(db: Db, txs: map<Hash, TxIndex>): Tables {
    Tables(txs, map h | h in db.index :: db.index[h].node.height)
  }

  // The transactions of the listed blocks, in order.
  function ForkTxs(blocks: map<Hash, Block>, hs: seq<Hash>): seq<Placed>
    requires forall i :: 0 <= i < |hs| ==> hs[i] in blocks
  {
    if hs == [] then []
    else ForkTxs(blocks, hs[..|hs| - 1]) + PlaceAll(hs[|hs| - 1], blocks[hs[|hs| - 1]].vtx)
  }

  // First pass over the listed blocks, then second pass.
  method SimulateFork(db: Tables, ancestor: nat, blocks: map<Hash, Block>, hs: seq<Hash>) returns (r: Result<Sim>)
    requires forall i :: 0 <= i < |hs| ==> hs[i] in blocks
    ensures r == Simulate(db, ancestor, ForkTxs(blocks, hs))
  {
    hide UnspendTxs, RespendTxs;
    var s := Sim(map[], map[]);
    ghost var s0, txs := s, ForkTxs(blocks, hs);
    assert UnspendTxs(db, ancestor, s, []) == Ok(s) by { EmptyPass(db, ancestor, s); }
    for i := 0 to |hs|
      invariant UnspendTxs(db, ancestor, s0, ForkTxs(blocks, hs[..i])) == Ok(s)
    {
      ForkTxsStep(blocks, hs, i);
      ForkTxsSplit(blocks, hs, i + 1);
      UnspendTxsConcat(db, ancestor, s0, ForkTxs(blocks, hs[..i]), PlaceAll(hs[i], blocks[hs[i]].vtx));
      ghost var rest := txs[|ForkTxs(blocks, hs[..i + 1])|..];
      assert txs == ForkTxs(blocks, hs[..i + 1]) + rest;
      UnspendTxsConcat(db, ancestor, s0, ForkTxs(blocks, hs[..i + 1]), rest);
      var t := UnspendBlock(db, ancestor, s, hs[i], blocks[hs[i]].vtx);
      if t.Err? {
        return Err(t.error);
      }
      s := t.value;
    }
    assert hs[..|hs|] == hs;
    ghost var s1 := s;
    assert RespendTxs(db, s, []) == Ok(s) by { EmptyPass(db, ancestor, s); }
    for i := 0 to |hs|
      invariant RespendTxs(db, s1, ForkTxs(blocks, hs[..i])) == Ok(s)
    {
      ForkTxsStep(blocks, hs, i);
      ForkTxsSplit(blocks, hs, i + 1);
      RespendTxsConcat(db, s1, ForkTxs(blocks, hs[..i]), PlaceAll(hs[i], blocks[hs[i]].vtx));
      ghost var rest := txs[|ForkTxs(blocks, hs[..i + 1])|..];
      assert txs == ForkTxs(blocks, hs[..i + 1]) + rest;
      RespendTxsConcat(db, s1, ForkTxs(blocks, hs[..i + 1]), rest);
      var t := RespendBlock(db, s, hs[i], blocks[hs[i]].vtx);
      if t.Err? {
        return Err(t.error);
      }
      s := t.value;
    }
    return Ok(s);
  }

  lemma EmptyPass(db: Tables, ancestor: nat, s: Sim)
    ensures UnspendTxs(db, ancestor, s, []) == Ok(s) == RespendTxs(db, s, [])
  {
  }

  lemma ForkTxsStep(blocks: map<Hash, Block>, hs: seq<Hash>, i: nat)
    requires i < |hs| && forall j :: 0 <= j < |hs| ==> hs[j] in blocks
    ensures ForkTxs(blocks, hs[..i + 1]) == ForkTxs(blocks, hs[..i]) + PlaceAll(hs[i], blocks[hs[i]].vtx)
  {
    assert hs[..i + 1][..i] == hs[..i];
  }

  lemma {:induction false} ForkTxsSplit(blocks: map<Hash, Block>, hs: seq<Hash>, i: nat)
    requires i <= |hs| && forall j :: 0 <= j < |hs| ==> hs[j] in blocks
    ensures ForkTxs(blocks, hs[..i]) <= ForkTxs(blocks, hs)
    decreases |hs|
  {
    if i < |hs| {
      assert hs[..|hs| - 1][..i] == hs[..i];
      ForkTxsSplit(blocks, hs[..|hs| - 1], i);
    } else {
      assert hs[..i] == hs;
    }
  }

  // The blocks of the fork a new block sits on, and the block itself.
  ghost function WholeFork(s: State, hash: Hash, block: Block): seq<Placed>
    requires Inv(s) && block.hashPrev in s.tree
  {
    ForkTxs(s.blocks, NewPath(s, block.hashPrev)[Fork(s, block.hashPrev)..]) + PlaceAll(hash, block.vtx)
  }

  // A new block is let through exactly when its fork, with it, spends only what it may.  `bodies`
  // are the transactions of the main chain.
  method VerifyInputsUnspent(db: Db, txs: map<Hash, TxIndex>, hash: Hash, block: Block, ghost s: State,
                             ghost bodies: map<Hash, Tx>)
      returns (r: Result<Sim>)
    requires Stores(db, s) && hash !in s.tree
    ensures block.hashPrev !in s.tree ==> r == Err(BlockIndexOfPrevBlockNotFound)
    ensures block.hashPrev in s.tree ==>
              && Inv(s)
              && var index, ancestor, fork := TablesOf(db, txs), Fork(s, block.hashPrev) - 1, WholeFork(s, hash, block);
                 && r == Simulate(index, ancestor, fork)
                 && (IndexOf(index, bodies) && OneTxPerId(bodies, fork) ==>
                       (r.Ok? <==> AllAvailable(index, ancestor, fork) && NoDup(Inputs(fork))))
  {
    hide Inv, Stores, WellFormed, Path, NewPath, Fork, Simulate, Inputs, TablesOf, IndexOf, OneTxPerId, AllAvailable;
    hide NoDup;
    StoredEntry(db, s, hash);
    var ancestry := GetBlocksUpToCommonAncestor(db, s, block.hashPrev);
    if ancestry.Err? {
      return Err(ancestry.error);
    }
    var hs, ancestor := ancestry.value.0 + [hash], ancestry.value.1;
    var blocks := db.blocks[hash := block];
    assert hs[..|hs| - 1] == ancestry.value.0;
    SameForkTxs(db.blocks, blocks, ancestry.value.0);
    r := SimulateFork(TablesOf(db, txs), ancestor.node.height, blocks, hs);
    ghost var index, fork := TablesOf(db, txs), WholeFork(s, hash, block);
    if IndexOf(index, bodies) && OneTxPerId(bodies, fork) {
      SimulationExactOnIndex(index, bodies, Fork(s, block.hashPrev) - 1, fork);
    }
  }

  lemma {:induction false} SameForkTxs(blocks: map<Hash, Block>, blocks': map<Hash, Block>, hs: seq<Hash>)
    requires forall i :: 0 <= i < |hs| ==> hs[i] in blocks && hs[i] in blocks' && blocks'[hs[i]] == blocks[hs[i]]
    ensures ForkTxs(blocks', hs) == ForkTxs(blocks, hs)
  {
    if hs != [] {
      SameForkTxs(blocks, blocks', hs[..|hs| - 1]);
    }
  }
}
