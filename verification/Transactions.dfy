/**
 Transactions and blocks, as far as the chain code looks at them, and the value
 accounting that `ConnectBlock` does over the transactions of one block.
 */
module Transactions {
  import opened BlockTree

  const NULL_INDEX: nat := 0xffff_ffff

  datatype OutPoint = OutPoint(hash: Hash, n: nat) {
    predicate IsNull() { hash == 0 && n == NULL_INDEX }
  }

  datatype TxOut = TxOut(value: int, emptyScript: bool) {
    predicate IsEmpty() { value == 0 && emptyScript }
  }

  // `valueIn` is the sum of the outputs the inputs name; those outputs are fixed by
  // the ids in `vin`, so it is a constant of the transaction.
  datatype Tx = Tx(id: Hash, vin: seq<OutPoint>, vout: seq<TxOut>, valueIn: int) {
    predicate IsCoinBase() { |vin| == 1 && vin[0].IsNull() && |vout| >= 1 }

    predicate IsCoinStake() { |vin| > 0 && !vin[0].IsNull() && |vout| >= 2 && vout[0].IsEmpty() }

    function ValueOut(): int { SumOuts(vout) }
  }

  datatype Block = Block(hashPrev: Hash, vtx: seq<Tx>) {
    predicate IsProofOfStake() { |vtx| > 1 && vtx[1].IsCoinStake() }
  }

  function SumOuts(outs: seq<TxOut>): int {
    if outs == [] then 0 else outs[0].value + SumOuts(outs[1..])
  }

  // The reward limits, which the source computes from the chain parameters, the coin age
  // of the stake and the fees.
  datatype Rewards = Rewards(proofOfWork: int -> int, proofOfStake: (Hash, int) -> int)

  // The coinbase and coinstake rules of `CheckBlock` (the remaining rules of that
  // function do not bear on the accounting and belong to the validity oracle).
  predicate CheckShape(b: Block) {
    && b.vtx != []
    && b.vtx[0].IsCoinBase()
    && (forall i :: 1 <= i < |b.vtx| ==> !b.vtx[i].IsCoinBase())
    && (b.IsProofOfStake() ==>
          && |b.vtx[0].vout| == 1 && b.vtx[0].vout[0].IsEmpty()
          && forall i :: 2 <= i < |b.vtx| ==> !b.vtx[i].IsCoinStake())
  }

  // What a block adds to the money supply: everything it pays out less everything it consumes.
  function NetOutput(vtx: seq<Tx>): int {
    if vtx == [] then 0
    else
      var tx := vtx[|vtx| - 1];
      NetOutput(vtx[..|vtx| - 1]) + tx.ValueOut() - (if tx.IsCoinBase() then 0 else tx.valueIn)
  }

  // The fees of a block: coinbase and coinstake pay none.
  function Fees(vtx: seq<Tx>): int {
    if vtx == [] then 0
    else
      var tx := vtx[|vtx| - 1];
      Fees(vtx[..|vtx| - 1]) + if tx.IsCoinBase() || tx.IsCoinStake() then 0 else tx.valueIn - tx.ValueOut()
  }

  // The reward claimed by the last coinstake of a block, 0 when there is none.
  function StakeReward(vtx: seq<Tx>): int {
    if vtx == [] then 0
    else
      var tx := vtx[|vtx| - 1];
      if !tx.IsCoinBase() && tx.IsCoinStake() then tx.ValueOut() - tx.valueIn else StakeReward(vtx[..|vtx| - 1])
  }

  // The newly created coins recorded with a block.
  function Mint(b: Block): int { NetOutput(b.vtx) + Fees(b.vtx) }

  predicate WithinReward(b: Block, r: Rewards)
    requires b.vtx != []
  {
    if b.IsProofOfStake() then StakeReward(b.vtx) <= r.proofOfStake(b.vtx[1].id, Fees(b.vtx))
    else b.vtx[0].ValueOut() <= r.proofOfWork(Fees(b.vtx))
  }

  // All values paid out, and all values consumed.
  ghost function PaidOut(vtx: seq<Tx>): int {
    if vtx == [] then 0 else vtx[0].ValueOut() + PaidOut(vtx[1..])
  }

  ghost function Consumed(vtx: seq<Tx>): int {
    if vtx == [] then 0 else vtx[0].valueIn + Consumed(vtx[1..])
  }

  // What the coinstakes pay out beyond what they consume.
  ghost function StakeNet(vtx: seq<Tx>): int {
    if vtx == [] then 0
    else (if vtx[0].IsCoinStake() then vtx[0].ValueOut() - vtx[0].valueIn else 0) + StakeNet(vtx[1..])
  }

  lemma {:induction false} TotalsSnoc(vtx: seq<Tx>, tx: Tx)
    ensures PaidOut(vtx + [tx]) == PaidOut(vtx) + tx.ValueOut()
    ensures Consumed(vtx + [tx]) == Consumed(vtx) + tx.valueIn
    ensures StakeNet(vtx + [tx]) == StakeNet(vtx) + if tx.IsCoinStake() then tx.ValueOut() - tx.valueIn else 0
  {
    var all := vtx + [tx];
    if vtx == [] {
      assert all[1..] == [];
    } else {
      assert all[0] == vtx[0] && all[1..] == vtx[1..] + [tx];
      TotalsSnoc(vtx[1..], tx);
    }
  }

  // The value of a transaction's outputs is that of any front of them and of the rest.
  lemma {:induction false} OutsSplit(outs: seq<TxOut>, k: nat)
    requires k <= |outs|
    ensures SumOuts(outs) == SumOuts(outs[..k]) + SumOuts(outs[k..])
    ensures k < |outs| ==> SumOuts(outs[k..]) == outs[k].value + SumOuts(outs[k + 1..])
  {
    if k > 0 {
      assert outs[..k][1..] == outs[1..][..k - 1] && outs[1..][k - 1..] == outs[k..];
      OutsSplit(outs[1..], k - 1);
    } else {
      assert outs[..0] == [] && outs[0..] == outs;
    }
  }

  // The first transaction is the coinbase: a front of the block has paid out everything so far and
  // consumed what the others name, and apart from fees only coinbase and coinstakes create coins.
  lemma {:induction false} FrontTotals(b: Block, k: nat)
    requires CheckShape(b) && 1 <= k <= |b.vtx|
    ensures NetOutput(b.vtx[..k]) == PaidOut(b.vtx[..k]) - Consumed(b.vtx[1..k])
    ensures NetOutput(b.vtx[..k]) + Fees(b.vtx[..k]) == b.vtx[0].ValueOut() + StakeNet(b.vtx[1..k])
  {
    assert b.vtx[..k][..k - 1] == b.vtx[..k - 1];
    if k == 1 {
      assert b.vtx[..1] == [b.vtx[0]] && b.vtx[1..1] == [] && b.vtx[..1][1..] == [] && b.vtx[..0] == [];
    } else {
      FrontTotals(b, k - 1);
      assert b.vtx[..k] == b.vtx[..k - 1] + [b.vtx[k - 1]] && b.vtx[1..k] == b.vtx[1..k - 1] + [b.vtx[k - 1]];
      TotalsSnoc(b.vtx[..k - 1], b.vtx[k - 1]);
      TotalsSnoc(b.vtx[1..k - 1], b.vtx[k - 1]);
    }
  }

  // A block adds to the money supply what all its transactions pay out less what all but the
  // coinbase consume, and mints what its coinbase pays and its coinstakes gain.
  lemma BlockTotals(b: Block)
    requires CheckShape(b)
    ensures NetOutput(b.vtx) == PaidOut(b.vtx) - Consumed(b.vtx[1..])
    ensures Mint(b) == b.vtx[0].ValueOut() + StakeNet(b.vtx[1..])
  {
    assert b.vtx[..|b.vtx|] == b.vtx && b.vtx[1..|b.vtx|] == b.vtx[1..];
    FrontTotals(b, |b.vtx|);
  }

  lemma {:induction false} NoStakes(vtx: seq<Tx>)
    requires forall i :: 0 <= i < |vtx| ==> !vtx[i].IsCoinStake()
    ensures StakeNet(vtx) == 0
  {
    if vtx != [] {
      NoStakes(vtx[1..]);
    }
  }

  // A block without a coinstake mints exactly what its coinbase pays, and passes the reward check
  // exactly if that is at most the reward.
  lemma WorkMint(b: Block, r: Rewards)
    requires CheckShape(b) && forall i :: 0 <= i < |b.vtx| ==> !b.vtx[i].IsCoinStake()
    ensures Mint(b) == b.vtx[0].ValueOut()
    ensures WithinReward(b, r) <==> Mint(b) <= r.proofOfWork(Fees(b.vtx))
  {
    BlockTotals(b);
    NoStakes(b.vtx[1..]);
  }

  // The transaction loop of `ConnectBlock` with its accumulators and the reward check after it.
  method Account(b: Block, r: Rewards) returns (ok: bool, net: int, mint: int)
    requires CheckShape(b)
    ensures ok <==> WithinReward(b, r)
    ensures net == NetOutput(b.vtx) && mint == Mint(b)
    ensures net == PaidOut(b.vtx) - Consumed(b.vtx[1..])
    ensures mint == b.vtx[0].ValueOut() + StakeNet(b.vtx[1..])
  {
    var fees, valueIn, valueOut, stakeReward := 0, 0, 0, 0;
    for i := 0 to |b.vtx|
      invariant valueOut - valueIn == NetOutput(b.vtx[..i])
      invariant fees == Fees(b.vtx[..i])
      invariant stakeReward == StakeReward(b.vtx[..i])
    {
      var tx := b.vtx[i];
      assert b.vtx[..i + 1][..i] == b.vtx[..i];
      if tx.IsCoinBase() {
        valueOut := valueOut + tx.ValueOut();
      } else {
        valueIn := valueIn + tx.valueIn;
        valueOut := valueOut + tx.ValueOut();
        if !tx.IsCoinStake() {
          fees := fees + tx.valueIn - tx.ValueOut();
        }
        if tx.IsCoinStake() {
          stakeReward := tx.ValueOut() - tx.valueIn;
        }
      }
    }
    assert b.vtx[..|b.vtx|] == b.vtx;
    BlockTotals(b);
    ok := true;
    if !b.IsProofOfStake() {
      if b.vtx[0].ValueOut() > r.proofOfWork(fees) {
        ok := false;
      }
    }
    if b.IsProofOfStake() {
      if stakeReward > r.proofOfStake(b.vtx[1].id, fees) {
        ok := false;
      }
    }
    net := valueOut - valueIn;
    mint := valueOut - valueIn + fees;
  }

  // The transactions after the coinstake move value into fees and mint nothing.
  lemma {:induction false} OrdinaryTail(b: Block, k: nat)
    requires CheckShape(b) && b.IsProofOfStake()
    requires 2 <= k <= |b.vtx|
    ensures NetOutput(b.vtx[..k]) + Fees(b.vtx[..k]) == b.vtx[1].ValueOut() - b.vtx[1].valueIn
    ensures StakeReward(b.vtx[..k]) == b.vtx[1].ValueOut() - b.vtx[1].valueIn
  {
    assert b.vtx[..k][..k - 1] == b.vtx[..k - 1];
    if k == 2 {
      var first := b.vtx[..1];
      assert first == [b.vtx[0]] && first[..0] == [];
      assert b.vtx[0].ValueOut() == b.vtx[0].vout[0].value + SumOuts(b.vtx[0].vout[1..]) == 0;
      assert NetOutput(first) == NetOutput(first[..0]) && Fees(first) == Fees(first[..0]);
    } else {
      OrdinaryTail(b, k - 1);
    }
  }

  // A proof-of-stake block mints exactly the net output of its coinstake, and passes the reward
  // check exactly if that is at most the calculated reward.
  lemma StakeMint(b: Block, r: Rewards)
    requires CheckShape(b) && b.IsProofOfStake()
    ensures Mint(b) == b.vtx[1].ValueOut() - b.vtx[1].valueIn
    ensures WithinReward(b, r) <==> Mint(b) <= r.proofOfStake(b.vtx[1].id, Fees(b.vtx))
  {
    assert b.vtx[..|b.vtx|] == b.vtx;
    OrdinaryTail(b, |b.vtx|);
  }
}
