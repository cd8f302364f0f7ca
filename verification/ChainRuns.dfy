/**
 What holds after every run of block offers, whatever branches, reorganisations and
 refusals it went through.
 */
module ChainRuns {
  import opened BlockTree
  import opened Transactions
  import opened ChainState

  // A database that holds the genesis block only.
  ghost predicate Initial(s: State) {
    && s.genesis != 0
    && s.tree.Keys == {s.genesis} == s.blocks.Keys
    && s.tree[s.genesis].prev == 0 && s.tree[s.genesis].height == 0
    && s.blocks[s.genesis].hashPrev == 0
    && s.meta == map[]
    && s.tip == s.genesis
  }

  function GenesisState(hash: Hash, block: Block, trust: nat, head: Header): State {
    State(hash, map[hash := Node(0, 0, trust, head)], map[hash := block], map[], hash)
  }

  lemma InitialInv(hash: Hash, block: Block, trust: nat, head: Header)
    requires hash != 0 && block.hashPrev == 0
    ensures Initial(GenesisState(hash, block, trust, head)) && Inv(GenesisState(hash, block, trust, head))
  {
  }

  // Every offer is made for a block whose predecessor is indexed by then.
  ghost predicate Playable(s: State, rs: seq<Request>)
    requires Inv(s)
    decreases |rs|
  {
    rs == [] || (Offered(s, rs[0]) && Playable(Step(s, rs[0]).0, rs[1..]))
  }

  ghost function Run(s: State, rs: seq<Request>): (s': State)
    requires Inv(s) && Playable(s, rs)
    ensures Inv(s')
    decreases |rs|
  {
    if rs == [] then s else Run(Step(s, rs[0]).0, rs[1..])
  }

  // ---------- the links ----------

  // A block is in the main chain exactly when it is the best block or one of its ancestors, and
  // the height map lists exactly those, each at its height, and nothing above.
  ghost predicate LinksMainChain(db: Db, s: State)
    requires Inv(s)
  {
    && db.best == s.tip && db.index.Keys == s.tree.Keys
    && (forall h :: h in s.tree ==> (IsInMainChain(db.index[h], db.best) <==> IsAncestor(s.tree, s.genesis, h, s.tip)))
    && (forall i :: i in db.heights <==> 0 <= i <= s.tree[s.tip].height)
    && (forall h :: h in s.tree ==> (IsAncestor(s.tree, s.genesis, h, s.tip) <==> ListedAt(db, s.tree[h].height, h)))
  }

  ghost predicate ListedAt(db: Db, height: nat, h: Hash) { height in db.heights && db.heights[height] == h }

  lemma StoredMainChain(db: Db, s: State)
    requires Stores(db, s)
    ensures Inv(s) && LinksMainChain(db, s)
  {
    hide Inv, NextOn, IsAncestor;
    InvTree(s);
    forall h | h in s.tree
      ensures IsInMainChain(db.index[h], db.best) <==> IsAncestor(s.tree, s.genesis, h, s.tip)
      ensures IsAncestor(s.tree, s.genesis, h, s.tip) <==> ListedAt(db, s.tree[h].height, h)
    {
      InMainChainIffAncestor(s.tree, s.genesis, s.tip, h);
      StoredHeight(db, s, h);
    }
  }

  lemma StoredHeight(db: Db, s: State, h: Hash)
    requires Stores(db, s) && h in s.tree
    ensures WellFormed(s.tree, s.genesis) && s.tip in s.tree
    ensures IsAncestor(s.tree, s.genesis, h, s.tip) <==> ListedAt(db, s.tree[h].height, h)
  {
    if IsAncestor(s.tree, s.genesis, h, s.tip) {
      AncestorAtHeight(s.tree, s.genesis, h, s.tip);
    }
  }

  // ---------- trust ----------

  // An offer that changes the best block strictly raises the trust of the best chain, also
  // when a postponed block fails and the switch stops early.
  lemma TrustRises(s: State, r: Request)
    requires Inv(s) && Offered(s, r)
    ensures var s' := Step(s, r).0;
            && (forall h :: h in s.tree ==> h in s'.tree && s'.tree[h] == s.tree[h])
            && (s'.tip != s.tip ==> s'.tree[s'.tip].trust > s.tree[s.tip].trust)
  {
    hide Inv, Switched, CanSwitch;
    InvTree(s);
  }

  // Whatever happens in between, the best block of a later moment of a run is the same block or
  // a strictly more trusted one; so a best block that was left never becomes best again.
  lemma {:induction false} TrustRisesInRun(s: State, rs: seq<Request>)
    requires Inv(s) && Playable(s, rs)
    ensures var s' := Run(s, rs);
            && (forall h :: h in s.tree ==> h in s'.tree && s'.tree[h] == s.tree[h])
            && (s'.tip != s.tip ==> s'.tree[s'.tip].trust > s.tree[s.tip].trust)
    decreases |rs|
  {
    hide Inv, Step;
    InvTree(s);
    if rs != [] {
      TrustRises(s, rs[0]);
      InvTree(Step(s, rs[0]).0);
      TrustRisesInRun(Step(s, rs[0]).0, rs[1..]);
    }
  }

  // The best block is a most trusted one of all indexed blocks.
  ghost predicate Heaviest(s: State)
    requires Inv(s)
  {
    forall h :: h in s.tree ==> s.tree[h].trust <= s.tree[s.tip].trust
  }

  // While it is, only the offered block itself can become best: no block is ever postponed.
  lemma StepHeaviest(s: State, r: Request)
    requires Inv(s) && Offered(s, r) && Heaviest(s)
    ensures Heaviest(Step(s, r).0)
    ensures Step(s, r).0.tip == s.tip || (Step(s, r).0.tip == r.hash && r.hash !in s.tree)
    ensures StartsSwitch(s, r) ==> Pivot(Indexed(s, r), r.hash) == |NewPath(Indexed(s, r), r.hash)| - 1
  {
    hide Inv, CanSwitch, NewPath, Fork, Moved;
    InvTree(s);
    if r.hash !in s.tree && r.accepted && StartsSwitch(s, r) {
      var s1 := Indexed(s, r);
      InvTree(s1);
      NewPathStep(s1, r.hash, |NewPath(s1, r.hash)| - 1);
      ForkBelowPivot(s1, r.hash);
      ParentIndexed(s1, r.hash);
    }
  }

  lemma ParentIndexed(s: State, h: Hash)
    requires Inv(s) && h in s.tree
    ensures s.tree[h].height > 0 ==> s.tree[h].prev in s.tree && s.tree[h].prev != h
  {
    assert h != s.genesis ==> LinkedBack(s.tree, h);
  }

  // After every run from the genesis block, the best block is a most trusted one of all the
  // blocks that were ever indexed.
  lemma {:induction false} HeaviestAfterRun(s: State, rs: seq<Request>)
    requires Inv(s) && Playable(s, rs) && (Initial(s) || Heaviest(s))
    ensures Heaviest(Run(s, rs))
    decreases |rs|
  {
    hide Inv, Step;
    if rs != [] {
      StepHeaviest(s, rs[0]);
      HeaviestAfterRun(Step(s, rs[0]).0, rs[1..]);
    }
  }

  // ---------- connected blocks ----------

  // `h` was connected after its predecessor, by an offer whose rules it meets.
  ghost predicate Connected(s: State, h: Hash, rules: Rules)
    requires Inv(s)
  {
    && h in s.tree && h != s.genesis
    && (s.tree[h].prev == s.genesis || s.tree[h].prev in s.meta)
    && Connectable(s, h, rules)
  }

  lemma {:induction false} ConnectAllMeta(s: State, hs: seq<Hash>)
    requires Inv(s) && Continues(s, hs)
    ensures forall h :: h in ConnectAll(s, hs).meta <==> h in s.meta || h in hs
    decreases |hs|
  {
    hide Inv;
    if hs != [] {
      ConnectAllMeta(s, hs[..|hs| - 1]);
      assert hs == hs[..|hs| - 1] + [hs[|hs| - 1]];
    }
  }

  // A block in the main chain is the genesis block or recorded.
  lemma MainChainRecorded(s: State, h: Hash)
    requires Inv(s) && IsAncestor(s.tree, s.genesis, h, s.tip)
    ensures h == s.genesis || h in s.meta
  {
    AncestorAtHeight(s.tree, s.genesis, h, s.tip);
  }

  lemma MovedMeta(s: State, cand: Hash, hi: nat, h: Hash)
    requires Inv(s) && cand in s.tree && Fork(s, cand) <= hi <= |NewPath(s, cand)|
    ensures h in Moved(s, cand, hi).meta <==>
              h in s.meta || exists j :: Fork(s, cand) <= j < hi && NewPath(s, cand)[j] == h
  {
    hide Inv, Fork, NewPath, ForkBlock, ConnectAll, Continues;
    CanMove(s, cand, hi);
    var c, p := Fork(s, cand), NewPath(s, cand);
    ConnectAllMeta(Rewind(s, ForkBlock(s, cand)), p[c..hi]);
    if h in p[c..hi] {
      var i :| 0 <= i < hi - c && p[c..hi][i] == h;
      assert p[c + i] == h;
    }
    forall j | c <= j < hi && p[j] == h ensures h in p[c..hi] {
      assert p[c..hi][j - c] == h;
    }
  }

  lemma SwitchedMeta(s: State, cand: Hash, rules: Rules, h: Hash)
    requires Inv(s) && cand in s.tree && s.tree[cand].trust > s.tree[s.tip].trust && CanSwitch(s, cand, rules)
    ensures h in s.meta ==> h in Switched(s, cand, rules).meta
    ensures h in Switched(s, cand, rules).meta && h !in s.meta ==> Connected(Switched(s, cand, rules), h, rules)
  {
    hide Inv, Fork, NewPath, ForkBlock, Connectable, Moved, Pivot, Advance, IsAncestor;
    ForkBelowPivot(s, cand);
    var s', c, p := Switched(s, cand, rules), Fork(s, cand), NewPath(s, cand);
    var m := Advance(s, p, Pivot(s, cand), rules);
    MovedMeta(s, cand, m + 1, h);
    if h in s'.meta && h !in s.meta {
      var j :| c <= j < m + 1 && p[j] == h;
      assert Connectable(s, h, rules);
      ConnectableSame(s, s', h, rules);
      NewPathStep(s, cand, j);
      MovedMeta(s, cand, m + 1, p[j - 1]);
      LinkOnPath(s, cand, j);
      if j == c {
        MainChainRecorded(s, ForkBlock(s, cand));
      }
    }
  }

  // Every block recorded after a run was connected after its predecessor, by an offer of the run
  // that accepts it; its recorded money supply is the sum along its own path, whatever
  // reorganisations happened since.
  ghost predicate History(s: State, rs: seq<Request>)
    requires Inv(s)
  {
    forall h :: h in s.meta ==> exists i :: 0 <= i < |rs| && Connected(s, h, rs[i].rules)
  }

  lemma StepConnected(s: State, r: Request, h: Hash)
    requires Inv(s) && Offered(s, r) && h in Step(s, r).0.meta
    ensures h in s.meta || Connected(Step(s, r).0, h, r.rules)
  {
    hide Inv, Switched, CanSwitch, Connected;
    if r.hash !in s.tree && r.accepted && StartsSwitch(s, r) && CanSwitch(Indexed(s, r), r.hash, r.rules) {
      SwitchedMeta(Indexed(s, r), r.hash, r.rules, h);
    }
  }

  lemma StaysConnected(s: State, r: Request, h: Hash, rules: Rules)
    requires Inv(s) && Offered(s, r) && Connected(s, h, rules)
    ensures Connected(Step(s, r).0, h, rules)
  {
    hide Inv, Switched, CanSwitch, Connectable, WithinReward, CheckShape;
    InvTree(s);
    TrustRises(s, r);
    InvTree(Step(s, r).0);
    if s.tree[h].prev in s.meta && StartsSwitch(s, r) && CanSwitch(Indexed(s, r), r.hash, r.rules) {
      SwitchedMeta(Indexed(s, r), r.hash, r.rules, s.tree[h].prev);
    }
    StepBlocks(s, r, h, rules);
  }

  lemma StepBlocks(s: State, r: Request, h: Hash, rules: Rules)
    requires Inv(s) && Offered(s, r) && h in s.tree && h in s.blocks
    ensures h in Step(s, r).0.blocks && Connectable(Step(s, r).0, h, rules) == Connectable(s, h, rules)
    ensures Step(s, r).0.genesis == s.genesis
  {
    hide Inv, Switched, CanSwitch, WithinReward, CheckShape;
  }

  lemma {:induction false} HistoryGrows(s: State, done: seq<Request>, rs: seq<Request>)
    requires Inv(s) && Playable(s, rs) && History(s, done)
    ensures History(Run(s, rs), done + rs)
    decreases |rs|
  {
    hide Inv, Step, Connected;
    if rs == [] {
      assert done + rs == done;
    } else {
      var s', next := Step(s, rs[0]).0, done + [rs[0]];
      forall h | h in s'.meta ensures exists i :: 0 <= i < |next| && Connected(s', h, next[i].rules) {
        StepConnected(s, rs[0], h);
        if h in s.meta {
          var i :| 0 <= i < |done| && Connected(s, h, done[i].rules);
          StaysConnected(s, rs[0], h, done[i].rules);
          assert next[i] == done[i];
        } else {
          assert next[|done|] == rs[0];
        }
      }
      HistoryGrows(s', next, rs[1..]);
      assert next + rs[1..] == done + rs;
    }
  }

  // What is recorded with `h`: the supply of its predecessor and what its transactions pay out beyond
  // what they consume; the coins that its coinbase and its coinstakes create.
  ghost predicate RecordOf(s: State, h: Hash)
    requires Inv(s)
  {
    && h in s.tree && h in s.blocks && h in s.meta && h != s.genesis && s.blocks[h].vtx != []
    && (s.tree[h].prev == s.genesis || s.tree[h].prev in s.meta)
    && (var before := if s.tree[h].prev == s.genesis then 0 else s.meta[s.tree[h].prev].moneySupply;
        var vtx := s.blocks[h].vtx;
        && s.meta[h].moneySupply == before + PaidOut(vtx) - Consumed(vtx[1..])
        && s.meta[h].mint == vtx[0].ValueOut() + StakeNet(vtx[1..]))
  }

  // No more is minted than the reward: by the coinstake of a proof-of-stake block, or by the coinbase.
  ghost predicate Rewarded(b: Block, mint: int, r: Rewards) {
    && b.vtx != []
    && (b.IsProofOfStake() ==>
          && mint == b.vtx[1].ValueOut() - b.vtx[1].valueIn
          && mint <= r.proofOfStake(b.vtx[1].id, Fees(b.vtx)))
    && (!b.IsProofOfStake() ==> b.vtx[0].ValueOut() <= r.proofOfWork(Fees(b.vtx)))
    && ((forall i :: 0 <= i < |b.vtx| ==> !b.vtx[i].IsCoinStake()) ==>
          mint == b.vtx[0].ValueOut() <= r.proofOfWork(Fees(b.vtx)))
  }

  lemma PassedIsRewarded(b: Block, r: Rewards)
    requires CheckShape(b) && WithinReward(b, r)
    ensures Rewarded(b, Mint(b), r)
  {
    hide Mint, Fees, CheckShape;
    assert b.vtx != [] by { ShapeHasCoinbase(b); }
    if b.IsProofOfStake() {
      StakeMint(b, r);
    } else if forall i :: 0 <= i < |b.vtx| ==> !b.vtx[i].IsCoinStake() {
      WorkMint(b, r);
    }
  }

  lemma ShapeHasCoinbase(b: Block)
    requires CheckShape(b)
    ensures b.vtx != []
  {
  }

  lemma RecordIs(s: State, h: Hash)
    requires Inv(s) && h in s.meta && h in s.tree && h != s.genesis && h in s.blocks && CheckShape(s.blocks[h])
    requires s.tree[h].prev == s.genesis || s.tree[h].prev in s.meta
    ensures s.meta[h].mint == Mint(s.blocks[h]) && RecordOf(s, h)
  {
    hide Mint, NetOutput, Path;
    InvTree(s);
    ShapeHasCoinbase(s.blocks[h]);
    BlockTotals(s.blocks[h]);
    assert LinkedBack(s.tree, h);
    assert Supply(s, h) == Supply(s, s.tree[h].prev) + NetOutput(s.blocks[h].vtx);
    assert Supply(s, s.genesis) == 0;
    assert Recorded(s, h);
    assert s.tree[h].prev in s.meta ==> Recorded(s, s.tree[h].prev);
  }

  lemma RecordedAfterRun(s: State, rs: seq<Request>, h: Hash)
    requires Initial(s) && Inv(s) && Playable(s, rs) && h in Run(s, rs).meta
    ensures var e := Run(s, rs);
            && RecordOf(e, h) && e.meta[h].moneySupply == Supply(e, h)
            && exists i :: 0 <= i < |rs| && Connectable(e, h, rs[i].rules)
                        && Rewarded(e.blocks[h], e.meta[h].mint, rs[i].rules.rewards)
  {
    hide Playable, Run, Supply, Mint, Fees, RecordOf, Rewarded;
    HistoryGrows(s, [], rs);
    assert [] + rs == rs;
    var e := Run(s, rs);
    assert Recorded(e, h);
    var i :| 0 <= i < |rs| && Connected(e, h, rs[i].rules);
    RecordIs(e, h);
    PassedIsRewarded(e.blocks[h], rs[i].rules.rewards);
  }

  // ---------- the in-memory genesis entry ----------

  // A refused offer that had already moved the main chain off the genesis block.
  ghost predicate RefusedAtGenesis(s: State, r: Request)
    requires Inv(s) && Offered(s, r)
  {
    StartsSwitch(s, r) &&
    var s1 := Indexed(s, r);
    && !CanSwitch(s1, r.hash, r.rules)
    && ForkBlock(s1, r.hash) == s.genesis
    && (s.tip != s.genesis || (|NewPath(s1, r.hash)| > 1 && Connectable(s1, NewPath(s1, r.hash)[1], r.rules)))
  }

  // The copy of the genesis entry kept in memory still agrees with the database after an offer,
  // unless the offer was refused after it had already left the genesis block: the database
  // transaction is undone then, and the copy is not.
  lemma GenesisCopyAgrees(s: State, r: Request)
    requires Inv(s) && Offered(s, r)
    ensures var s' := Step(s, r).0;
            GenesisLinkAfter(s, r, GenesisLink(s, s.tip)) == GenesisLink(s', s'.tip) <==> !RefusedAtGenesis(s, r)
  {
    hide Inv, Switched, CanSwitch, ForkBlock, Stopped, NewPath, GenesisLink, Connectable, Path, WellFormed, NextOn;
    if r.hash !in s.tree && r.accepted {
      var s1 := Indexed(s, r);
      SameGenesisLink(s, r);
      if StartsSwitch(s, r) {
        InvTree(s1);
        LinkOf(s1, s.tip);
        ForkAtGenesis(s1, r.hash);
        if CanSwitch(s1, r.hash, r.rules) {
          SwitchedTip(s1, r.hash, r.rules);
          LinkKept(s1, Switched(s1, r.hash, r.rules));
        } else if Fork(s1, r.hash) == 1 {
          StoppedTip(s1, r.hash, r.rules);
        }
      }
    }
  }

  lemma SameGenesisLink(s: State, r: Request)
    requires Inv(s) && Offered(s, r) && r.hash !in s.tree
    ensures GenesisLink(Indexed(s, r), s.tip) == GenesisLink(s, s.tip)
  {
    hide Inv, NextOn;
    InvTree(s);
    InvTree(Indexed(s, r));
    NextExtended(s.tree, Indexed(s, r).tree, s.genesis, s.tip, r.hash, s.genesis);
  }

  // The link out of the genesis block depends on the tree and the tip only.
  lemma LinkKept(s: State, s': State)
    requires Inv(s) && Inv(s') && s'.tree == s.tree && s'.genesis == s.genesis
    ensures GenesisLink(s', s'.tip) == GenesisLink(s, s'.tip)
  {
    hide Inv, NextOn;
    InvTree(s');
  }

  lemma LinkOf(s: State, h: Hash)
    requires Inv(s) && h in s.tree
    ensures GenesisLink(s, h) == if h == s.genesis then 0 else Path(s.tree, s.genesis, h)[1]
    ensures h != s.genesis ==> GenesisLink(s, h) != 0
  {
    var p := Path(s.tree, s.genesis, h);
    if h != s.genesis {
      assert LinkedBack(s.tree, h);
      assert p[0] == s.genesis && p[1] in s.tree;
    }
  }

  lemma ForkAtGenesis(s: State, cand: Hash)
    requires Inv(s) && cand in s.tree
    ensures ForkBlock(s, cand) == s.genesis <==> Fork(s, cand) == 1
    ensures Fork(s, cand) > 1 ==> s.tip != s.genesis && NewPath(s, cand)[1] == Path(s.tree, s.genesis, s.tip)[1]
    ensures Fork(s, cand) == 1 && s.tip != s.genesis && |NewPath(s, cand)| > 1 ==>
              |Path(s.tree, s.genesis, s.tip)| > 1 && NewPath(s, cand)[1] != Path(s.tree, s.genesis, s.tip)[1]
  {
    hide Path, WellFormed, Inv;
    InvTree(s);
    NullNotIndexed(s);
    var p, q, c := NewPath(s, cand), Path(s.tree, s.genesis, s.tip), Fork(s, cand);
    assert s.tree[ForkBlock(s, cand)].height == c - 1;
    assert p[0] == s.genesis == q[0];
    if c > 1 {
      assert p[1] == p[..c][1] == q[..c][1] == q[1];
    }
    assert |q| == 1 ==> q[0] == s.tip;
  }

  lemma SwitchedTip(s: State, cand: Hash, rules: Rules)
    requires Inv(s) && cand in s.tree && s.tree[cand].trust > s.tree[s.tip].trust
    ensures |NewPath(s, cand)| > 1 && Switched(s, cand, rules).tip != s.genesis
    ensures GenesisLink(s, Switched(s, cand, rules).tip) == NewPath(s, cand)[1]
  {
    hide Inv, NewPath, Fork, Pivot, Moved, Advance, NextOn, Path;
    ForkBelowPivot(s, cand);
    LinkOnPath(s, cand, Advance(s, NewPath(s, cand), Pivot(s, cand), rules));
  }

  lemma StoppedTip(s: State, cand: Hash, rules: Rules)
    requires Inv(s) && cand in s.tree && s.tree[cand].trust > s.tree[s.tip].trust && Fork(s, cand) == 1
    ensures |NewPath(s, cand)| > 1
    ensures Stopped(s, cand, rules) == s.genesis <==> !Connectable(s, NewPath(s, cand)[1], rules)
    ensures GenesisLink(s, Stopped(s, cand, rules)) ==
              if Connectable(s, NewPath(s, cand)[1], rules) then NewPath(s, cand)[1] else 0
    ensures NewPath(s, cand)[1] != 0
  {
    hide Inv, Connectable, NextOn, Path, WellFormed;
    ForkBelowPivot(s, cand);
    InvTree(s);
    NullNotIndexed(s);
    var p := NewPath(s, cand);
    assert p[0] == s.genesis;
    var m := Advance(s, p, 0, rules);
    if m > 0 {
      LinkOnPath(s, cand, m);
      assert Connectable(s, p[1], rules);
    } else {
      TipLink(s.tree, s.genesis, s.genesis);
    }
  }

  // Such an offer exists: a first block is connected to the genesis block, and then an invalid
  // heavier sibling of it arrives.
  lemma GenesisCopyCanGoStale(head: Header) returns (s0: State, first: Request, sibling: Request)
    ensures Initial(s0) && Inv(s0) && Playable(s0, [first]) && Playable(s0, [first, sibling])
    ensures Offered(Run(s0, [first]), sibling) && RefusedAtGenesis(Run(s0, [first]), sibling)
  {
    hide Inv, Supply, Connectable, Indexed, Path, WellFormed, Pivot, ForkLength, Step;
    s0, first := FirstBlock(head);
    var s := Run(s0, [first]);
    sibling := Request(3, Block(1, [Coinbase()]), 5, head, true, Rules(_ => false, Rewards(_ => 0, (_, _) => 0)));
    OfferTwo(s0, first, sibling);
    var s1 := Indexed(s, sibling);
    IndexedNode(s, sibling);
    InvTree(s1);
    SiblingPaths(s1);
    ForkBelowPivot(s1, 3);
    NotConnectable(s1, 3, sibling.rules);
  }

  lemma OfferTwo(s: State, a: Request, b: Request)
    requires Inv(s) && Playable(s, [a]) && Offered(Run(s, [a]), b)
    ensures Playable(s, [a, b])
  {
    hide Inv, Step;
    assert [a][1..] == [] && [a, b][1..] == [b] && [b][1..] == [];
    var s1 := Step(s, a).0;
    assert Run(s1, []) == s1 && Playable(Step(s1, b).0, []);
    assert Playable(s1, [b]);
  }

  lemma IndexedNode(s: State, r: Request)
    requires Inv(s) && Offered(s, r) && r.hash !in s.tree
    ensures Indexed(s, r).tree[r.hash] == Node(r.block.hashPrev, s.tree[r.block.hashPrev].height + 1,
                                               s.tree[r.block.hashPrev].trust + r.blockTrust, r.head)
  {
    hide Inv;
  }

  lemma SiblingPaths(s: State)
    requires Inv(s) && s.genesis == 1 && s.tip == 2 && s.tree.Keys == {1, 2, 3}
    requires s.tree[2].prev == 1 && s.tree[3].prev == 1
    ensures NewPath(s, 3) == [1, 3] && Fork(s, 3) == 1 && ForkBlock(s, 3) == 1
  {
    hide Supply;
    assert LinkedBack(s.tree, 3) && LinkedBack(s.tree, 2);
    assert Path(s.tree, 1, 3) == [1, 3] && Path(s.tree, 1, 2) == [1, 2];
  }

  lemma NotConnectable(s: State, h: Hash, rules: Rules)
    requires h in s.blocks && !rules.valid(h)
    ensures !Connectable(s, h, rules)
  {
  }

  function Coinbase(): Tx { Tx(10, [OutPoint(0, NULL_INDEX)], [TxOut(0, false)], 0) }

  // A genesis block, and the offer of a block with a coinbase on top of it, which connects.
  lemma FirstBlock(head: Header) returns (s0: State, first: Request)
    ensures Initial(s0) && Inv(s0) && Playable(s0, [first])
    ensures var s := Run(s0, [first]);
            s.genesis == 1 && s.tip == 2 && s.tree == map[1 := Node(0, 0, 1, head), 2 := Node(1, 1, 2, head)]
  {
    hide Inv, Supply, Indexed, Path, WellFormed, Pivot, ForkLength, Switched, CanSwitch, Connectable;
    s0 := GenesisState(1, Block(0, []), 1, head);
    InitialInv(1, Block(0, []), 1, head);
    first := Request(2, Block(1, [Coinbase()]), 1, head, true, Rules(_ => true, Rewards(_ => 0, (_, _) => 0)));
    var s1 := Indexed(s0, first);
    IndexedNode(s0, first);
    FirstConnects(s1, first.rules);
    ExtensionSwitch(s1, 2, first.rules);
    assert [first][1..] == [];
    assert Run(s0, [first]) == Step(s0, first).0 == Switched(s1, 2, first.rules);
  }

  lemma FirstConnects(s: State, rules: Rules)
    requires 2 in s.blocks && s.blocks[2] == Block(1, [Coinbase()]) && rules.valid(2)
    requires rules.rewards.proofOfWork(0) == 0
    ensures Connectable(s, 2, rules)
  {
    var b := s.blocks[2];
    assert b.vtx[..0] == [] && Fees([]) == 0 && Fees(b.vtx) == 0;
    assert SumOuts([]) == 0;
  }
}
