/**
 The chain database as a value.

 All mutable link data of the database (the `hashNext` links, the height map and the best
 hash) is determined by the block tree and the tip; `RenderIndex` and `RenderHeights` say
 how.  The functions on `State` specify the operations of `BestChain`.
 */
module ChainState {
  import opened BlockTree
  import opened Transactions

  // An entry of the block index: `hashNext` is 0 unless the block has a successor in the main chain.
  datatype Index = Index(blockHash: Hash, hashNext: Hash, node: Node)

  datatype Metadata = Metadata(moneySupply: int, mint: int)

  // `valid` is the oracle for everything `ConnectBlock` checks before its first write other
  // than the rules spelled out in `Transactions`.
  datatype Rules = Rules(valid: Hash -> bool, rewards: Rewards)

  datatype State = State(genesis: Hash, tree: Tree, blocks: map<Hash, Block>, meta: map<Hash, Metadata>, tip: Hash)

  // ---------- rendering ----------

  // The `hashNext` link of `h` when the main chain ends in `tip`.
  function NextOn(t: Tree, genesis: Hash, tip: Hash, h: Hash): (n: Hash)
    requires WellFormed(t, genesis) && tip in t && h in t
  {
    var p := Path(t, genesis, tip);
    if h in p && t[h].height + 1 < |p| then p[t[h].height + 1] else 0
  }

  function RenderIndex(t: Tree, genesis: Hash, tip: Hash): (m: map<Hash, Index>)
    requires WellFormed(t, genesis) && tip in t
  {
    map h | h in t :: Index(h, NextOn(t, genesis, tip, h), t[h])
  }

  function RenderHeights(t: Tree, genesis: Hash, tip: Hash): map<nat, Hash>
    requires WellFormed(t, genesis) && tip in t
  {
    var p := Path(t, genesis, tip);
    map i: nat | i < |p| :: p[i]
  }

  // `CBlockIndex::IsInMainChain`
  predicate IsInMainChain(i: Index, best: Hash) { i.hashNext != 0 || i.blockHash == best }

  // A block is in the main chain exactly when it is the tip or one of its ancestors.
  lemma InMainChainIffAncestor(t: Tree, genesis: Hash, tip: Hash, h: Hash)
    requires WellFormed(t, genesis) && tip in t && h in t
    ensures IsInMainChain(RenderIndex(t, genesis, tip)[h], tip) <==> IsAncestor(t, genesis, h, tip)
  {
    var p := Path(t, genesis, tip);
    if h in p {
      AncestorAtHeight(t, genesis, h, tip);
      if t[h].height + 1 < |p| {
        assert p[t[h].height + 1] in t;
      }
    }
  }

  lemma NextStep(t: Tree, genesis: Hash, h: Hash, x: Hash)
    requires WellFormed(t, genesis) && h in t && h != genesis && x in t
    ensures t[h].prev in t
    ensures NextOn(t, genesis, h, x) == if x == t[h].prev then h else NextOn(t, genesis, t[h].prev, x)
    ensures x == t[h].prev || x == h ==> NextOn(t, genesis, t[h].prev, x) == 0
  {
    OneStep(t, genesis, h);
    if x in Path(t, genesis, t[h].prev) {
      AncestorAtHeight(t, genesis, x, t[h].prev);
    }
  }

  lemma TipLink(t: Tree, genesis: Hash, h: Hash)
    requires WellFormed(t, genesis) && h in t
    ensures NextOn(t, genesis, h, h) == 0
  {
  }

  // Moving the tip from `h.prev` up to `h` changes one link ...
  lemma RenderIndexUp(t: Tree, genesis: Hash, h: Hash)
    requires WellFormed(t, genesis) && h in t && h != genesis
    ensures t[h].prev in t
    ensures RenderIndex(t, genesis, h) ==
              RenderIndex(t, genesis, t[h].prev)[t[h].prev := Index(t[h].prev, h, t[t[h].prev])]
  {
    OneStep(t, genesis, h);
    hide NextOn, Path;
    var low, high := RenderIndex(t, genesis, t[h].prev), RenderIndex(t, genesis, h);
    forall x | x in t ensures high[x] == if x == t[h].prev then Index(x, h, t[x]) else low[x] {
      NextStep(t, genesis, h, x);
    }
  }

  // ... which is cleared on the way down ...
  lemma RenderIndexDown(t: Tree, genesis: Hash, h: Hash)
    requires WellFormed(t, genesis) && h in t && h != genesis
    ensures t[h].prev in t
    ensures RenderIndex(t, genesis, t[h].prev) ==
              RenderIndex(t, genesis, h)[t[h].prev := Index(t[h].prev, 0, t[t[h].prev])]
  {
    OneStep(t, genesis, h);
    hide NextOn, Path;
    var low, high := RenderIndex(t, genesis, t[h].prev), RenderIndex(t, genesis, h);
    forall x | x in t ensures low[x] == if x == t[h].prev then Index(x, 0, t[x]) else high[x] {
      NextStep(t, genesis, h, x);
    }
  }

  // ... and one height.
  lemma RenderHeightsStep(t: Tree, genesis: Hash, h: Hash)
    requires WellFormed(t, genesis) && h in t && h != genesis
    ensures t[h].prev in t
    ensures RenderHeights(t, genesis, h) == RenderHeights(t, genesis, t[h].prev)[t[h].height := h]
    ensures RenderHeights(t, genesis, t[h].prev) == RenderHeights(t, genesis, h) - {t[h].height}
  {
    OneStep(t, genesis, h);
  }

  // Indexing a new block `h` changes no link ...
  lemma NextExtended(t: Tree, t': Tree, genesis: Hash, tip: Hash, h: Hash, x: Hash)
    requires WellFormed(t, genesis) && tip in t && h !in t
    requires WellFormed(t', genesis) && h in t' && t' == t[h := t'[h]]
    requires x in t'
    ensures NextOn(t', genesis, tip, x) == if x == h then 0 else NextOn(t, genesis, tip, x)
  {
    PathExtended(t, t', genesis, tip);
  }

  // ... and so nothing in the rendering of the tip.
  lemma RenderIndexExtended(t: Tree, t': Tree, genesis: Hash, tip: Hash, h: Hash)
    requires WellFormed(t, genesis) && tip in t && h !in t
    requires WellFormed(t', genesis) && h in t' && t' == t[h := t'[h]]
    ensures RenderIndex(t', genesis, tip) == RenderIndex(t, genesis, tip)[h := Index(h, 0, t'[h])]
  {
    hide NextOn, Path;
    var low, high := RenderIndex(t, genesis, tip), RenderIndex(t', genesis, tip);
    forall x | x in t' ensures high[x] == if x == h then Index(h, 0, t'[h]) else low[x] {
      NextExtended(t, t', genesis, tip, h, x);
    }
  }

  lemma RenderHeightsExtended(t: Tree, t': Tree, genesis: Hash, tip: Hash)
    requires WellFormed(t, genesis) && tip in t
    requires WellFormed(t', genesis) && forall x :: x in t ==> x in t' && t'[x] == t[x]
    ensures RenderHeights(t', genesis, tip) == RenderHeights(t, genesis, tip)
  {
    PathExtended(t, t', genesis, tip);
  }

  // ---------- money supply ----------

  // The sum of value out less value in along the path of `h`, from height 1 on.
  function Supply(s: State, h: Hash): int
    requires WellFormed(s.tree, s.genesis) && h in s.tree
    requires s.tree.Keys <= s.blocks.Keys
    decreases s.tree[h].height
  {
    if h == s.genesis then 0
    else assert LinkedBack(s.tree, h); Supply(s, s.tree[h].prev) + NetOutput(s.blocks[h].vtx)
  }

  lemma {:induction false} SupplyExtended(s: State, s': State, h: Hash)
    requires WellFormed(s.tree, s.genesis) && h in s.tree && s.tree.Keys <= s.blocks.Keys
    requires WellFormed(s'.tree, s'.genesis) && s'.tree.Keys <= s'.blocks.Keys && s.genesis == s'.genesis
    requires forall x :: x in s.tree ==> x in s'.tree && s'.tree[x] == s.tree[x] && s'.blocks[x] == s.blocks[x]
    ensures Supply(s', h) == Supply(s, h)
    decreases s.tree[h].height
  {
    if h != s.genesis {
      assert LinkedBack(s.tree, h);
      SupplyExtended(s, s', s.tree[h].prev);
    }
  }

  // ---------- the state invariant ----------

  ghost predicate Inv(s: State) {
    && WellFormed(s.tree, s.genesis)
    && s.tip in s.tree
    && s.tree.Keys == s.blocks.Keys
    && (forall h :: h in s.tree ==> s.blocks[h].hashPrev == s.tree[h].prev)
    && (forall h :: h in s.meta ==> Recorded(s, h))
    && (forall i :: 1 <= i < |Path(s.tree, s.genesis, s.tip)| ==> Path(s.tree, s.genesis, s.tip)[i] in s.meta)
  }

  lemma InvTree(s: State)
    requires Inv(s)
    ensures WellFormed(s.tree, s.genesis) && s.tip in s.tree && s.tree.Keys == s.blocks.Keys
  {
  }

  // The metadata of `h` holds the money supply along the path of `h` and what `h` minted.
  ghost predicate Recorded(s: State, h: Hash)
    requires WellFormed(s.tree, s.genesis) && s.tree.Keys <= s.blocks.Keys && h in s.meta
  {
    && h in s.tree
    && s.meta[h] == Metadata(Supply(s, h), Mint(s.blocks[h]))
  }

  // ---------- connecting ----------

  predicate Connectable(s: State, h: Hash, rules: Rules)
    requires h in s.blocks
  {
    rules.valid(h) && CheckShape(s.blocks[h]) && WithinReward(s.blocks[h], rules.rewards)
  }

  lemma ConnectableSame(s: State, s': State, h: Hash, rules: Rules)
    requires h in s.blocks && s.blocks == s'.blocks
    ensures Connectable(s, h, rules) == Connectable(s', h, rules)
  {
  }

  ghost function Connect(s: State, h: Hash): (s': State)
    requires Inv(s) && h in s.tree
  {
    s.(tip := h, meta := s.meta[h := Metadata(Supply(s, h), Mint(s.blocks[h]))])
  }

  lemma ConnectKeepsInv(s: State, h: Hash)
    requires Inv(s) && h in s.tree && s.tree[h].prev == s.tip
    ensures Inv(Connect(s, h))
  {
    var s' := Connect(s, h);
    assert h != s.genesis;
    OneStep(s.tree, s.genesis, h);
    forall x | x in s.tree ensures Supply(s', x) == Supply(s, x) {
      SupplyExtended(s, s', x);
    }
    forall x | x in s'.meta ensures Recorded(s', x) {
      assert x != h ==> Recorded(s, x);
    }
  }

  // Disconnecting the tip keeps its metadata.
  ghost function Rewind(s: State, h: Hash): (s': State) { s.(tip := h) }

  lemma RewindKeepsInv(s: State, h: Hash)
    requires Inv(s) && IsAncestor(s.tree, s.genesis, h, s.tip)
    ensures h in s.tree && Inv(Rewind(s, h))
  {
    var s' := Rewind(s, h);
    AncestorAtHeight(s.tree, s.genesis, h, s.tip);
    forall x | x in s.tree ensures Supply(s', x) == Supply(s, x) {
      SupplyExtended(s, s', x);
    }
    forall x | x in s'.meta ensures Recorded(s', x) {
      assert Recorded(s, x);
    }
  }

  // `hs` continues the main chain, block by block.
  ghost predicate Continues(s: State, hs: seq<Hash>) {
    hs == [] ||
    var n := |hs| - 1;
    && Continues(s, hs[..n])
    && hs[n] in s.tree
    && s.tree[hs[n]].prev == if n == 0 then s.tip else hs[n - 1]
  }

  ghost function ConnectAll(s: State, hs: seq<Hash>): (s': State)
    requires Inv(s) && Continues(s, hs)
    ensures Inv(s') && s'.tree == s.tree && s'.blocks == s.blocks && s'.genesis == s.genesis
    ensures s'.tip == if hs == [] then s.tip else hs[|hs| - 1]
    decreases |hs|
  {
    if hs == [] then s
    else
      var low := ConnectAll(s, hs[..|hs| - 1]);
      ConnectKeepsInv(low, hs[|hs| - 1]);
      Connect(low, hs[|hs| - 1])
  }

  // A stretch of a path continues the chain that ends just below it.
  lemma {:induction false} PathContinues(s: State, h: Hash, lo: nat, hi: nat)
    requires WellFormed(s.tree, s.genesis) && h in s.tree
    requires 1 <= lo <= hi <= |Path(s.tree, s.genesis, h)|
    requires s.tip == Path(s.tree, s.genesis, h)[lo - 1]
    ensures Continues(s, Path(s.tree, s.genesis, h)[lo..hi])
    decreases hi
  {
    if lo < hi {
      var p := Path(s.tree, s.genesis, h);
      PathContinues(s, h, lo, hi - 1);
      PathSteps(s.tree, s.genesis, h, hi - 2);
      assert p[lo..hi][..hi - 1 - lo] == p[lo..hi - 1];
    }
  }

  // ---------- the database ----------

  // The tables of the database.
  datatype Db = Db(index: map<Hash, Index>, blocks: map<Hash, Block>, heights: map<nat, Hash>,
                   meta: map<Hash, Metadata>, best: Hash)

  // `db` stores `s`: its link data is the rendering of the tree and the tip.
  ghost predicate Stores(db: Db, s: State) {
    && Inv(s)
    && db.index == RenderIndex(s.tree, s.genesis, s.tip)
    && db.heights == RenderHeights(s.tree, s.genesis, s.tip)
    && db.blocks == s.blocks && db.meta == s.meta && db.best == s.tip
  }

  // Reading the database.
  lemma StoredEntry(db: Db, s: State, h: Hash)
    requires Stores(db, s)
    ensures Inv(s) && WellFormed(s.tree, s.genesis) && s.tip in s.tree && s.genesis in s.tree
    ensures db.blocks == s.blocks && db.meta == s.meta && db.best == s.tip
    ensures h in db.index <==> h in s.tree
    ensures h in s.tree ==> h in db.blocks && db.index[h] == Index(h, NextOn(s.tree, s.genesis, s.tip, h), s.tree[h])
    ensures h in s.tree && h != s.genesis ==>
              s.tree[h].prev != 0 && s.tree[h].prev in s.tree && s.tree[h].height == s.tree[s.tree[h].prev].height + 1
    ensures h in s.tree ==>
              h != 0 && (s.tree[h].height == 0 <==> h == s.genesis) && (s.tree[h].prev == 0 <==> h == s.genesis)
  {
    assert h in s.tree && h != s.genesis ==> LinkedBack(s.tree, h);
  }

  // The writes that take the tip off the main chain ...
  lemma StepDown(db: Db, s: State)
    requires Stores(db, s) && s.tip != s.genesis
    ensures var prev := s.tree[s.tip].prev;
            && prev in s.tree
            && Stores(db.(heights := db.heights - {s.tree[s.tip].height},
                          index := db.index[prev := Index(prev, 0, s.tree[prev])],
                          best := prev),
                      Rewind(s, prev))
  {
    hide Inv, WellFormed, Path, NextOn, RenderIndex, RenderHeights;
    StoredEntry(db, s, s.tip);
    var prev := s.tree[s.tip].prev;
    assert IsAncestor(s.tree, s.genesis, prev, s.tip) by {
      OneStep(s.tree, s.genesis, s.tip);
      assert Path(s.tree, s.genesis, prev)[s.tree[prev].height] == prev;
    }
    RewindKeepsInv(s, prev);
    RenderIndexDown(s.tree, s.genesis, s.tip);
    RenderHeightsStep(s.tree, s.genesis, s.tip);
  }

  // ... and that put `h` on top of it.
  lemma StepUp(db: Db, s: State, h: Hash)
    requires Stores(db, s) && h in s.tree && s.tree[h].prev == s.tip
    ensures Inv(s) && Connect(s, h).genesis == s.genesis && Connect(s, h).tree == s.tree
    ensures Connect(s, h).blocks == s.blocks
    ensures h in db.blocks && s.tip in s.tree && db.index[h] == Index(h, 0, s.tree[h])
    ensures s.tree[h].height > 1 ==> s.tip in db.meta
    ensures var supply := NetOutput(db.blocks[h].vtx) + if s.tree[h].height > 1 then db.meta[s.tip].moneySupply else 0;
            Stores(db.(meta := db.meta[h := Metadata(supply, Mint(db.blocks[h]))],
                       index := db.index[s.tip := Index(s.tip, h, s.tree[s.tip])],
                       heights := db.heights[s.tree[h].height := h],
                       best := h),
                   Connect(s, h))
  {
    hide Inv, WellFormed, Path, NextOn, Supply, NetOutput, Mint, RenderIndex, RenderHeights;
    StoredEntry(db, s, h);
    StoredEntry(db, s, s.tip);
    OneStep(s.tree, s.genesis, h);
    ConnectKeepsInv(s, h);
    RenderIndexUp(s.tree, s.genesis, h);
    NextStep(s.tree, s.genesis, h, h);
    RenderHeightsStep(s.tree, s.genesis, h);
    PrevSupply(s, h);
  }

  lemma PrevSupply(s: State, h: Hash)
    requires Inv(s) && h in s.tree && s.tree[h].prev == s.tip
    ensures s.tree[h].height > 1 ==> s.tip in s.meta
    ensures Supply(s, h) == NetOutput(s.blocks[h].vtx) + if s.tree[h].height > 1 then s.meta[s.tip].moneySupply else 0
  {
    assert LinkedBack(s.tree, h);
    assert s.tip != s.genesis ==> LinkedBack(s.tree, s.tip);
    assert Path(s.tree, s.genesis, s.tip)[s.tree[s.tip].height] == s.tip;
    assert s.tip in s.meta ==> Recorded(s, s.tip);
  }

  // ---------- switching to a new best chain ----------

  // The first block, walking back from index `i`, whose predecessor does not beat `trust`.
  function PivotFrom(t: Tree, p: seq<Hash>, trust: nat, i: nat): (k: nat)
    requires i < |p| && forall j :: 0 <= j < |p| ==> p[j] in t
    ensures k <= i
    ensures t[p[i]].trust > trust ==> t[p[k]].trust > trust
    ensures k > 0 ==> t[p[k - 1]].trust <= trust
  {
    if i == 0 || t[p[i - 1]].trust <= trust then i else PivotFrom(t, p, trust, i - 1)
  }

  // How far past index `k` the blocks of `p` connect without interruption.
  function Advance(s: State, p: seq<Hash>, k: nat, rules: Rules): (m: nat)
    requires k < |p| && forall j :: 0 <= j < |p| ==> p[j] in s.blocks
    ensures k <= m < |p|
    ensures forall j :: k < j <= m ==> Connectable(s, p[j], rules)
    ensures m + 1 < |p| ==> !Connectable(s, p[m + 1], rules)
    decreases |p| - k
  {
    if k + 1 < |p| && Connectable(s, p[k + 1], rules) then Advance(s, p, k + 1, rules) else k
  }

  lemma {:induction false} AdvanceIs(s: State, p: seq<Hash>, k: nat, m: nat, rules: Rules)
    requires k <= m < |p| && forall j :: 0 <= j < |p| ==> p[j] in s.blocks
    requires forall j :: k < j <= m ==> Connectable(s, p[j], rules)
    requires m + 1 < |p| ==> !Connectable(s, p[m + 1], rules)
    ensures m == Advance(s, p, k, rules)
    decreases m - k
  {
    hide Connectable;
    if k < m {
      AdvanceIs(s, p, k + 1, m, rules);
    }
  }

  // The path of the new block, the number of its blocks already in the main chain, and the
  // index of its first block that beats the current tip.
  ghost function NewPath(s: State, cand: Hash): (p: seq<Hash>)
    requires Inv(s) && cand in s.tree
    ensures |p| == s.tree[cand].height + 1 && p[|p| - 1] == cand
    ensures forall j :: 0 <= j < |p| ==> p[j] in s.tree && s.tree[p[j]].height == j && p[j] in s.blocks
  {
    Path(s.tree, s.genesis, cand)
  }

  ghost function Fork(s: State, cand: Hash): (c: nat)
    requires Inv(s) && cand in s.tree
    ensures 1 <= c <= |NewPath(s, cand)| && c <= s.tree[s.tip].height + 1
  {
    ForkLength(s.tree, s.genesis, s.tip, cand)
  }

  ghost function Pivot(s: State, cand: Hash): (k: nat)
    requires Inv(s) && cand in s.tree
    ensures k < |NewPath(s, cand)|
  {
    var p := NewPath(s, cand);
    PivotFrom(s.tree, p, s.tree[s.tip].trust, |p| - 1)
  }

  lemma NewPathStep(s: State, cand: Hash, i: nat)
    requires Inv(s) && cand in s.tree && i < |NewPath(s, cand)|
    ensures i > 0 ==> s.tree[NewPath(s, cand)[i]].prev == NewPath(s, cand)[i - 1]
    ensures forall trust: nat :: PivotFrom(s.tree, NewPath(s, cand), trust, i) ==
              if i == 0 || s.tree[NewPath(s, cand)[i - 1]].trust <= trust then i
              else PivotFrom(s.tree, NewPath(s, cand), trust, i - 1)
  {
    hide Path;
    if i > 0 {
      PathSteps(s.tree, s.genesis, cand, i - 1);
    }
  }

  lemma ForkBelowPivot(s: State, cand: Hash)
    requires Inv(s) && cand in s.tree && s.tree[cand].trust > s.tree[s.tip].trust
    ensures Fork(s, cand) <= Pivot(s, cand)
    ensures NewPath(s, cand)[Fork(s, cand) - 1] == Path(s.tree, s.genesis, s.tip)[Fork(s, cand) - 1]
    ensures forall j :: Pivot(s, cand) <= j < |NewPath(s, cand)| ==>
              s.tree[NewPath(s, cand)[j]].trust > s.tree[s.tip].trust
    ensures forall j :: 0 <= j < Pivot(s, cand) ==> s.tree[NewPath(s, cand)[j]].trust <= s.tree[s.tip].trust
  {
    hide Path, Inv, WellFormed, Fork, IsAncestor, ForkBlock;
    InvTree(s);
    var p, q, c, k := NewPath(s, cand), Path(s.tree, s.genesis, s.tip), Fork(s, cand), Pivot(s, cand);
    assert p[c - 1] == ForkBlock(s, cand) == q[c - 1];
    PathTrust(s.tree, s.genesis, s.tip, c - 1, |q| - 1);
    forall j | 0 <= j < k ensures s.tree[p[j]].trust <= s.tree[s.tip].trust {
      PathTrust(s.tree, s.genesis, cand, j, k - 1);
    }
    forall j | k <= j < |p| ensures s.tree[p[j]].trust > s.tree[s.tip].trust {
      PathTrust(s.tree, s.genesis, cand, k, j);
    }
  }

  // The reorganisation itself is all or nothing up to the pivot.
  ghost predicate CanSwitch(s: State, cand: Hash, rules: Rules)
    requires Inv(s) && cand in s.tree
  {
    forall j :: Fork(s, cand) <= j <= Pivot(s, cand) ==> Connectable(s, NewPath(s, cand)[j], rules)
  }

  // The highest block of the path of `cand` that is in the main chain.
  ghost function ForkBlock(s: State, cand: Hash): (f: Hash)
    requires Inv(s) && cand in s.tree
    ensures IsAncestor(s.tree, s.genesis, f, s.tip) && IsAncestor(s.tree, s.genesis, f, cand)
    ensures f == NewPath(s, cand)[Fork(s, cand) - 1] == Path(s.tree, s.genesis, s.tip)[Fork(s, cand) - 1]
  {
    var p, q, c := NewPath(s, cand), Path(s.tree, s.genesis, s.tip), Fork(s, cand);
    assert p[c - 1] == p[..c][c - 1] == q[..c][c - 1] == q[c - 1];
    p[c - 1]
  }

  lemma CanMove(s: State, cand: Hash, hi: nat)
    requires Inv(s) && cand in s.tree && Fork(s, cand) <= hi <= |NewPath(s, cand)|
    ensures Inv(Rewind(s, ForkBlock(s, cand)))
    ensures Continues(Rewind(s, ForkBlock(s, cand)), NewPath(s, cand)[Fork(s, cand)..hi])
    ensures hi == Fork(s, cand) ==> ForkBlock(s, cand) == NewPath(s, cand)[hi - 1]
    ensures hi > Fork(s, cand) ==>
              NewPath(s, cand)[Fork(s, cand)..hi][hi - Fork(s, cand) - 1] == NewPath(s, cand)[hi - 1]
  {
    hide Path, Fork, WellFormed;
    RewindKeepsInv(s, ForkBlock(s, cand));
    PathContinues(Rewind(s, ForkBlock(s, cand)), cand, Fork(s, cand), hi);
  }

  // The main chain after moving over to `NewPath(s, cand)[..hi]`.
  ghost function Moved(s: State, cand: Hash, hi: nat): (s': State)
    requires Inv(s) && cand in s.tree && Fork(s, cand) <= hi <= |NewPath(s, cand)|
    ensures Inv(s') && s'.tree == s.tree && s'.blocks == s.blocks && s'.genesis == s.genesis
    ensures s'.tip == NewPath(s, cand)[hi - 1]
  {
    hide Inv, Path, NewPath, Fork, Continues, ForkBlock, WellFormed, IsAncestor, ConnectAll;
    CanMove(s, cand, hi);
    var hs := NewPath(s, cand)[Fork(s, cand)..hi];
    assert |hs| == hi - Fork(s, cand);
    ConnectAll(Rewind(s, ForkBlock(s, cand)), hs)
  }

  lemma MovedStep(s: State, cand: Hash, hi: nat)
    requires Inv(s) && cand in s.tree && Fork(s, cand) <= hi < |NewPath(s, cand)|
    ensures Moved(s, cand, hi + 1) == Connect(Moved(s, cand, hi), NewPath(s, cand)[hi])
    ensures s.tree[NewPath(s, cand)[hi]].prev == NewPath(s, cand)[hi - 1]
  {
    hide Inv, Path, WellFormed, Fork, ForkBlock;
    InvTree(s);
    var p, c := NewPath(s, cand), Fork(s, cand);
    CanMove(s, cand, hi + 1);
    assert p[c..hi + 1][..hi - c] == p[c..hi];
    PathSteps(s.tree, s.genesis, cand, hi - 1);
  }

  // The highest common ancestor is recognised by being common and not below `Fork`.
  lemma IsForkBlock(s: State, cand: Hash, x: Hash)
    requires Inv(s) && cand in s.tree
    requires IsAncestor(s.tree, s.genesis, x, s.tip) && IsAncestor(s.tree, s.genesis, x, cand)
    requires s.tree[x].height >= Fork(s, cand) - 1
    ensures x == ForkBlock(s, cand)
  {
    hide Path, Inv, WellFormed, IsAncestor, ForkBlock, ForkLength;
    InvTree(s);
    CommonAncestors(s.tree, s.genesis, s.tip, cand, x);
    AncestorAtHeight(s.tree, s.genesis, x, s.tip);
    assert ForkBlock(s, cand) in s.tree;
  }

  // Two different blocks on the two paths cannot both sit at the fork.
  lemma AboveFork(s: State, cand: Hash, x: Hash, y: Hash)
    requires Inv(s) && cand in s.tree
    requires IsAncestor(s.tree, s.genesis, x, s.tip) && IsAncestor(s.tree, s.genesis, y, cand)
    requires s.tree[x].height >= s.tree[y].height >= Fork(s, cand) - 1
    requires x != y
    ensures s.tree[x].height > Fork(s, cand) - 1
  {
    hide Path, Inv, WellFormed, Fork, IsAncestor, ForkBlock;
    InvTree(s);
    AncestorAtHeight(s.tree, s.genesis, x, s.tip);
    AncestorAtHeight(s.tree, s.genesis, y, cand);
    assert ForkBlock(s, cand) in s.tree;
  }

  // Above the fork the path of `cand` is off the main chain.
  lemma OffMainChain(s: State, cand: Hash, j: nat)
    requires Inv(s) && cand in s.tree && Fork(s, cand) <= j < |NewPath(s, cand)|
    ensures RenderIndex(s.tree, s.genesis, s.tip)[NewPath(s, cand)[j]] ==
              Index(NewPath(s, cand)[j], 0, s.tree[NewPath(s, cand)[j]])
    ensures !IsAncestor(s.tree, s.genesis, NewPath(s, cand)[j], s.tip)
  {
    var x := NewPath(s, cand)[j];
    if IsAncestor(s.tree, s.genesis, x, s.tip) {
      CommonAncestors(s.tree, s.genesis, s.tip, cand, x);
    }
  }

  // The part of the path of `cand` up to index `k` is the path of the block there.
  lemma SubPath(s: State, cand: Hash, k: nat)
    requires Inv(s) && cand in s.tree && Fork(s, cand) <= k < |NewPath(s, cand)|
    ensures var x := NewPath(s, cand)[k];
            && NewPath(s, x) == NewPath(s, cand)[..k + 1]
            && Fork(s, x) == Fork(s, cand)
            && ForkBlock(s, x) == ForkBlock(s, cand)
            && forall m :: Fork(s, cand) <= m <= k + 1 ==> Moved(s, x, m) == Moved(s, cand, m)
  {
    hide Path, Inv, WellFormed, ConnectAll;
    InvTree(s);
    var x, p, q, c := NewPath(s, cand)[k], NewPath(s, cand), Path(s.tree, s.genesis, s.tip), Fork(s, cand);
    PathPrefix(s.tree, s.genesis, cand, k);
    SharedOfPrefix(q, p, k + 1);
    forall m | c <= m <= k + 1 ensures Moved(s, x, m) == Moved(s, cand, m) {
      assert NewPath(s, x)[c..m] == p[c..m];
    }
  }

  // Going back to the fork connects nothing.
  lemma MovedToFork(s: State, cand: Hash)
    requires Inv(s) && cand in s.tree
    ensures ForkBlock(s, cand) in s.tree && s.tree[ForkBlock(s, cand)].height == Fork(s, cand) - 1
    ensures s.tree[ForkBlock(s, cand)].height <= s.tree[s.tip].height
    ensures Moved(s, cand, Fork(s, cand)) == Rewind(s, ForkBlock(s, cand))
  {
    hide Inv, Path, WellFormed, Fork, ForkBlock;
    InvTree(s);
    assert NewPath(s, cand)[Fork(s, cand)..Fork(s, cand)] == [];
  }

  // The trail from the tip to the fork, and the one from `cand` read backwards.
  lemma ForkTrails(s: State, cand: Hash, k: nat)
    requires Inv(s) && cand in s.tree
    ensures ForkBlock(s, cand) in s.tree && s.tree[ForkBlock(s, cand)].height == Fork(s, cand) - 1
    ensures var c := Fork(s, cand);
            && (k < |NewPath(s, cand)| - c ==>
                  Trail(s.tree, s.genesis, cand, c - 1)[|NewPath(s, cand)| - c - 1 - k] == NewPath(s, cand)[c + k])
            && (k < s.tree[s.tip].height - (c - 1) ==>
                  Trail(s.tree, s.genesis, s.tip, c - 1)[k] == Path(s.tree, s.genesis, s.tip)[s.tree[s.tip].height - k])
  {
    hide Path, ForkBlock, Inv, WellFormed, Fork, Trail;
    InvTree(s);
    var c := Fork(s, cand);
    if k < |NewPath(s, cand)| - c {
      TrailAt(s.tree, s.genesis, cand, c - 1, |NewPath(s, cand)| - c - 1 - k);
    }
    if k < s.tree[s.tip].height - (c - 1) {
      TrailAt(s.tree, s.genesis, s.tip, c - 1, k);
    }
  }

  ghost function Switched(s: State, cand: Hash, rules: Rules): (s': State)
    requires Inv(s) && cand in s.tree && s.tree[cand].trust > s.tree[s.tip].trust
    ensures Inv(s') && s'.tree == s.tree && s'.blocks == s.blocks && s'.genesis == s.genesis
    ensures s'.tree[s'.tip].trust > s.tree[s.tip].trust
    ensures IsAncestor(s.tree, s.genesis, s'.tip, cand)
  {
    ForkBelowPivot(s, cand);
    Moved(s, cand, Advance(s, NewPath(s, cand), Pivot(s, cand), rules) + 1)
  }

  // Where the switch ends, and that the link out of the genesis block is the same from the pivot on.
  lemma SwitchedIs(s: State, cand: Hash, rules: Rules)
    requires Inv(s) && cand in s.tree && s.tree[cand].trust > s.tree[s.tip].trust
    ensures var p, k := NewPath(s, cand), Pivot(s, cand);
            var m := Advance(s, p, k, rules);
            && 1 <= Fork(s, cand) <= k <= m < |p| && Switched(s, cand, rules) == Moved(s, cand, m + 1)
            && s.genesis in s.tree && p[k] != s.genesis && p[m] != s.genesis && WellFormed(s.tree, s.genesis)
            && NextOn(s.tree, s.genesis, p[k], s.genesis) == NextOn(s.tree, s.genesis, p[m], s.genesis)
  {
    hide Path, WellFormed, Inv, Fork, Moved, NewPath, Pivot, NextOn, Connectable;
    InvTree(s);
    ForkBelowPivot(s, cand);
    LinkOnPath(s, cand, Pivot(s, cand));
    LinkOnPath(s, cand, Advance(s, NewPath(s, cand), Pivot(s, cand), rules));
  }

  // Whether the reorganisation to the pivot goes through.
  lemma SwitchDecided(s: State, cand: Hash, rules: Rules)
    requires Inv(s) && cand in s.tree && s.tree[cand].trust > s.tree[s.tip].trust
    ensures var c, k := Fork(s, cand), Pivot(s, cand);
            var x := NewPath(s, cand)[k];
            && c <= k
            && NewPath(s, x) == NewPath(s, cand)[..k + 1] && Fork(s, x) == c && ForkBlock(s, x) == ForkBlock(s, cand)
            && (CanSwitch(s, cand, rules) <==> Advance(s, NewPath(s, x), c - 1, rules) == k)
            && Moved(s, x, k + 1) == Moved(s, cand, k + 1)
            && (!CanSwitch(s, cand, rules) ==>
                  Advance(s, NewPath(s, x), c - 1, rules) == Advance(s, NewPath(s, cand), c - 1, rules) < k)
  {
    hide Path, WellFormed, Inv, Fork, ForkBlock, Connectable, Moved, NewPath, Pivot, Advance;
    ForkBelowPivot(s, cand);
    var c, k, p := Fork(s, cand), Pivot(s, cand), NewPath(s, cand);
    SubPath(s, cand, k);
    if CanSwitch(s, cand, rules) {
      AdvanceIs(s, p[..k + 1], c - 1, k, rules);
    }
    var m := Advance(s, p[..k + 1], c - 1, rules);
    assert forall j :: 0 <= j <= k ==> p[j] == p[..k + 1][j];
    if m < k {
      AdvanceIs(s, p, c - 1, m, rules);
    }
  }

  // A block on top of the tip is its own pivot, and switching to it just connects it.
  lemma ExtensionSwitch(s: State, cand: Hash, rules: Rules)
    requires Inv(s) && cand in s.tree && s.tree[cand].trust > s.tree[s.tip].trust && s.tree[cand].prev == s.tip
    ensures Fork(s, cand) == |NewPath(s, cand)| - 1 == Pivot(s, cand) && ForkBlock(s, cand) == s.tip
    ensures CanSwitch(s, cand, rules) <==> Connectable(s, cand, rules)
    ensures Switched(s, cand, rules) == Connect(s, cand)
    ensures !CanSwitch(s, cand, rules) ==>
              NewPath(s, cand)[Advance(s, NewPath(s, cand), Fork(s, cand) - 1, rules)] == s.tip
  {
    hide Path, WellFormed, Inv, Fork, ForkBlock, Connectable, Moved, NewPath, Pivot, Connect;
    ExtensionFork(s, cand);
    ForkBelowPivot(s, cand);
    assert CanSwitch(s, cand, rules) ==> Connectable(s, NewPath(s, cand)[Pivot(s, cand)], rules);
  }

  lemma ExtensionFork(s: State, cand: Hash)
    requires Inv(s) && cand in s.tree && s.tree[cand].prev == s.tip
    ensures Fork(s, cand) == |NewPath(s, cand)| - 1 && ForkBlock(s, cand) == s.tip
    ensures Moved(s, cand, |NewPath(s, cand)|) == Connect(s, cand)
  {
    hide Inv, WellFormed, Moved, Connect, Supply;
    InvTree(s);
    assert 0 !in s.tree by { NullNotIndexed(s); }
    OneStep(s.tree, s.genesis, cand);
    var p, q := NewPath(s, cand), Path(s.tree, s.genesis, s.tip);
    assert p[..|q|] == q == q[..|q|];
    SharedAtLeast(q, p, |q|);
    MovedToFork(s, cand);
    MovedStep(s, cand, |q|);
  }

  // All the blocks of a path above the genesis block agree on the link out of it.
  lemma LinkOnPath(s: State, cand: Hash, k: nat)
    requires Inv(s) && cand in s.tree && 1 <= k < |NewPath(s, cand)|
    ensures s.genesis in s.tree && NewPath(s, cand)[k] in s.tree && NewPath(s, cand)[k] != s.genesis
    ensures NextOn(s.tree, s.genesis, NewPath(s, cand)[k], s.genesis) == NewPath(s, cand)[1]
  {
    PathPrefix(s.tree, s.genesis, cand, k);
    var p := Path(s.tree, s.genesis, NewPath(s, cand)[k]);
    assert p[0] == s.genesis && p[1] == NewPath(s, cand)[1];
  }

  lemma NullNotIndexed(s: State)
    requires Inv(s)
    ensures 0 !in s.tree && s.tree[s.genesis].prev == 0
  {
  }

  // ---------- adding a block ----------

  // A block offered to the node.  `accepted` stands for the stake modifier computation and
  // the stake modifier checkpoint, `blockTrust` for `GetBlockTrust`.
  datatype Request = Request(hash: Hash, block: Block, blockTrust: nat, head: Header, accepted: bool, rules: Rules)

  // What the caller of `AddToBlockIndex` has established.
  ghost predicate Offered(s: State, r: Request) { r.hash != 0 && r.block.hashPrev in s.tree }

  ghost function Indexed(s: State, r: Request): (s': State)
    requires Inv(s) && Offered(s, r) && r.hash !in s.tree
    ensures Inv(s') && s'.tip == s.tip && s'.genesis == s.genesis && s'.meta == s.meta
    ensures r.hash in s'.tree && s'.tree == s.tree[r.hash := s'.tree[r.hash]]
    ensures s'.blocks == s.blocks[r.hash := r.block]
  {
    var prev := s.tree[r.block.hashPrev];
    var node := Node(r.block.hashPrev, prev.height + 1, prev.trust + r.blockTrust, r.head);
    IndexedKeepsInv(s, r, node);
    s.(tree := s.tree[r.hash := node], blocks := s.blocks[r.hash := r.block])
  }

  lemma IndexedKeepsInv(s: State, r: Request, n: Node)
    requires Inv(s) && Offered(s, r) && r.hash !in s.tree
    requires n.prev == r.block.hashPrev && n.height == s.tree[n.prev].height + 1 && n.trust >= s.tree[n.prev].trust
    ensures Inv(s.(tree := s.tree[r.hash := n], blocks := s.blocks[r.hash := r.block]))
  {
    var s' := s.(tree := s.tree[r.hash := n], blocks := s.blocks[r.hash := r.block]);
    GrownWellFormed(s.tree, s.genesis, r.hash, n);
    PathExtended(s.tree, s'.tree, s.genesis, s.tip);
    hide Path, Supply, WellFormed;
    forall x | x in s'.meta ensures Recorded(s', x) {
      assert Recorded(s, x);
      SupplyExtended(s, s', x);
    }
  }

  lemma GrownWellFormed(t: Tree, genesis: Hash, h: Hash, n: Node)
    requires WellFormed(t, genesis) && h != 0 && h !in t && n.prev in t
    requires n.height == t[n.prev].height + 1 && n.trust >= t[n.prev].trust
    ensures WellFormed(t[h := n], genesis)
  {
    var t' := t[h := n];
    forall x | x in t' && x != genesis ensures LinkedBack(t', x) {
      assert x != h ==> LinkedBack(t, x);
    }
  }

  lemma StoreIndexed(db: Db, s: State, r: Request)
    requires Stores(db.(blocks := s.blocks), s) && db.blocks == s.blocks[r.hash := r.block]
    requires Inv(s) && Offered(s, r) && r.hash !in s.tree
    ensures Stores(db.(index := db.index[r.hash := Index(r.hash, 0, Indexed(s, r).tree[r.hash])]), Indexed(s, r))
    ensures Indexed(s, r).tree[r.hash] == Node(r.block.hashPrev, s.tree[r.block.hashPrev].height + 1,
                                               s.tree[r.block.hashPrev].trust + r.blockTrust, r.head)
    ensures RenderIndex(Indexed(s, r).tree, s.genesis, s.tip)[r.hash].hashNext == 0
  {
    hide Inv, WellFormed, RenderIndex, RenderHeights;
    var s' := Indexed(s, r);
    InvTree(s);
    InvTree(s');
    RenderIndexExtended(s.tree, s'.tree, s.genesis, s.tip, r.hash);
    RenderHeightsExtended(s.tree, s'.tree, s.genesis, s.tip);
  }

  // The effect of offering a block: the new state, and whether the block was taken.  A refusal
  // leaves no trace, because the enclosing database transaction is aborted.
  ghost function Step(s: State, r: Request): (res: (State, bool))
    requires Inv(s) && Offered(s, r)
    ensures Inv(res.0)
  {
    if r.hash in s.tree || !r.accepted then (s, false)
    else
      var s1 := Indexed(s, r);
      if s1.tree[r.hash].trust <= s1.tree[s1.tip].trust then (s1, true)
      else if CanSwitch(s1, r.hash, r.rules) then (Switched(s1, r.hash, r.rules), true)
      else (s, false)
  }

  lemma RefusedKeeps(s: State, r: Request)
    requires Inv(s) && Offered(s, r)
    ensures !Step(s, r).1 ==> Step(s, r).0 == s
  {
  }

  // ---------- which offers are taken ----------

  ghost predicate Passes(b: Block, h: Hash, rules: Rules) {
    rules.valid(h) && CheckShape(b) && WithinReward(b, rules.rewards)
  }

  // The offered block would have more trust than the best one.
  ghost predicate Outweighs(s: State, r: Request)
    requires Inv(s) && Offered(s, r)
  {
    s.tree[r.block.hashPrev].trust + r.blockTrust > s.tree[s.tip].trust
  }

  // `x` is on the branch of the offered block, below the point where that branch overtakes the
  // best chain, and fails its checks.
  ghost predicate Hinders(s: State, r: Request, x: Hash)
    requires Inv(s) && Offered(s, r)
  {
    && x in s.tree && s.tree[x].prev in s.tree && x in s.blocks
    && IsAncestor(s.tree, s.genesis, x, r.block.hashPrev) && !IsAncestor(s.tree, s.genesis, x, s.tip)
    && s.tree[s.tree[x].prev].trust <= s.tree[s.tip].trust
    && !Passes(s.blocks[x], x, r.rules)
  }

  ghost predicate Hindered(s: State, r: Request)
    requires Inv(s) && Offered(s, r)
  {
    || (s.tree[r.block.hashPrev].trust <= s.tree[s.tip].trust && !Passes(r.block, r.hash, r.rules))
    || exists x :: Hinders(s, r, x)
  }

  // The path of the offered block is that of its predecessor and the block itself.
  lemma IndexedPath(s: State, r: Request)
    requires Inv(s) && Offered(s, r) && r.hash !in s.tree
    ensures var s1 := Indexed(s, r);
            && s1.tree[r.hash].trust == s.tree[r.block.hashPrev].trust + r.blockTrust
            && NewPath(s1, r.hash) == Path(s.tree, s.genesis, r.block.hashPrev) + [r.hash]
            && Path(s1.tree, s.genesis, s.tip) == Path(s.tree, s.genesis, s.tip)
  {
    hide Path, WellFormed, Supply;
    var s1 := Indexed(s, r);
    InvTree(s);
    InvTree(s1);
    NullNotIndexed(s);
    OneStep(s1.tree, s.genesis, r.hash);
    PathExtended(s.tree, s1.tree, s.genesis, r.block.hashPrev);
    PathExtended(s.tree, s1.tree, s.genesis, s.tip);
  }

  // The blocks that the switch has to connect, seen from before the block was indexed.
  lemma MustConnect(s: State, r: Request, j: nat)
    requires Inv(s) && Offered(s, r) && r.hash !in s.tree && Outweighs(s, r)
    requires j <= |Path(s.tree, s.genesis, r.block.hashPrev)|
    ensures var s1, p := Indexed(s, r), Path(s.tree, s.genesis, r.block.hashPrev);
            && NewPath(s1, r.hash) == p + [r.hash] && Fork(s1, r.hash) >= 1
            && (j < |p| ==> (Fork(s1, r.hash) <= j <==> !IsAncestor(s.tree, s.genesis, p[j], s.tip)))
            && (j == |p| ==> Fork(s1, r.hash) <= j)
            && (j > 0 ==> (j <= Pivot(s1, r.hash) <==> s.tree[p[j - 1]].trust <= s.tree[s.tip].trust))
  {
    hide Path, WellFormed, Inv, Pivot, PivotFrom, ForkLength;
    InvTree(s);
    var s1, p := Indexed(s, r), Path(s.tree, s.genesis, r.block.hashPrev);
    InvTree(s1);
    IndexedPath(s, r);
    ForkBelowPivot(s1, r.hash);
    var q := NewPath(s1, r.hash);
    if j < |p| {
      assert q[j] == p[j];
      assert IsAncestor(s1.tree, s.genesis, q[j], r.hash);
      assert s1.tree[q[j]].height == j;
      ForkLengthSymmetric(s1.tree, s.genesis, s.tip, r.hash);
      CommonAncestors(s1.tree, s.genesis, r.hash, s.tip, q[j]);
    }
    if j > 0 {
      assert q[j - 1] == p[j - 1] && s1.tree[p[j - 1]] == s.tree[p[j - 1]];
    }
  }

  lemma FailureHinders(s: State, r: Request, j: nat)
    requires Inv(s) && Offered(s, r) && r.hash !in s.tree && Outweighs(s, r)
    requires Fork(Indexed(s, r), r.hash) <= j <= Pivot(Indexed(s, r), r.hash)
    requires !Connectable(Indexed(s, r), NewPath(Indexed(s, r), r.hash)[j], r.rules)
    ensures Hindered(s, r)
  {
    hide Path, WellFormed, Inv, Fork, Pivot, IsAncestor, CheckShape, WithinReward;
    InvTree(s);
    var p := Path(s.tree, s.genesis, r.block.hashPrev);
    MustConnect(s, r, |p|);
    MustConnect(s, r, j);
    if j < |p| {
      PathMember(s, r.block.hashPrev, j);
      assert Hinders(s, r, p[j]);
    }
  }

  lemma HindersFails(s: State, r: Request, x: Hash)
    requires Inv(s) && Offered(s, r) && r.hash !in s.tree && Outweighs(s, r) && Hinders(s, r, x)
    ensures !CanSwitch(Indexed(s, r), r.hash, r.rules)
  {
    hide Path, WellFormed, Inv, Fork, Pivot, IsAncestor, CheckShape, WithinReward;
    InvTree(s);
    AncestorAtHeight(s.tree, s.genesis, x, r.block.hashPrev);
    var j := s.tree[x].height;
    MustConnect(s, r, j);
    PathMember(s, r.block.hashPrev, j);
    if j == 0 {
      GenesisInMain(s, x);
    }
    assert !Connectable(Indexed(s, r), NewPath(Indexed(s, r), r.hash)[j], r.rules);
  }

  lemma HinderedIff(s: State, r: Request)
    requires Inv(s) && Offered(s, r) && r.hash !in s.tree && Outweighs(s, r)
    ensures CanSwitch(Indexed(s, r), r.hash, r.rules) <==> !Hindered(s, r)
  {
    hide Path, WellFormed, Inv, Fork, Pivot, IsAncestor, CheckShape, WithinReward, Hinders;
    InvTree(s);
    var s1, p := Indexed(s, r), Path(s.tree, s.genesis, r.block.hashPrev);
    MustConnect(s, r, |p|);
    if !CanSwitch(s1, r.hash, r.rules) {
      var j :| Fork(s1, r.hash) <= j <= Pivot(s1, r.hash) && !Connectable(s1, NewPath(s1, r.hash)[j], r.rules);
      FailureHinders(s, r, j);
    }
    if x :| Hinders(s, r, x) {
      HindersFails(s, r, x);
    } else if Hindered(s, r) {
      assert !Connectable(s1, NewPath(s1, r.hash)[|p|], r.rules);
    }
  }

  lemma PathMember(s: State, h: Hash, j: nat)
    requires Inv(s) && h in s.tree && j < |Path(s.tree, s.genesis, h)|
    ensures var p := Path(s.tree, s.genesis, h);
            && p[j] in s.tree && p[j] in s.blocks && s.tree[p[j]].height == j && IsAncestor(s.tree, s.genesis, p[j], h)
            && (j > 0 ==> s.tree[p[j]].prev == p[j - 1])
  {
    if j > 0 {
      PathSteps(s.tree, s.genesis, h, j - 1);
    }
  }

  // The genesis block is in every main chain.
  lemma GenesisInMain(s: State, x: Hash)
    requires Inv(s) && x in s.tree && s.tree[x].height == 0
    ensures IsAncestor(s.tree, s.genesis, x, s.tip)
  {
    assert x != s.genesis ==> LinkedBack(s.tree, x);
    assert Path(s.tree, s.genesis, s.tip)[0] == s.genesis;
  }

  // An offer is taken exactly when the block is new and accepted and, if it outweighs the best
  // one, nothing on its branch hinders the switch.
  lemma OfferDecided(s: State, r: Request)
    requires Inv(s) && Offered(s, r)
    ensures Step(s, r).1 <==> r.hash !in s.tree && r.accepted && (Outweighs(s, r) ==> !Hindered(s, r))
  {
    hide Inv, CanSwitch, Switched, Hindered;
    InvTree(s);
    if r.hash !in s.tree {
      IndexedPath(s, r);
      if Outweighs(s, r) {
        HinderedIff(s, r);
      }
    }
  }

  // The main chain ends on the branch of the offered block, in a block that outweighs the old tip:
  // every block it gained passes its checks, and the next one of the branch, if any, does not.
  ghost predicate Reached(s: State, tip: Hash, r: Request)
    requires Inv(s) && tip in s.tree && r.hash in s.tree
  {
    && IsAncestor(s.tree, s.genesis, s.tip, r.hash) && s.tree[s.tip].trust > s.tree[tip].trust
    && (forall x :: IsAncestor(s.tree, s.genesis, x, s.tip) && !IsAncestor(s.tree, s.genesis, x, tip) ==>
          x in s.blocks && Passes(s.blocks[x], x, r.rules))
    && (forall x :: x in s.tree && x in s.blocks && s.tree[x].prev == s.tip && IsAncestor(s.tree, s.genesis, x, r.hash)
          ==> !Passes(s.blocks[x], x, r.rules))
  }

  lemma SwitchReaches(s: State, r: Request)
    requires Inv(s) && r.hash in s.tree && s.tree[r.hash].trust > s.tree[s.tip].trust
    requires CanSwitch(s, r.hash, r.rules)
    ensures Reached(Switched(s, r.hash, r.rules), s.tip, r)
  {
    hide Path, WellFormed, Inv, NewPath, Fork, Pivot, Moved, Advance, IsAncestor, CheckShape, WithinReward;
    InvTree(s);
    var s', p := Switched(s, r.hash, r.rules), NewPath(s, r.hash);
    ForkBelowPivot(s, r.hash);
    var m := Advance(s, p, Pivot(s, r.hash), r.rules);
    forall x | IsAncestor(s.tree, s.genesis, x, s'.tip) && !IsAncestor(s.tree, s.genesis, x, s.tip)
      ensures x in s.blocks && Passes(s.blocks[x], x, r.rules)
    {
      OnNewPath(s, r.hash, m, x);
      assert Connectable(s, p[s.tree[x].height], r.rules);
    }
    forall x | IsAncestor(s.tree, s.genesis, x, r.hash) && x in s.tree && s.tree[x].prev == s'.tip
      ensures x in s.blocks && !Passes(s.blocks[x], x, r.rules)
    {
      AfterOnPath(s, r.hash, m, x);
    }
  }

  lemma OnNewPath(s: State, cand: Hash, m: nat, x: Hash)
    requires Inv(s) && cand in s.tree && m < |NewPath(s, cand)|
    requires IsAncestor(s.tree, s.genesis, x, NewPath(s, cand)[m]) && !IsAncestor(s.tree, s.genesis, x, s.tip)
    ensures x in s.tree && Fork(s, cand) <= s.tree[x].height <= m && NewPath(s, cand)[s.tree[x].height] == x
  {
    hide Path, WellFormed, Inv, IsAncestor, ForkLength;
    InvTree(s);
    var h := NewPath(s, cand)[m];
    AncestorAtHeight(s.tree, s.genesis, x, h);
    PathPrefix(s.tree, s.genesis, cand, m);
    PathMember(s, cand, s.tree[x].height);
    ForkLengthSymmetric(s.tree, s.genesis, s.tip, cand);
    CommonAncestors(s.tree, s.genesis, cand, s.tip, x);
  }

  lemma AfterOnPath(s: State, cand: Hash, m: nat, x: Hash)
    requires Inv(s) && cand in s.tree && m < |NewPath(s, cand)|
    requires IsAncestor(s.tree, s.genesis, x, cand) && x in s.tree && s.tree[x].prev == NewPath(s, cand)[m]
    ensures m + 1 < |NewPath(s, cand)| && NewPath(s, cand)[m + 1] == x
  {
    hide Path, WellFormed, Inv, IsAncestor;
    InvTree(s);
    NullNotIndexed(s);
    AncestorAtHeight(s.tree, s.genesis, x, cand);
    OneStep(s.tree, s.genesis, x);
  }

  lemma OfferReaches(s: State, r: Request)
    requires Inv(s) && Offered(s, r) && Step(s, r).1 && Outweighs(s, r)
    ensures r.hash in Step(s, r).0.tree && s.tip in Step(s, r).0.tree && Reached(Step(s, r).0, s.tip, r)
  {
    hide Inv, CanSwitch, Switched, Reached;
    InvTree(s);
    IndexedPath(s, r);
    SwitchReaches(Indexed(s, r), r);
  }

  // `db'` has one entry and one block more than `db`, those of the offered block.
  ghost predicate EntryAdded(db: Db, db': Db, r: Request) {
    && r.hash !in db.index && r.block.hashPrev in db.index && db'.index.Keys == db.index.Keys + {r.hash}
    && (var prev := db.index[r.block.hashPrev].node;
        db'.index[r.hash].node == Node(r.block.hashPrev, prev.height + 1, prev.trust + r.blockTrust, r.head))
    && (forall h :: h in db.index ==> db'.index[h].node == db.index[h].node)
    && db'.blocks == db.blocks[r.hash := r.block]
  }

  // ... and the main chain is as it was.
  ghost predicate OnlyIndexed(db: Db, db': Db, r: Request) {
    && EntryAdded(db, db', r)
    && db'.index == db.index[r.hash := Index(r.hash, 0, db'.index[r.hash].node)]
    && db'.heights == db.heights && db'.meta == db.meta && db'.best == db.best
  }

  lemma TakenTree(s: State, r: Request)
    requires Inv(s) && Offered(s, r) && Step(s, r).1
    ensures var s', prev := Step(s, r).0, s.tree[r.block.hashPrev];
            && r.hash !in s.tree && s'.blocks == s.blocks[r.hash := r.block]
            && s'.tree == s.tree[r.hash := Node(r.block.hashPrev, prev.height + 1, prev.trust + r.blockTrust, r.head)]
            && (!Outweighs(s, r) ==> s' == Indexed(s, r))
  {
    hide Inv, CanSwitch, Switched;
    InvTree(s);
  }

  lemma StoredOnce(db: Db, db': Db, s: State)
    requires Stores(db, s) && Stores(db', s)
    ensures db == db'
  {
    hide Inv, RenderIndex, RenderHeights;
  }

  lemma TakenIsAdded(db: Db, db': Db, s: State, r: Request)
    requires Inv(s) && Offered(s, r) && Stores(db, s) && Stores(db', Step(s, r).0) && Step(s, r).1
    ensures EntryAdded(db, db', r)
    ensures !Outweighs(s, r) ==> OnlyIndexed(db, db', r)
  {
    hide Inv, Stores, Step, NextOn, Outweighs;
    var s' := Step(s, r).0;
    TakenTree(s, r);
    forall h: Hash
      ensures (h in db.index <==> h in s.tree) && (h in db'.index <==> h in s'.tree)
      ensures h in s.tree ==> db.index[h].node == s.tree[h]
      ensures h in s'.tree ==> db'.index[h].node == s'.tree[h]
    {
      StoredEntry(db, s, h);
      StoredEntry(db', s', h);
    }
    StoredEntry(db, s, r.hash);
    StoredEntry(db', s', r.hash);
    if !Outweighs(s, r) {
      var both := db.(blocks := db.blocks[r.hash := r.block]);
      assert both.(blocks := s.blocks) == db;
      StoreIndexed(both, s, r);
      StoredOnce(db', both.(index := both.index[r.hash := Index(r.hash, 0, s'.tree[r.hash])]), s');
    }
  }

  // ---------- the in-memory genesis entry ----------

  // The last block that connects, in order, when moving over to the path of `cand`.
  ghost function Stopped(s: State, cand: Hash, rules: Rules): (h: Hash)
    requires Inv(s) && cand in s.tree
    ensures h in s.tree
  {
    NewPath(s, cand)[Advance(s, NewPath(s, cand), Fork(s, cand) - 1, rules)]
  }

  // The link out of the genesis block, as the database has it.
  ghost function GenesisLink(s: State, tip: Hash): Hash
    requires Inv(s) && tip in s.tree
  {
    NextOn(s.tree, s.genesis, tip, s.genesis)
  }

  // Offering `r` starts moving the main chain.
  ghost predicate StartsSwitch(s: State, r: Request)
    requires Inv(s) && Offered(s, r)
  {
    r.hash !in s.tree && r.accepted &&
    var s1 := Indexed(s, r);
    s1.tree[r.hash].trust > s1.tree[s1.tip].trust
  }

  // The link held in memory after offering `r`, whatever becomes of the offer.
  ghost function GenesisLinkAfter(s: State, r: Request, before: Hash): Hash
    requires Inv(s) && Offered(s, r)
  {
    if !StartsSwitch(s, r) then before
    else
      var s1 := Indexed(s, r);
      var reached := if CanSwitch(s1, r.hash, r.rules) then Switched(s1, r.hash, r.rules).tip
                     else Stopped(s1, r.hash, r.rules);
      if ForkBlock(s1, r.hash) == s.genesis && (s.tip != s.genesis || reached != s.genesis)
      then GenesisLink(s1, reached) else before
  }

  // An offer that does not move the main chain ...
  lemma StepStill(s: State, r: Request, before: Hash)
    requires Inv(s) && Offered(s, r) && !StartsSwitch(s, r)
    ensures GenesisLinkAfter(s, r, before) == before
    ensures Step(s, r) == if r.hash in s.tree || !r.accepted then (s, false) else (Indexed(s, r), true)
  {
    hide Inv;
  }

  // ... and one that does: the link held in memory afterwards is given by the block reached.
  lemma StepMoves(s: State, r: Request, s': State, ok: bool, before: Hash)
    requires Inv(s) && Offered(s, r) && StartsSwitch(s, r) && s'.tip in Indexed(s, r).tree
    requires ok <==> CanSwitch(Indexed(s, r), r.hash, r.rules)
    requires if ok then s' == Switched(Indexed(s, r), r.hash, r.rules)
             else s'.tip == Stopped(Indexed(s, r), r.hash, r.rules)
    ensures Step(s, r).1 == ok && (ok ==> Step(s, r).0 == s')
    ensures s.genesis in Indexed(s, r).tree && WellFormed(Indexed(s, r).tree, s.genesis)
    ensures GenesisLinkAfter(s, r, before) ==
              if ForkBlock(Indexed(s, r), r.hash) == s.genesis && (s.tip != s.genesis || s'.tip != s.genesis)
              then NextOn(Indexed(s, r).tree, s.genesis, s'.tip, s.genesis) else before
  {
    hide Inv, CanSwitch, Switched, Stopped, ForkBlock, NextOn, WellFormed;
    InvTree(Indexed(s, r));
    NullNotIndexed(Indexed(s, r));
  }
}
