/**
 The operations of `CBlock` that move the best chain of the block database.

 `WriteToDisk` runs inside one database transaction: the tables are put back as they were
 when any step below it fails.
 */
module BestChain {
  import opened BlockTree
  import opened Transactions
  import opened ChainState

  class ChainDb {
    var db: Db
    // The `hashNext` link of the in-memory copy of the genesis entry; it is not part of the
    // database and no transaction rolls it back.
    var genesisNext: Hash

    // What the tables store.
    ghost var s: State

    ghost predicate Valid()
      reads this
    {
      Stores(db, s)
    }

    // An empty database after the genesis block has become its best block.
    constructor (hash: Hash, block: Block, trust: nat, head: Header)
      requires hash != 0 && block.hashPrev == 0
      ensures Valid()
      ensures s == State(hash, map[hash := Node(0, 0, trust, head)], map[hash := block], map[], hash)
      ensures genesisNext == NextOn(s.tree, s.genesis, s.tip, s.genesis)
    {
      db := Db(map[hash := Index(hash, 0, Node(0, 0, trust, head))], map[hash := block], map[0 := hash], map[], hash);
      s := State(hash, map[hash := Node(0, 0, trust, head)], map[hash := block], map[], hash);
      genesisNext := 0;
    }

    // Takes the best block off the main chain.
    method DisconnectBlock(pindex: Index)
      requires Valid() && pindex.node == s.tree[s.tip] && s.tip != s.genesis
      modifies this
      ensures Valid() && s == Rewind(old(s), pindex.node.prev)
      ensures genesisNext == if s.tip == s.genesis then 0 else old(genesisNext)
    {
      hide Stores, Inv, WellFormed, NextOn;
      StoredEntry(db, s, s.tip);
      StoredEntry(db, s, pindex.node.prev);
      StepDown(db, s);
      db := db.(heights := db.heights - {pindex.node.height});
      if pindex.node.prev != 0 {
        var prev := db.index[pindex.node.prev];
        db := db.(index := db.index[prev.blockHash := prev.(hashNext := 0)]);
        db := db.(best := prev.blockHash);
        if prev.node.height == 0 {
          genesisNext := 0;
        }
      }
      s := Rewind(s, pindex.node.prev);
    }

    // The writes of `ConnectBlock`.  The metadata of the predecessor and its index entry are
    // always there, so the error returns of the source for them are not reached.
    method WriteConnected(pindex: Index, net: int, mint: int)
      requires Valid() && pindex.blockHash in s.tree && pindex == Index(pindex.blockHash, 0, s.tree[pindex.blockHash])
      requires pindex.node.prev == s.tip
      requires net == NetOutput(s.blocks[pindex.blockHash].vtx) && mint == Mint(s.blocks[pindex.blockHash])
      modifies this
      ensures Valid() && s == Connect(old(s), pindex.blockHash)
      ensures genesisNext == if old(s.tip) == s.genesis then pindex.blockHash else old(genesisNext)
    {
      hide Stores, Inv, Connect, WellFormed, NextOn, NetOutput, Mint;
      var hash := pindex.blockHash;
      StoredEntry(db, s, hash);
      StoredEntry(db, s, s.tip);
      StepUp(db, s, hash);
      ghost var s' := Connect(s, hash);
      var prevSupply :=
        if pindex.node.prev != 0 && pindex.node.height > 1 then db.meta[pindex.node.prev].moneySupply else 0;
      var index := db.index[hash := pindex];
      assert index == db.index;
      if pindex.node.prev != 0 {
        var prev := index[pindex.node.prev];
        index := index[prev.blockHash := prev.(hashNext := hash)];
        if prev.node.height == 0 {
          genesisNext := hash;
        }
      }
      db := db.(meta := db.meta[hash := Metadata(prevSupply + net, mint)], index := index,
                heights := db.heights[pindex.node.height := hash], best := hash);
      s := s';
    }

    // Puts a block on top of the main chain unless one of the checks before the first write fails.
    method ConnectBlock(pindex: Index, block: Block, rules: Rules) returns (ok: bool)
      requires Valid() && pindex.blockHash in s.tree && pindex == Index(pindex.blockHash, 0, s.tree[pindex.blockHash])
      requires pindex.node.prev == s.tip && block == s.blocks[pindex.blockHash]
      modifies this
      ensures Valid()
      ensures ok <==> Connectable(old(s), pindex.blockHash, rules)
      ensures s == if ok then Connect(old(s), pindex.blockHash) else old(s)
      ensures genesisNext == if ok && old(s.tip) == s.genesis then pindex.blockHash else old(genesisNext)
    {
      if !rules.valid(pindex.blockHash) || !CheckShape(block) {
        return false;
      }
      var within, net, mint := Account(block, rules.rewards);
      if !within {
        return false;
      }
      WriteConnected(pindex, net, mint);
      return true;
    }

    // The index entry of a block that the tree holds, as the database stores it.
    ghost predicate IsEntry(i: Index)
      reads this
    {
      i.blockHash in s.tree && i.node == s.tree[i.blockHash] && i.blockHash in db.index && i == db.index[i.blockHash]
    }

    method GetBestBlockIndex() returns (i: Index)
      requires Valid()
      ensures IsEntry(i) && i.blockHash == s.tip
    {
      StoredEntry(db, s, s.tip);
      i := db.index[db.best];
    }

    method GetPrev(i: Index) returns (prev: Index)
      requires Valid() && IsEntry(i) && i.blockHash != s.genesis
      ensures IsEntry(prev) && prev.blockHash == i.node.prev && prev.node.height == i.node.height - 1
    {
      StoredEntry(db, s, i.blockHash);
      StoredEntry(db, s, i.node.prev);
      prev := db.index[i.node.prev];
    }

    // Walks both chains down to their highest common block.
    method FindFork(pindexNew: Index) returns (pfork: Index)
      requires Valid() && IsEntry(pindexNew)
      ensures IsEntry(pfork) && pfork.blockHash == ForkBlock(s, pindexNew.blockHash)
    {
      hide Path, WellFormed, Inv, Stores, ForkBlock, NextOn, Fork;
      ghost var cand := pindexNew.blockHash;
      StoredEntry(db, s, s.tip);
      SelfAncestor(s.tree, s.genesis, s.tip);
      SelfAncestor(s.tree, s.genesis, cand);
      pfork := GetBestBlockIndex();
      var plonger := pindexNew;
      while pfork.blockHash != plonger.blockHash
        invariant IsEntry(pfork) && IsAncestor(s.tree, s.genesis, pfork.blockHash, s.tip)
        invariant IsEntry(plonger) && IsAncestor(s.tree, s.genesis, plonger.blockHash, cand)
        invariant pfork.node.height >= Fork(s, cand) - 1 && plonger.node.height >= Fork(s, cand) - 1
        decreases pfork.node.height + plonger.node.height
      {
        while plonger.node.height > pfork.node.height
          invariant IsEntry(plonger) && IsAncestor(s.tree, s.genesis, plonger.blockHash, cand)
          invariant plonger.node.height >= Fork(s, cand) - 1
          decreases plonger.node.height
        {
          ParentAncestor(s.tree, s.genesis, plonger.blockHash, cand);
          plonger := GetPrev(plonger);
        }
        if pfork.blockHash == plonger.blockHash {
          break;
        }
        AboveFork(s, cand, pfork.blockHash, plonger.blockHash);
        ParentAncestor(s.tree, s.genesis, pfork.blockHash, s.tip);
        pfork := GetPrev(pfork);
      }
      IsForkBlock(s, cand, pfork.blockHash);
    }

    // The index entries from `start` down to, but not including, its ancestor `stop`.
    method WalkBack(start: Index, stop: Hash) returns (list: seq<Index>)
      requires Valid() && IsEntry(start) && IsAncestor(s.tree, s.genesis, stop, start.blockHash)
      ensures stop in s.tree && s.tree[stop].height <= start.node.height
      ensures Entries(list, Trail(s.tree, s.genesis, start.blockHash, s.tree[stop].height))
    {
      hide Path, WellFormed, Inv, Stores, IsAncestor, NextOn, Trail;
      ghost var h := start.blockHash;
      StoredEntry(db, s, h);
      SelfAncestor(s.tree, s.genesis, h);
      AncestorAtHeight(s.tree, s.genesis, stop, h);
      list := [];
      var pindex := start;
      ghost var done: seq<Hash> := [];
      while pindex.blockHash != stop
        invariant IsEntry(pindex) && IsAncestor(s.tree, s.genesis, pindex.blockHash, h)
        invariant s.tree[stop].height <= pindex.node.height <= s.tree[h].height
        invariant Entries(list, done)
        invariant done + Trail(s.tree, s.genesis, pindex.blockHash, s.tree[stop].height)
                  == Trail(s.tree, s.genesis, h, s.tree[stop].height)
        decreases pindex.node.height
      {
        AncestorAtHeight(s.tree, s.genesis, pindex.blockHash, h);
        ParentAncestor(s.tree, s.genesis, pindex.blockHash, h);
        TrailStep(s.tree, s.genesis, pindex.blockHash, s.tree[stop].height);
        list, done := list + [pindex], done + [pindex.blockHash];
        pindex := GetPrev(pindex);
      }
      TrailStep(s.tree, s.genesis, stop, s.tree[stop].height);
      assert done + [] == done;
    }

    ghost predicate Entries(list: seq<Index>, hashes: seq<Hash>)
      reads this
    {
      |list| == |hashes| && forall k :: 0 <= k < |list| ==> list[k].blockHash == hashes[k] && IsEntry(list[k])
    }

    // Disconnects the listed blocks, tip first, down to the ancestor `f` of the tip.
    method DisconnectList(list: seq<Index>, ghost f: Hash)
      requires Valid() && f in s.tree && IsAncestor(s.tree, s.genesis, f, s.tip)
      requires s.tree[f].height <= s.tree[s.tip].height
      requires Entries(list, Trail(s.tree, s.genesis, s.tip, s.tree[f].height))
      modifies this
      ensures Valid() && s == Rewind(old(s), f)
      ensures genesisNext == if f == s.genesis && old(s.tip) != s.genesis then 0 else old(genesisNext)
    {
      hide Path, WellFormed, Inv, Stores, IsAncestor, NextOn, Trail;
      ghost var s0 := s;
      StoredEntry(db, s, f);
      ghost var p, low := Path(s.tree, s.genesis, s.tip), s.tree[f].height;
      AncestorAtHeight(s.tree, s.genesis, f, s.tip);
      assert p[|p| - 1] == s.tip;
      for k := 0 to |list|
        invariant Valid() && s == Rewind(s0, p[|p| - 1 - k])
        invariant genesisNext == if s.tip == s.genesis && k > 0 then 0 else old(genesisNext)
      {
        TrailAt(s0.tree, s0.genesis, s0.tip, low, k);
        PathSteps(s0.tree, s0.genesis, s0.tip, |p| - 2 - k);
        StoredEntry(db, s, s.tip);
        DisconnectBlock(list[k]);
      }
    }

    // Connects the listed blocks, lowest first; stops at the first one that fails.
    method ConnectList(list: seq<Index>, ghost s0: State, ghost cand: Hash, ghost lo: nat, rules: Rules)
      returns (ok: bool)
      requires Valid() && Inv(s0) && cand in s0.tree
      requires Fork(s0, cand) <= lo <= |NewPath(s0, cand)| && |list| == |NewPath(s0, cand)| - lo
      requires forall i :: 0 <= i < |list| ==> IsFreshEntry(list[i], s0, NewPath(s0, cand)[lo + i])
      requires s == Moved(s0, cand, lo)
      modifies this
      ensures Valid() && s == Moved(s0, cand, Advance(s0, NewPath(s0, cand), lo - 1, rules) + 1)
      ensures ok <==> s.tip == cand
      ensures FollowsTip(old(genesisNext), old(s.tip))
    {
      hide Path, WellFormed, Inv, Stores, NextOn, Connectable, Moved, Connect, Fork, NewPath, Advance;
      ghost var p := NewPath(s0, cand);
      for i := 0 to |list|
        invariant Valid() && s == Moved(s0, cand, lo + i)
        invariant forall j :: lo <= j < lo + i ==> Connectable(s0, p[j], rules)
        invariant FollowsTip(old(genesisNext), old(s.tip))
      {
        MovedStep(s0, cand, lo + i);
        var pindex := list[i];
        assert IsFreshEntry(pindex, s0, p[lo + i]);
        StoredEntry(db, s, pindex.blockHash);
        StoredEntry(db, s, s.genesis);
        ConnectableSame(s, s0, pindex.blockHash, rules);
        NextStep(s.tree, s.genesis, pindex.blockHash, s.genesis);
        var connected := ConnectBlock(pindex, db.blocks[pindex.blockHash], rules);
        if !connected {
          AdvanceIs(s0, p, lo - 1, lo + i - 1, rules);
          return false;
        }
      }
      AdvanceIs(s0, p, lo - 1, |p| - 1, rules);
      return true;
    }

    ghost predicate IsFreshEntry(i: Index, s0: State, h: Hash) {
      h in s0.tree && i == Index(h, 0, s0.tree[h])
    }

    // The in-memory genesis link follows the tip when the tip leaves the genesis block.
    ghost predicate FollowsTip(before: Hash, tip: Hash)
      requires Valid()
      reads this
    {
      genesisNext == if tip == s.genesis && s.tip != s.genesis then NextOn(s.tree, s.genesis, s.tip, s.genesis)
                     else before
    }

    // Finds the fork and lists what to disconnect, tip first, and what to connect, lowest first.
    method PlanReorganize(pindexNew: Index) returns (vDisconnect: seq<Index>, vConnect: seq<Index>)
      requires Valid() && IsEntry(pindexNew)
      ensures ForkBlock(s, pindexNew.blockHash) in s.tree
              && s.tree[ForkBlock(s, pindexNew.blockHash)].height <= s.tree[s.tip].height
      ensures Entries(vDisconnect, Trail(s.tree, s.genesis, s.tip, s.tree[ForkBlock(s, pindexNew.blockHash)].height))
      ensures |vConnect| == |NewPath(s, pindexNew.blockHash)| - Fork(s, pindexNew.blockHash)
      ensures forall i :: 0 <= i < |vConnect| ==>
                IsFreshEntry(vConnect[i], s, NewPath(s, pindexNew.blockHash)[Fork(s, pindexNew.blockHash) + i])
    {
      hide Path, WellFormed, Inv, Stores, NextOn, ForkBlock, Fork, NewPath, IsAncestor, Trail;
      ghost var cand := pindexNew.blockHash;
      StoredEntry(db, s, cand);
      ghost var c := Fork(s, cand);
      MovedToFork(s, cand);
      var pfork := FindFork(pindexNew);
      var bestIndex := GetBestBlockIndex();
      vDisconnect := WalkBack(bestIndex, pfork.blockHash);
      var down := WalkBack(pindexNew, pfork.blockHash);
      vConnect := seq(|down|, i requires 0 <= i < |down| => down[|down| - 1 - i]);
      forall i | 0 <= i < |vConnect| ensures IsFreshEntry(vConnect[i], s, NewPath(s, cand)[c + i]) {
        ForkTrails(s, cand, i);
        OffMainChain(s, cand, c + i);
        StoredEntry(db, s, NewPath(s, cand)[c + i]);
      }
    }

    // Leaves the main chain at the highest common block and moves over to the path of `pindexNew`.
    method Reorganize(pindexNew: Index, rules: Rules) returns (ok: bool)
      requires Valid() && IsEntry(pindexNew)
      modifies this
      ensures Valid()
      ensures var s0, cand := old(s), pindexNew.blockHash;
              s == Moved(s0, cand, Advance(s0, NewPath(s0, cand), Fork(s0, cand) - 1, rules) + 1)
      ensures ok <==> s.tip == pindexNew.blockHash
      ensures ReorganizedLink(old(genesisNext), old(s.tip), ForkBlock(old(s), pindexNew.blockHash))
    {
      hide Path, WellFormed, Inv, Stores, NextOn, Moved, Connect, ForkBlock, Fork, NewPath, Advance, IsAncestor, Trail;
      ghost var s0, cand := s, pindexNew.blockHash;
      StoredEntry(db, s, s.genesis);
      MovedToFork(s, cand);
      TipLink(s.tree, s.genesis, s.genesis);
      var vDisconnect, vConnect := PlanReorganize(pindexNew);
      DisconnectList(vDisconnect, ForkBlock(s, cand));
      ok := ConnectList(vConnect, s0, cand, Fork(s0, cand), rules);
    }

    // What the in-memory genesis link is after a move that left the main chain at `f`.
    ghost predicate ReorganizedLink(before: Hash, tip: Hash, f: Hash)
      requires Valid()
      reads this
    {
      genesisNext == if f == s.genesis && (tip != s.genesis || s.tip != s.genesis)
                     then NextOn(s.tree, s.genesis, s.tip, s.genesis) else before
    }

    // The blocks above the first one that beats the best chain are connected after the
    // reorganisation: walks back from `pindexNew` to that block, listing the ones passed.
    method Postpone(pindexNew: Index) returns (pivot: Index, secondary: seq<Index>)
      requires Valid() && IsEntry(pindexNew) && pindexNew.node.trust > s.tree[s.tip].trust
      ensures var p, k := NewPath(s, pindexNew.blockHash), Pivot(s, pindexNew.blockHash);
              && IsEntry(pivot) && pivot.blockHash == p[k]
              && |secondary| == |p| - 1 - k
              && forall i :: 0 <= i < |secondary| ==> IsEntry(secondary[i]) && secondary[i].blockHash == p[|p| - 1 - i]
    {
      hide Path, WellFormed, Inv, Stores, NextOn, NewPath, PivotFrom;
      ghost var cand := pindexNew.blockHash;
      StoredEntry(db, s, cand);
      ghost var p := NewPath(s, cand);
      pivot, secondary := pindexNew, [];
      var bestIndex := GetBestBlockIndex();
      var bestChainTrust := bestIndex.node.trust;
      while pivot.node.prev != 0
        invariant IsEntry(pivot) && pivot.node.height < |p| && pivot.blockHash == p[pivot.node.height]
        invariant |secondary| == |p| - 1 - pivot.node.height
        invariant forall i :: 0 <= i < |secondary| ==> IsEntry(secondary[i]) && secondary[i].blockHash == p[|p| - 1 - i]
        invariant PivotFrom(s.tree, p, bestChainTrust, pivot.node.height) == Pivot(s, cand)
        decreases pivot.node.height
      {
        StoredEntry(db, s, pivot.blockHash);
        NewPathStep(s, cand, pivot.node.height);
        var prev := GetPrev(pivot);
        if prev.node.trust <= bestChainTrust {
          break;
        }
        secondary := secondary + [pivot];
        pivot := prev;
      }
      StoredEntry(db, s, pivot.blockHash);
      NewPathStep(s, cand, pivot.node.height);
    }

    // Makes the chain of `pindexNew` the best chain, as far as its blocks connect.
    method SetBestChain(pindexNew: Index, rules: Rules) returns (ok: bool)
      requires Valid() && IsEntry(pindexNew) && pindexNew.node.trust > s.tree[s.tip].trust
      modifies this
      ensures Valid()
      ensures ok <==> CanSwitch(old(s), pindexNew.blockHash, rules)
      ensures ok ==> s == Switched(old(s), pindexNew.blockHash, rules)
      ensures !ok ==> s.tip == Stopped(old(s), pindexNew.blockHash, rules)
      ensures s.tree == old(s.tree) && s.genesis == old(s.genesis)
      ensures ReorganizedLink(old(genesisNext), old(s.tip), ForkBlock(old(s), pindexNew.blockHash))
    {
      hide Path, WellFormed, Inv, Stores, NextOn, Moved, Connect, ForkBlock, Fork, NewPath, Advance, Connectable;
      hide CanSwitch;
      StoredEntry(db, s, s.tip);
      if pindexNew.node.prev == db.best {
        ok := Extend(pindexNew, rules);
      } else {
        ok := SwitchBranch(pindexNew, rules);
      }
    }

    // The new block sits on the tip.
    method Extend(pindexNew: Index, rules: Rules) returns (ok: bool)
      requires Valid() && IsEntry(pindexNew) && pindexNew.node.trust > s.tree[s.tip].trust
      requires pindexNew.node.prev == s.tip
      modifies this
      ensures Valid()
      ensures ok <==> CanSwitch(old(s), pindexNew.blockHash, rules)
      ensures s == if ok then Switched(old(s), pindexNew.blockHash, rules) else old(s)
      ensures !ok ==> s.tip == Stopped(old(s), pindexNew.blockHash, rules)
      ensures ReorganizedLink(old(genesisNext), old(s.tip), ForkBlock(old(s), pindexNew.blockHash))
    {
      hide Path, WellFormed, Inv, Stores, NextOn, Connect, ForkBlock, Fork, NewPath, Connectable, CanSwitch, Switched;
      ghost var cand := pindexNew.blockHash;
      StoredEntry(db, s, cand);
      StoredEntry(db, s, s.genesis);
      ExtensionSwitch(s, cand, rules);
      StepUp(db, s, cand);
      NextStep(s.tree, s.genesis, cand, s.genesis);
      ok := ConnectBlock(pindexNew, db.blocks[pindexNew.blockHash], rules);
    }

    // The pivot of a switch and the postponed blocks, lowest first.
    method PlanSwitch(pindexNew: Index) returns (pivot: Index, later: seq<Index>)
      requires Valid() && IsEntry(pindexNew) && pindexNew.node.trust > s.tree[s.tip].trust
      ensures IsEntry(pivot) && pivot.blockHash == NewPath(s, pindexNew.blockHash)[Pivot(s, pindexNew.blockHash)]
      ensures |later| == |NewPath(s, pindexNew.blockHash)| - 1 - Pivot(s, pindexNew.blockHash)
      ensures forall i :: 0 <= i < |later| ==>
                IsFreshEntry(later[i], s, NewPath(s, pindexNew.blockHash)[Pivot(s, pindexNew.blockHash) + 1 + i])
    {
      hide Path, WellFormed, Inv, Stores, NextOn, NewPath, Pivot, Fork, IsAncestor;
      ghost var cand := pindexNew.blockHash;
      StoredEntry(db, s, cand);
      ForkBelowPivot(s, cand);
      var secondary: seq<Index>;
      pivot, secondary := Postpone(pindexNew);
      later := seq(|secondary|, i requires 0 <= i < |secondary| => secondary[|secondary| - 1 - i]);
      forall i | 0 <= i < |later| ensures IsFreshEntry(later[i], s, NewPath(s, cand)[Pivot(s, cand) + 1 + i]) {
        OffMainChain(s, cand, Pivot(s, cand) + 1 + i);
        StoredEntry(db, s, NewPath(s, cand)[Pivot(s, cand) + 1 + i]);
      }
    }

    // The reorganisation proper, seen from the block at the end of the new branch.
    method SwitchToPivot(pivot: Index, ghost cand: Hash, rules: Rules) returns (ok: bool)
      requires Valid() && cand in s.tree && s.tree[cand].trust > s.tree[s.tip].trust
      requires IsEntry(pivot) && pivot.blockHash == NewPath(s, cand)[Pivot(s, cand)]
      modifies this
      ensures Valid() && s.tree == old(s.tree) && s.genesis == old(s.genesis)
      ensures ok <==> CanSwitch(old(s), cand, rules)
      ensures ok ==> Fork(old(s), cand) <= Pivot(old(s), cand) && s == Moved(old(s), cand, Pivot(old(s), cand) + 1)
      ensures !ok ==> s.tip == Stopped(old(s), cand, rules)
      ensures ReorganizedLink(old(genesisNext), old(s.tip), ForkBlock(old(s), cand))
    {
      hide Path, WellFormed, Inv, Stores, NextOn, Moved, ForkBlock, Fork, NewPath, Advance, CanSwitch, Pivot;
      StoredEntry(db, s, cand);
      SwitchDecided(s, cand, rules);
      ok := Reorganize(pivot, rules);
    }

    // Connects the postponed blocks as far as they go; the genesis block is not left again.
    method ConnectPostponed(later: seq<Index>, ghost s0: State, ghost cand: Hash, rules: Rules)
      requires Valid() && Inv(s0) && cand in s0.tree && s0.tree[cand].trust > s0.tree[s0.tip].trust
      requires Fork(s0, cand) <= Pivot(s0, cand) && s == Moved(s0, cand, Pivot(s0, cand) + 1)
      requires |later| == |NewPath(s0, cand)| - 1 - Pivot(s0, cand)
      requires forall i :: 0 <= i < |later| ==> IsFreshEntry(later[i], s0, NewPath(s0, cand)[Pivot(s0, cand) + 1 + i])
      modifies this
      ensures Valid() && s == Switched(s0, cand, rules)
      ensures Inv(s0) && s0.genesis in s0.tree && WellFormed(s0.tree, s0.genesis)
      ensures genesisNext == old(genesisNext) && s.tip != s0.genesis
      ensures old(s.tip) != s0.genesis && old(s.tip) in s0.tree
      ensures NextOn(s0.tree, s0.genesis, s.tip, s0.genesis) == NextOn(s0.tree, s0.genesis, old(s.tip), s0.genesis)
    {
      hide Path, WellFormed, Inv, Stores, NextOn, Moved, ForkBlock, Fork, NewPath, Advance, Pivot, Switched;
      SwitchedIs(s0, cand, rules);
      var _ := ConnectList(later, s0, cand, Pivot(s0, cand) + 1, rules);
    }

    // The new block is on another branch: reorganise to the first block that beats the best
    // chain, then connect the postponed ones; a failure among those is not an error.
    method SwitchBranch(pindexNew: Index, rules: Rules) returns (ok: bool)
      requires Valid() && IsEntry(pindexNew) && pindexNew.node.trust > s.tree[s.tip].trust
      modifies this
      ensures Valid()
      ensures ok <==> CanSwitch(old(s), pindexNew.blockHash, rules)
      ensures ok ==> s == Switched(old(s), pindexNew.blockHash, rules)
      ensures !ok ==> s.tip == Stopped(old(s), pindexNew.blockHash, rules)
      ensures s.tree == old(s.tree) && s.genesis == old(s.genesis)
      ensures ReorganizedLink(old(genesisNext), old(s.tip), ForkBlock(old(s), pindexNew.blockHash))
    {
      hide Path, WellFormed, Inv, Stores, NextOn, Moved, ForkBlock, Fork, NewPath, Advance, CanSwitch, Pivot;
      hide Switched, Stopped;
      ghost var s0, cand := s, pindexNew.blockHash;
      StoredEntry(db, s, cand);
      var pivot, later := PlanSwitch(pindexNew);
      ok := SwitchToPivot(pivot, cand, rules);
      if ok {
        ConnectPostponed(later, s0, cand, rules);
      }
    }

    // Indexes a block already written to the block table and moves the best chain if it beats it.
    method AddToBlockIndex(r: Request) returns (ok: bool)
      requires Stores(db.(blocks := s.blocks), s) && db.blocks == s.blocks[r.hash := r.block] && Offered(s, r)
      modifies this
      ensures ok <==> Step(old(s), r).1
      ensures Inv(old(s))
      ensures ok <==> r.hash !in old(db.index) && r.accepted && (Outweighs(old(s), r) ==> !Hindered(old(s), r))
      ensures ok ==> Valid() && s == Step(old(s), r).0
      ensures genesisNext == GenesisLinkAfter(old(s), r, old(genesisNext))
    {
      hide WellFormed, Inv, Stores, NextOn, Path, ForkBlock, CanSwitch, Switched, NewPath, Fork, Advance;
      hide Hindered, Outweighs, Step, GenesisLinkAfter, Stopped;
      ghost var s0, link := s, genesisNext;
      StoredEntry(db.(blocks := s.blocks), s, r.hash);
      OfferDecided(s, r);
      StoredEntry(db.(blocks := s.blocks), s, r.block.hashPrev);
      StoredEntry(db.(blocks := s.blocks), s, s.tip);
      if r.hash in db.index || !r.accepted {
        StepStill(s0, r, link);
        return false;
      }
      var prev := db.index[r.block.hashPrev];
      var node := Node(r.block.hashPrev, prev.node.height + 1, prev.node.trust + r.blockTrust, r.head);
      var pindexNew := Index(r.hash, 0, node);
      StoreIndexed(db, s, r);
      db := db.(index := db.index[r.hash := pindexNew]);
      s := Indexed(s, r);
      StoredEntry(db, s, r.hash);
      StoredEntry(db, s, s.tip);
      ok := true;
      if node.trust > db.index[db.best].node.trust {
        ok := SetBestChain(pindexNew, r.rules);
        StoredEntry(db, s, s.tip);
        StepMoves(s0, r, s, ok, link);
      } else {
        StepStill(s0, r, link);
      }
    }

    // Writes a block inside one database transaction.
    method WriteToDisk(r: Request) returns (ok: bool)
      requires Valid() && Offered(s, r)
      modifies this
      ensures Valid() && (s, ok) == Step(old(s), r)
      ensures Inv(old(s)) && Inv(s)
      ensures ok <==> r.hash !in old(db.index) && r.accepted && (Outweighs(old(s), r) ==> !Hindered(old(s), r))
      ensures ok ==> EntryAdded(old(db), db, r)
      ensures ok && !Outweighs(old(s), r) ==> OnlyIndexed(old(db), db, r)
      ensures ok && Outweighs(old(s), r) ==>
                r.hash in s.tree && old(s.tip) in s.tree && Reached(s, old(s.tip), r)
      ensures !ok ==> db == old(db)
      ensures genesisNext == GenesisLinkAfter(old(s), r, old(genesisNext))
    {
      hide Inv, Stores, Step, GenesisLinkAfter, Hindered, Outweighs, Reached, EntryAdded, OnlyIndexed;
      var snapshot := db;
      ghost var s0 := s;
      StoredEntry(db, s, s.tip);
      StoredEntry(db, s, r.hash);
      OfferDecided(s, r);
      db := db.(blocks := db.blocks[r.hash := r.block]);
      assert db.(blocks := s.blocks) == snapshot;
      ok := AddToBlockIndex(r);
      if !ok {
        RefusedKeeps(s0, r);
        db := snapshot;
        s := s0;
      } else {
        TakenIsAdded(snapshot, db, s0, r);
        if Outweighs(s0, r) {
          OfferReaches(s0, r);
        }
      }
    }
  }
}
