/**
 Block locators: a short list of main-chain blocks, dense near the start and ever sparser
 further back, from which a peer finds the last block it shares.
 */
module Locator {
  import opened Wrappers
  import opened BlockTree
  import opened ChainState
  import opened Numerals

  // How far back the `k`-th entry is: one by one up to 10, then doubling.
  function Back(k: nat): nat { if k <= 10 then k else 8 + Pow(2, k - 9) }

  function Stride(k: nat): nat { if k < 10 then 1 else Pow(2, k - 9) }

  lemma BackStep(k: nat)
    ensures Back(k + 1) == Back(k) + Stride(k)
    ensures k >= 10 ==> Back(k) == 8 + Stride(k) && Stride(k + 1) == 2 * Stride(k)
  {
    assert k == 10 ==> Pow(2, 2) == 2 * Pow(2, 1) && Pow(2, 1) == 2 * Pow(2, 0);
  }

  // Offsets go one by one up to the tenth entry; from there every gap is twice the one before.
  lemma OffsetsDouble(k: nat)
    ensures k <= 10 ==> Back(k) == k
    ensures k >= 10 ==> Back(k + 1) - Back(k) == 2 * if k == 10 then 1 else Back(k) - Back(k - 1)
  {
    BackStep(k);
    if k > 10 {
      BackStep(k - 1);
    }
    assert k == 10 ==> Pow(2, 1) == 2 * Pow(2, 0);
  }

  // `n` is the last entry that does not go below the genesis block.
  ghost predicate Reaches(height: nat, n: nat) { Back(n) <= height < Back(n + 1) }

  // The blocks of the path at the heights of the first `n + 1` entries ...
  ghost predicate Entries(have: seq<Hash>, path: seq<Hash>, n: nat) {
    |have| == n + 1 && forall k :: 0 <= k <= n ==> Back(k) <= |path| - 1 && have[k] == path[|path| - 1 - Back(k)]
  }

  // ... and the genesis block.
  ghost predicate IsLocator(vHave: seq<Hash>, path: seq<Hash>, n: nat) {
    && path != [] && Reaches(|path| - 1, n) && |vHave| == n + 2 && vHave[n + 1] == path[0]
    && Entries(vHave[..n + 1], path, n)
  }

  // The entry at height `height - Back(n)` of the path of `h`, where the walk back ends.
  ghost function LastStop(s: State, h: Hash, n: nat): Hash
    requires WellFormed(s.tree, s.genesis) && h in s.tree && Reaches(s.tree[h].height, n)
  {
    Path(s.tree, s.genesis, h)[s.tree[h].height - Back(n)]
  }

  // Walks back `step` entries, or past the genesis block.
  method StepBack(db: Db, h: Hash, step: nat, ghost s: State) returns (r: Option<Hash>)
    requires Stores(db, s) && h in s.tree
    ensures WellFormed(s.tree, s.genesis)
    ensures r == if step <= s.tree[h].height then Some(Path(s.tree, s.genesis, h)[s.tree[h].height - step]) else None
  {
    hide Stores, Inv, Path, NextOn;
    StoredEntry(db, s, h);
    ghost var path := Path(s.tree, s.genesis, h);
    r := Some(h);
    var i := 0;
    while r.Some? && i < step
      invariant i <= step && (r.Some? <==> i <= s.tree[h].height)
      invariant r.Some? ==> r.value in s.tree && r.value == path[s.tree[h].height - i]
    {
      StoredEntry(db, s, r.value);
      if i < s.tree[h].height {
        PathSteps(s.tree, s.genesis, h, s.tree[h].height - i - 1);
      }
      var prev := db.index[r.value].node.prev;
      r := if prev != 0 then Some(prev) else None;
      i := i + 1;
    }
  }

  // The locator of a block.  Off the main chain the walk may go past the genesis block, and then
  // there is none: exactly if the last entry it would reach is not in the main chain.
  method Set(db: Db, genesisHash: Hash, h: Hash, ghost s: State) returns (vHave: Option<seq<Hash>>, ghost n: nat)
    requires Stores(db, s) && genesisHash == s.genesis && h in s.tree
    ensures WellFormed(s.tree, s.genesis) && s.tip in s.tree && Reaches(s.tree[h].height, n)
    ensures vHave.Some? <==> IsAncestor(s.tree, s.genesis, LastStop(s, h, n), s.tip)
    ensures vHave.Some? ==> IsLocator(vHave.value, Path(s.tree, s.genesis, h), n)
    ensures vHave.Some? ==> exists k: nat :: IsLocator(vHave.value, Path(s.tree, s.genesis, h), k)
  {
    hide Stores, Inv, Back, Stride, IsAncestor, Path, NextOn, IsInMainChain, Entries, IsLocator;
    StoredEntry(db, s, h);
    ghost var path := Path(s.tree, s.genesis, h);
    EntriesStart(path);
    var have, step, index := [h], 1, h;
    n := 0;
    while true
      invariant step == Stride(n) && |have| == n + 1 && index in s.tree
      invariant Entries(have, path, n) && Back(n) <= |path| - 1 && index == path[|path| - 1 - Back(n)]
      decreases |path| - Back(n)
    {
      Stop(db, s, h, |path| - 1 - Back(n));
      BackStep(n);
      StridePositive(n);
      if !IsInMainChain(db.index[index], db.best) {
        var prev := StepBack(db, index, step, s);
        if prev.None? {
          return None, n;
        }
        index := prev.value;
      } else {
        var height := db.index[index].node.height;
        if height < step {
          break;
        }
        OnPath(db, s, index, height - step);
        index := db.heights[height - step];
      }
      EntriesNext(have, path, n, index);
      have := have + [index];
      if |have| > 10 {
        step := step * 2;
      }
      n := n + 1;
    }
    vHave := Some(have + [genesisHash]);
    EntriesEnd(have, path, n, genesisHash);
  }

  lemma EntriesStart(path: seq<Hash>)
    requires path != []
    ensures Entries([path[|path| - 1]], path, 0) && Back(0) == 0 && Stride(0) == 1
  {
  }

  lemma EntriesNext(have: seq<Hash>, path: seq<Hash>, n: nat, h: Hash)
    requires Entries(have, path, n) && Back(n + 1) < |path| && h == path[|path| - 1 - Back(n + 1)]
    ensures Entries(have + [h], path, n + 1)
  {
  }

  lemma EntriesEnd(have: seq<Hash>, path: seq<Hash>, n: nat, genesis: Hash)
    requires Entries(have, path, n) && path != [] && Reaches(|path| - 1, n) && genesis == path[0]
    ensures IsLocator(have + [genesis], path, n)
  {
    hide Back;
  }

  // A block on the way back: the path of `h` goes through it, and the main-chain test decides
  // whether the main chain does.
  lemma Stop(db: Db, s: State, h: Hash, i: nat)
    requires Stores(db, s) && h in s.tree && i <= s.tree[h].height
    ensures WellFormed(s.tree, s.genesis) && s.tip in s.tree
    ensures var path := Path(s.tree, s.genesis, h);
            && path[i] in db.index && path[0] == s.genesis && db.index[path[i]].node.height == i
            && Path(s.tree, s.genesis, path[i]) == path[..i + 1]
            && (IsInMainChain(db.index[path[i]], db.best) <==> IsAncestor(s.tree, s.genesis, path[i], s.tip))
  {
    hide NextOn;
    StoredEntry(db, s, h);
    PathPrefix(s.tree, s.genesis, h, i);
    var x := Path(s.tree, s.genesis, h)[i];
    StoredEntry(db, s, x);
    InMainChainIffAncestor(s.tree, s.genesis, s.tip, x);
  }

  // A start that shares about half of its path with the main chain always has a locator.
  lemma ShallowForkHasLocator(s: State, h: Hash, n: nat)
    requires WellFormed(s.tree, s.genesis) && s.tip in s.tree && h in s.tree && Reaches(s.tree[h].height, n)
    requires s.tree[h].height <= 2 * (ForkLength(s.tree, s.genesis, h, s.tip) - 1) + 8
    ensures IsAncestor(s.tree, s.genesis, LastStop(s, h, n), s.tip)
  {
    hide Back, Stride;
    var x := LastStop(s, h, n);
    assert IsAncestor(s.tree, s.genesis, x, h);
    BackStep(n);
    ShortBack(n);
    CommonAncestors(s.tree, s.genesis, h, s.tip, x);
  }

  lemma ShortBack(n: nat)
    ensures n < 10 ==> Back(n + 1) == Back(n) + 1
  {
  }

  // A fork of eleven blocks that leaves the main chain at the genesis block has none.
  lemma LongForkHasNone(s: State, h: Hash)
    requires WellFormed(s.tree, s.genesis) && s.tip in s.tree && h in s.tree && s.tree[h].height == 11
    requires ForkLength(s.tree, s.genesis, h, s.tip) == 1
    ensures Reaches(11, 10) && !IsAncestor(s.tree, s.genesis, LastStop(s, h, 10), s.tip)
  {
    assert Pow(2, 2) == 2 * Pow(2, 1) && Pow(2, 1) == 2 * Pow(2, 0);
    var x := LastStop(s, h, 10);
    assert IsAncestor(s.tree, s.genesis, x, h);
    CommonAncestors(s.tree, s.genesis, h, s.tip, x);
  }

  lemma BackZero()
    ensures Back(0) == 0 && Stride(0) == 1
  {
  }

  lemma StridePositive(k: nat)
    ensures Stride(k) > 0
    ensures k < 9 ==> Stride(k + 1) == Stride(k)
    ensures k == 9 ==> Stride(k + 1) == 2 * Stride(k)
  {
    assert Pow(2, 1) == 2 * Pow(2, 0);
  }

  // The blocks below a main-chain block are those the height map lists.
  lemma OnPath(db: Db, s: State, h: Hash, i: nat)
    requires Stores(db, s) && h in s.tree && IsAncestor(s.tree, s.genesis, h, s.tip) && i <= s.tree[h].height
    ensures i in db.heights && db.heights[i] == Path(s.tree, s.genesis, h)[i]
    ensures db.heights[i] in s.tree && db.heights[i] in db.index && db.index[db.heights[i]].node.height == i
    ensures Path(s.tree, s.genesis, h)[0] == s.genesis
  {
    hide NextOn;
    StoredEntry(db, s, h);
    AncestorAtHeight(s.tree, s.genesis, h, s.tip);
  }

  // The number of entries is logarithmic in the height.
  lemma LocatorIsShort(vHave: seq<Hash>, path: seq<Hash>, n: nat)
    requires IsLocator(vHave, path, n)
    ensures |vHave| <= 11 || 8 + Pow(2, |vHave| - 11) <= |path| - 1
  {
    assert n == 10 ==> Pow(2, 1) == 2 * Pow(2, 0);
  }

  // ---------- finding the shared block ----------

  // The first entry that is in the main chain of `db`.
  method GetBlockIndex(db: Db, vHave: seq<Hash>, genesis: Index) returns (bi: Index, ghost at: nat)
    ensures IsFirstInMain(db, vHave, at)
    ensures at < |vHave| ==> bi == db.index[vHave[at]]
    ensures bi == genesis || exists k :: 0 <= k < |vHave| && IsFirstInMain(db, vHave, k) && bi == db.index[vHave[k]]
    ensures (forall h :: h in vHave ==> !InMain(db, h)) ==> bi == genesis
  {
    for k := 0 to |vHave|
      invariant forall j :: 0 <= j < k ==> !InMain(db, vHave[j])
    {
      if vHave[k] in db.index {
        var found := db.index[vHave[k]];
        if IsInMainChain(found, db.best) {
          return found, k;
        }
      }
    }
    return genesis, |vHave|;
  }

  ghost predicate IsFirstInMain(db: Db, vHave: seq<Hash>, at: nat) {
    && at <= |vHave| && (forall j :: 0 <= j < at ==> !InMain(db, vHave[j]))
    && (at < |vHave| ==> InMain(db, vHave[at]))
  }

  predicate InMain(db: Db, h: Hash) { h in db.index && IsInMainChain(db.index[h], db.best) }

  // The peer shares the path up to height `f` and no further.
  ghost predicate SharesUpTo(db: Db, path: seq<Hash>, f: nat) {
    f < |path| && forall i :: 0 <= i < |path| ==> (InMain(db, path[i]) <==> i <= f)
  }

  // What the peer finds is the last shared block, or overshoots it by less than the
  // distance from the start to the last shared block.
  lemma FoundIsClose(db: Db, vHave: seq<Hash>, path: seq<Hash>, n: nat, f: nat, at: nat)
    requires IsLocator(vHave, path, n) && SharesUpTo(db, path, f)
    requires IsFirstInMain(db, vHave, at)
    ensures at < |vHave|
    ensures var h := |path| - 1; exists g: nat :: g <= f && vHave[at] == path[g] && (g == f || f - g < h - f)
  {
    hide Back, Stride, InMain;
    var h := |path| - 1;
    assert InMain(db, path[0]) && vHave[n + 1] == path[0];
    if at <= n {
      var g := h - Back(at);
      BackZero();
      if at > 0 {
        assert !InMain(db, vHave[at - 1]);
        Overshoot(at - 1, h - f, Back(at));
      }
      assert vHave[at] == path[g];
    } else {
      assert !InMain(db, vHave[n]);
      Overshoot(n, h - f, h);
      assert vHave[at] == path[0];
    }
  }

  // Between two entries there is less than what lies before them.
  lemma Overshoot(k: nat, d: nat, b: nat)
    requires Back(k) < d <= b && b <= Back(k + 1)
    ensures b == d || b - d < d
  {
    hide Back, Stride;
    BackStep(k);
    ShortStride(k);
  }

  lemma ShortStride(k: nat)
    ensures k < 10 ==> Stride(k) == 1
  {
  }
}
