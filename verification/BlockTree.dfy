/**
 The block tree and the paths in it.

 Every indexed block has one predecessor, so a block determines one path from the
 genesis block up to itself.  The main chain is the path of the best block.
 */
module BlockTree {

  // Block and transaction ids.  The null hash of the source is 0.
  type Hash = nat

  // The part of a block's header and index entry that never changes once it is indexed.
  datatype Header = Header(time: nat, proofOfStake: bool, entropyBit: bool, hashProof: Hash,
                           stakeModifier: nat, generatedModifier: bool)

  // An index entry without its mutable `hashNext` link.
  datatype Node = Node(prev: Hash, height: nat, trust: nat, head: Header)

  type Tree = map<Hash, Node>

  predicate WellFormed(t: Tree, genesis: Hash) {
    && 0 !in t
    && genesis in t
    && t[genesis].prev == 0
    && t[genesis].height == 0
    && forall h {:trigger LinkedBack(t, h)} :: h in t && h != genesis ==> LinkedBack(t, h)
  }

  // `h` has an indexed predecessor, one lower and no more trusted.
  predicate LinkedBack(t: Tree, h: Hash)
    requires h in t
  {
    && t[h].prev in t
    && t[h].height == t[t[h].prev].height + 1
    && t[t[h].prev].trust <= t[h].trust
  }

  // The path from the genesis block to `h`, both included.
  function Path(t: Tree, genesis: Hash, h: Hash): (p: seq<Hash>)
    requires WellFormed(t, genesis) && h in t
    ensures |p| == t[h].height + 1
    ensures p[0] == genesis && p[|p| - 1] == h
    ensures forall i :: 0 <= i < |p| ==> p[i] in t && t[p[i]].height == i
    decreases t[h].height
  {
    if h == genesis then [h] else assert LinkedBack(t, h); Path(t, genesis, t[h].prev) + [h]
  }

  // Each block of a path is the predecessor of the next one.
  lemma {:induction false} PathSteps(t: Tree, genesis: Hash, h: Hash, i: nat)
    requires WellFormed(t, genesis) && h in t
    requires i + 1 < |Path(t, genesis, h)|
    ensures t[Path(t, genesis, h)[i + 1]].prev == Path(t, genesis, h)[i]
    decreases t[h].height
  {
    assert LinkedBack(t, h);
    if i + 1 < t[h].height {
      PathSteps(t, genesis, t[h].prev, i);
    }
  }

  // A prefix of a path is the path of its last block.
  lemma {:induction false} PathPrefix(t: Tree, genesis: Hash, h: Hash, i: nat)
    requires WellFormed(t, genesis) && h in t
    requires i < |Path(t, genesis, h)|
    ensures Path(t, genesis, Path(t, genesis, h)[i]) == Path(t, genesis, h)[..i + 1]
    decreases t[h].height
  {
    if i < t[h].height {
      assert LinkedBack(t, h);
      PathPrefix(t, genesis, t[h].prev, i);
    }
  }

  // Trust never falls along a path.
  lemma {:induction false} PathTrust(t: Tree, genesis: Hash, h: Hash, i: nat, j: nat)
    requires WellFormed(t, genesis) && h in t
    requires i <= j < |Path(t, genesis, h)|
    ensures t[Path(t, genesis, h)[i]].trust <= t[Path(t, genesis, h)[j]].trust
    decreases j - i
  {
    if i < j {
      PathTrust(t, genesis, h, i, j - 1);
      PathSteps(t, genesis, h, j - 1);
      assert LinkedBack(t, Path(t, genesis, h)[j]);
    }
  }

  // `a` is `h` or one of its ancestors.
  predicate IsAncestor(t: Tree, genesis: Hash, a: Hash, h: Hash)
    requires WellFormed(t, genesis) && h in t
  {
    a in Path(t, genesis, h)
  }

  // An ancestor sits at the index given by its height.
  lemma AncestorAtHeight(t: Tree, genesis: Hash, a: Hash, h: Hash)
    requires WellFormed(t, genesis) && h in t && IsAncestor(t, genesis, a, h)
    ensures a in t && t[a].height <= t[h].height
    ensures Path(t, genesis, h)[t[a].height] == a
    ensures Path(t, genesis, a) == Path(t, genesis, h)[..t[a].height + 1]
  {
    PathPrefix(t, genesis, h, t[a].height);
  }

  lemma SelfAncestor(t: Tree, genesis: Hash, h: Hash)
    requires WellFormed(t, genesis) && h in t
    ensures IsAncestor(t, genesis, h, h)
  {
    assert Path(t, genesis, h)[t[h].height] == h;
  }

  // The predecessor of an ancestor is an ancestor.
  lemma ParentAncestor(t: Tree, genesis: Hash, a: Hash, h: Hash)
    requires WellFormed(t, genesis) && h in t && IsAncestor(t, genesis, a, h)
    ensures a in t && (t[a].height > 0 ==>
              && t[a].prev != 0 && t[a].prev in t && t[t[a].prev].height == t[a].height - 1
              && IsAncestor(t, genesis, t[a].prev, h))
  {
    AncestorAtHeight(t, genesis, a, h);
    if t[a].height > 0 {
      PathSteps(t, genesis, h, t[a].height - 1);
    }
  }

  // The blocks from `h` down to, but not including, height `low`.
  ghost function Trail(t: Tree, genesis: Hash, h: Hash, low: nat): (list: seq<Hash>)
    requires WellFormed(t, genesis) && h in t && low <= t[h].height
    ensures |list| == t[h].height - low
    decreases t[h].height
  {
    if t[h].height == low then [] else
      assert LinkedBack(t, h);
      [h] + Trail(t, genesis, t[h].prev, low)
  }

  lemma TrailStep(t: Tree, genesis: Hash, h: Hash, low: nat)
    requires WellFormed(t, genesis) && h in t && low <= t[h].height
    ensures t[h].height == low ==> Trail(t, genesis, h, low) == []
    ensures t[h].height > low ==>
              && t[h].prev in t && t[t[h].prev].height == t[h].height - 1
              && Trail(t, genesis, h, low) == [h] + Trail(t, genesis, t[h].prev, low)
  {
    assert t[h].height > low ==> LinkedBack(t, h);
  }

  lemma {:induction false} TrailAt(t: Tree, genesis: Hash, h: Hash, low: nat, k: nat)
    requires WellFormed(t, genesis) && h in t && low <= t[h].height
    requires k < t[h].height - low
    ensures Trail(t, genesis, h, low)[k] == Path(t, genesis, h)[t[h].height - k]
    decreases t[h].height
  {
    assert LinkedBack(t, h);
    if k > 0 {
      TrailAt(t, genesis, t[h].prev, low, k - 1);
    }
  }

  // The number of leading blocks two sequences share.
  function Shared(a: seq<Hash>, b: seq<Hash>): (n: nat)
    ensures n <= |a| && n <= |b|
    ensures a[..n] == b[..n]
    ensures n < |a| && n < |b| ==> a[n] != b[n]
  {
    if a == [] || b == [] || a[0] != b[0] then 0
    else
      var n := Shared(a[1..], b[1..]);
      assert a[..n + 1] == [a[0]] + a[1..][..n];
      assert b[..n + 1] == [b[0]] + b[1..][..n];
      n + 1
  }

  // The number of blocks on the path to the lowest common ancestor of `a` and `b`.
  function ForkLength(t: Tree, genesis: Hash, a: Hash, b: Hash): (n: nat)
    requires WellFormed(t, genesis) && a in t && b in t
    ensures 1 <= n <= t[a].height + 1 && n <= t[b].height + 1
  {
    var n := Shared(Path(t, genesis, a), Path(t, genesis, b));
    assert Path(t, genesis, a)[0] == Path(t, genesis, b)[0];
    n
  }

  // Agreement on the first `k` blocks is counted by `Shared`.
  lemma {:induction false} SharedAtLeast(a: seq<Hash>, b: seq<Hash>, k: nat)
    requires k <= |a| && k <= |b| && a[..k] == b[..k]
    ensures k <= Shared(a, b)
  {
    if k > 0 {
      assert a[0] == a[..k][0] == b[..k][0] == b[0];
      assert a[1..][..k - 1] == a[..k][1..] == b[..k][1..] == b[1..][..k - 1];
      SharedAtLeast(a[1..], b[1..], k - 1);
    }
  }

  // Cutting one sequence above the point where it leaves the other changes nothing.
  lemma SharedOfPrefix(a: seq<Hash>, b: seq<Hash>, k: nat)
    requires Shared(a, b) <= k <= |b|
    ensures Shared(a, b[..k]) == Shared(a, b)
  {
    var n := Shared(a, b);
    assert b[..k][..n] == b[..n];
    SharedAtLeast(a, b[..k], n);
    var m := Shared(a, b[..k]);
    assert b[..k][..m] == b[..m];
    SharedAtLeast(a, b, m);
  }

  // A block is a common ancestor exactly when it sits below the fork length on either path:
  // the block at height `ForkLength - 1` is the lowest common ancestor.
  lemma CommonAncestors(t: Tree, genesis: Hash, a: Hash, b: Hash, x: Hash)
    requires WellFormed(t, genesis) && a in t && b in t
    requires IsAncestor(t, genesis, x, a)
    ensures IsAncestor(t, genesis, x, b) <==> t[x].height < ForkLength(t, genesis, a, b)
  {
    var p, q, n := Path(t, genesis, a), Path(t, genesis, b), ForkLength(t, genesis, a, b);
    AncestorAtHeight(t, genesis, x, a);
    var k := t[x].height;
    if k < n {
      assert q[k] == q[..n][k] == p[..n][k] == x;
    }
    if x in q {
      AncestorAtHeight(t, genesis, x, b);
      SharedAtLeast(p, q, k + 1);
    }
  }

  // Indexing a new block changes no path.
  lemma {:induction false} PathExtended(t: Tree, t': Tree, genesis: Hash, h: Hash)
    requires WellFormed(t, genesis) && h in t
    requires WellFormed(t', genesis)
    requires forall x :: x in t ==> x in t' && t'[x] == t[x]
    ensures Path(t', genesis, h) == Path(t, genesis, h)
    decreases t[h].height
  {
    if h != genesis {
      assert LinkedBack(t, h);
      PathExtended(t, t', genesis, t[h].prev);
    }
  }

  lemma ForkLengthSymmetric(t: Tree, genesis: Hash, a: Hash, b: Hash)
    requires WellFormed(t, genesis) && a in t && b in t
    ensures ForkLength(t, genesis, a, b) == ForkLength(t, genesis, b, a)
  {
    hide Path, WellFormed;
    var p, q := Path(t, genesis, a), Path(t, genesis, b);
    SharedAtLeast(q, p, Shared(p, q));
    SharedAtLeast(p, q, Shared(q, p));
  }

  lemma OneStep(t: Tree, genesis: Hash, h: Hash)
    requires WellFormed(t, genesis) && h in t && h != genesis
    ensures t[h].prev in t && t[h].height == t[t[h].prev].height + 1
    ensures Path(t, genesis, h) == Path(t, genesis, t[h].prev) + [h]
    ensures h !in Path(t, genesis, t[h].prev)
  {
    assert LinkedBack(t, h);
    var p := Path(t, genesis, t[h].prev);
    assert forall i :: 0 <= i < |p| ==> t[p[i]].height == i;
  }
}
