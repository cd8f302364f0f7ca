/**
 Merkle roots, trees and branches.

 A level with an odd number of hashes pairs its last hash with itself, so different lists of
 leaves can have the same root.  Both ways of computing the root look for the equal
 neighbours such a list must contain.
 */
module Merkle {
  import opened BlockTree
  import opened Numerals

  // The double hash of two concatenated hashes.
  type PairHash = (Hash, Hash) -> Hash

  ghost predicate Injective(f: PairHash) { forall a, b, c, d :: f(a, b) == f(c, d) ==> a == c && b == d }

  function Min(a: int, b: int): int { if a <= b then a else b }

  // ---------- levels ----------

  function Up(f: PairHash, l: seq<Hash>): (u: seq<Hash>)
    ensures |u| == (|l| + 1) / 2
  {
    seq((|l| + 1) / 2, i requires 0 <= i < (|l| + 1) / 2 => f(l[2 * i], l[Min(2 * i + 1, |l| - 1)]))
  }

  lemma UpAt(f: PairHash, l: seq<Hash>, k: nat)
    requires k < |Up(f, l)|
    ensures Up(f, l)[k] == f(l[2 * k], l[Min(2 * k + 1, |l| - 1)])
  {
  }

  function Root(f: PairHash, l: seq<Hash>): Hash
    decreases |l|
  {
    if |l| == 0 then 0 else if |l| == 1 then l[0] else Root(f, Up(f, l))
  }

  // The number of levels above the leaves.
  function Depth(n: nat): nat { if n <= 1 then 0 else 1 + Depth((n + 1) / 2) }

  // Two equal hashes that are paired with each other.
  ghost predicate EqualPair(l: seq<Hash>) { exists i :: 0 <= i && 2 * i + 1 < |l| && l[2 * i] == l[2 * i + 1] }

  ghost predicate EqualEnd(l: seq<Hash>) { |l| >= 2 && |l| % 2 == 0 && l[|l| - 2] == l[|l| - 1] }

  // Some level has such a pair; some level ends in one.
  ghost predicate PairSomewhere(f: PairHash, l: seq<Hash>)
    decreases |l|
  {
    |l| > 1 && (EqualPair(l) || PairSomewhere(f, Up(f, l)))
  }

  ghost predicate EndSomewhere(f: PairHash, l: seq<Hash>)
    decreases |l|
  {
    |l| > 1 && (EqualEnd(l) || EndSomewhere(f, Up(f, l)))
  }

  // ---------- the tree, seen from the top ----------

  // A full binary tree of depth `d` over the leaves: where the right half would be empty, the left
  // half stands in for it.
  ghost function Top(f: PairHash, l: seq<Hash>, d: nat): Hash
    requires 0 < |l| <= Pow(2, d)
    decreases d
  {
    if d == 0 then l[0]
    else
      var half := Pow(2, d - 1);
      if |l| <= half then var left := Top(f, l, d - 1); f(left, left)
      else f(Top(f, l[..half], d - 1), Top(f, l[half..], d - 1))
  }

  // Hashing the leaves in pairs takes one level off the bottom.
  lemma {:induction false} TopOfPairs(f: PairHash, l: seq<Hash>, d: nat)
    requires d > 0 && 0 < |l| <= Pow(2, d)
    ensures 0 < |Up(f, l)| <= Pow(2, d - 1) && Top(f, Up(f, l), d - 1) == Top(f, l, d)
    decreases d
  {
    hide Top, Up, Pow;
    if d == 1 {
      TopOfPair(f, l);
    } else {
      var half, quarter := Pow(2, d - 1), Pow(2, d - 2);
      Doubled(d - 1);
      Doubled(d);
      if |l| <= half {
        TopOfPairs(f, l, d - 1);
        TopRepeated(f, l, d);
        TopRepeated(f, Up(f, l), d - 1);
      } else {
        UpHalves(f, l, quarter);
        TopOfPairs(f, l[..half], d - 1);
        TopOfPairs(f, l[half..], d - 1);
        TopSplit(f, l, d);
        TopSplit(f, Up(f, l), d - 1);
      }
    }
  }

  lemma TopRepeated(f: PairHash, l: seq<Hash>, d: nat)
    requires d > 0 && 0 < |l| <= Pow(2, d - 1)
    ensures |l| <= Pow(2, d) && Top(f, l, d) == f(Top(f, l, d - 1), Top(f, l, d - 1))
  {
    Doubled(d);
  }

  lemma Doubled(d: nat)
    requires d > 0
    ensures Pow(2, d) == 2 * Pow(2, d - 1) && Pow(2, d - 1) > 0
  {
  }

  lemma TopOfPair(f: PairHash, l: seq<Hash>)
    requires 0 < |l| <= Pow(2, 1)
    ensures Pow(2, 1) == 2 && Pow(2, 0) == 1 && |Up(f, l)| == 1 && Top(f, Up(f, l), 0) == Top(f, l, 1)
  {
    assert Pow(2, 1) == 2;
    UpAt(f, l, 0);
    assert |l| == 2 ==> l[..1][0] == l[0] && l[1..][0] == l[1];
  }

  lemma TopSplit(f: PairHash, l: seq<Hash>, d: nat)
    requires d > 0 && Pow(2, d - 1) < |l| <= Pow(2, d)
    ensures var half := Pow(2, d - 1);
            0 < half && |l| - half <= half && Top(f, l, d) == f(Top(f, l[..half], d - 1), Top(f, l[half..], d - 1))
  {
    Doubled(d);
  }

  lemma UpHalves(f: PairHash, l: seq<Hash>, k: nat)
    requires 2 * k < |l|
    ensures k < |Up(f, l)| && Up(f, l)[..k] == Up(f, l[..2 * k]) && Up(f, l)[k..] == Up(f, l[2 * k..])
  {
    hide Up;
    var a, b := l[..2 * k], l[2 * k..];
    forall i | 0 <= i < k ensures Up(f, l)[i] == Up(f, a)[i] {
      UpAt(f, l, i);
      UpAt(f, a, i);
    }
    forall i | 0 <= i < |Up(f, b)| ensures Up(f, l)[k + i] == Up(f, b)[i] {
      UpAt(f, l, k + i);
      UpAt(f, b, i);
    }
  }

  // The depth is the least one whose full tree has room for the leaves.
  lemma {:induction false} DepthIs(n: nat)
    requires n > 0
    ensures n <= Pow(2, Depth(n)) && (n > 1 ==> Depth(n) > 0 && Pow(2, Depth(n) - 1) < n)
    decreases n
  {
    if n > 1 {
      DepthIs((n + 1) / 2);
    }
  }

  // The root that is computed level by level from the bottom is that of the full tree.
  lemma {:induction false} RootIsTop(f: PairHash, l: seq<Hash>)
    requires l != []
    ensures |l| <= Pow(2, Depth(|l|)) && Root(f, l) == Top(f, l, Depth(|l|))
    decreases |l|
  {
    hide Pow, Top, Up;
    DepthIs(|l|);
    if |l| > 1 {
      RootIsTop(f, Up(f, l));
      TopOfPairs(f, l, Depth(|l|));
    } else {
      TopOfOne(f, l);
    }
  }

  lemma TopOfOne(f: PairHash, l: seq<Hash>)
    requires |l| == 1
    ensures Depth(|l|) == 0 && Pow(2, 0) == 1 && Top(f, l, 0) == l[0]
  {
  }

  // ---------- the root in place ----------

  method ComputeMerkleRoot(f: PairHash, leaves: seq<Hash>, check: bool) returns (root: Hash, mutated: bool)
    ensures root == Root(f, leaves)
    ensures mutated <==> check && PairSomewhere(f, leaves)
  {
    var hashes := leaves;
    mutated := false;
    while |hashes| > 1
      invariant Root(f, hashes) == Root(f, leaves)
      invariant check && PairSomewhere(f, leaves) <==> mutated || (check && PairSomewhere(f, hashes))
      decreases |hashes|
    {
      if check {
        var found := HasEqualPair(hashes);
        mutated := mutated || found;
      }
      hashes := HashPairs(f, hashes);
    }
    root := if |hashes| == 0 then 0 else hashes[0];
  }

  method HasEqualPair(hashes: seq<Hash>) returns (found: bool)
    ensures found <==> EqualPair(hashes)
  {
    found := false;
    var pos := 0;
    while pos + 1 < |hashes|
      invariant pos % 2 == 0
      invariant found <==>
                  exists i :: 0 <= i && 2 * i < pos && 2 * i + 1 < |hashes| && hashes[2 * i] == hashes[2 * i + 1]
    {
      if hashes[pos] == hashes[pos + 1] {
        assert hashes[2 * (pos / 2)] == hashes[2 * (pos / 2) + 1];
        found := true;
      }
      pos := pos + 2;
    }
  }

  // One level, written over the front of the level below.
  method HashPairs(f: PairHash, level: seq<Hash>) returns (hashes: seq<Hash>)
    requires |level| > 1
    ensures hashes == Up(f, level)
  {
    hashes := level;
    if |hashes| % 2 == 1 {
      hashes := hashes + [hashes[|hashes| - 1]];
    }
    ghost var padded := hashes;
    for i := 0 to |hashes| / 2
      invariant |hashes| == |padded|
      invariant forall j :: 0 <= j < i ==> hashes[j] == Up(f, level)[j]
      invariant forall j :: i <= j < |hashes| ==> hashes[j] == padded[j]
    {
      hashes := hashes[i := f(hashes[2 * i], hashes[2 * i + 1])];
    }
    hashes := hashes[..|hashes| / 2];
  }

  // ---------- the flat tree ----------

  // All levels, one after the other.
  function Flat(f: PairHash, l: seq<Hash>): seq<Hash>
    decreases |l|
  {
    if |l| <= 1 then l else l + Flat(f, Up(f, l))
  }

  method ConstructMerkleTree(f: PairHash, leaves: seq<Hash>) returns (tree: seq<Hash>, mutated: bool)
    ensures tree == Flat(f, leaves)
    ensures mutated <==> EndSomewhere(f, leaves)
  {
    hide Up, EqualEnd;
    tree := leaves;
    mutated := false;
    var j, nSize := 0, |leaves|;
    ghost var level := leaves;
    while nSize > 1
      invariant nSize == |level| && j + nSize == |tree| && tree[j..] == level
      invariant tree[..j] + Flat(f, level) == Flat(f, leaves)
      invariant EndSomewhere(f, leaves) <==> mutated || EndSomewhere(f, level)
      decreases nSize
    {
      ghost var below := tree;
      var found;
      tree, found := PushLevel(f, tree, j, nSize);
      mutated := mutated || found;
      FlatStep(f, leaves, below, tree, j, level);
      j := j + nSize;
      nSize := (nSize + 1) / 2;
      level := Up(f, level);
    }
    assert tree == tree[..j] + tree[j..];
  }

  // Appends the level above the last `nSize` hashes.
  method PushLevel(f: PairHash, below: seq<Hash>, j: nat, nSize: nat) returns (tree: seq<Hash>, mutated: bool)
    requires nSize > 1 && j + nSize == |below|
    ensures tree == below + Up(f, below[j..])
    ensures mutated <==> EqualEnd(below[j..])
  {
    hide Up;
    ghost var level := below[j..];
    tree, mutated := below, false;
    var i := 0;
    while i < nSize
      invariant 0 <= i <= nSize + 1 && i % 2 == 0
      invariant tree == below + Up(f, level)[..i / 2]
      invariant mutated <==> i >= nSize && EqualEnd(level)
    {
      var i2 := Min(i + 1, nSize - 1);
      assert tree[j + i] == level[i] && tree[j + i2] == level[i2];
      if i2 == i + 1 && i2 + 1 == nSize && tree[j + i] == tree[j + i2] {
        mutated := true;
      }
      UpAt(f, level, i / 2);
      assert Up(f, level)[..i / 2 + 1] == Up(f, level)[..i / 2] + [Up(f, level)[i / 2]];
      tree := tree + [f(tree[j + i], tree[j + i2])];
      i := i + 2;
    }
    assert Up(f, level)[..i / 2] == Up(f, level);
  }

  lemma FlatStep(f: PairHash, leaves: seq<Hash>, below: seq<Hash>, tree: seq<Hash>, j: nat, level: seq<Hash>)
    requires |level| > 1 && j + |level| == |below| && below[j..] == level
    requires below[..j] + Flat(f, level) == Flat(f, leaves)
    requires tree == below + Up(f, level)
    ensures tree[|below|..] == Up(f, level) && tree[..|below|] + Flat(f, Up(f, level)) == Flat(f, leaves)
  {
    hide Up;
    assert below == below[..j] + level;
    assert below[..j] + (level + Flat(f, Up(f, level))) == (below[..j] + level) + Flat(f, Up(f, level));
  }

  // The root is the last hash of the tree.
  lemma {:induction false} RootIsLast(f: PairHash, l: seq<Hash>)
    requires |l| > 0
    ensures |Flat(f, l)| > 0 && Flat(f, l)[|Flat(f, l)| - 1] == Root(f, l)
    decreases |l|
  {
    if |l| > 1 {
      RootIsLast(f, Up(f, l));
    }
  }

  // ---------- branches ----------

  function Sibling(i: nat): nat { if i % 2 == 0 then i + 1 else i - 1 }

  // The hashes that the leaf `i` and its ancestors are paired with.
  function Branch(f: PairHash, l: seq<Hash>, i: nat): seq<Hash>
    decreases |l|
  {
    if |l| <= 1 then [] else [l[Min(Sibling(i), |l| - 1)]] + Branch(f, Up(f, l), i / 2)
  }

  function Climb(f: PairHash, h: Hash, b: seq<Hash>, i: int): Hash
    decreases |b|
  {
    if b == [] then h
    else Climb(f, if i % 2 == 1 then f(b[0], h) else f(h, b[0]), b[1..], i / 2)
  }

  method GetMerkleBranch(f: PairHash, leaves: seq<Hash>, nIndex: nat) returns (branch: seq<Hash>)
    ensures branch == Branch(f, leaves, nIndex)
  {
    hide Up;
    var tree, mutated := ConstructMerkleTree(f, leaves);
    branch := [];
    var index, j, nSize := nIndex, 0, |leaves|;
    ghost var level := leaves;
    while nSize > 1
      invariant nSize == |level| && j <= |tree| && tree[j..] == Flat(f, level)
      invariant branch + Branch(f, level, index) == Branch(f, leaves, nIndex)
      decreases nSize
    {
      var i := Min(Sibling(index), nSize - 1);
      assert tree[j..] == level + Flat(f, Up(f, level));
      assert tree[j + i] == tree[j..][i] == level[i];
      var rest := Branch(f, Up(f, level), index / 2);
      assert branch + ([level[i]] + rest) == (branch + [level[i]]) + rest;
      branch := branch + [tree[j + i]];
      index := index / 2;
      assert tree[j + nSize..] == tree[j..][nSize..];
      j := j + nSize;
      nSize := (nSize + 1) / 2;
      level := Up(f, level);
    }
  }

  method CheckMerkleBranch(f: PairHash, leaf: Hash, branch: seq<Hash>, nIndex: int) returns (h: Hash)
    ensures h == if nIndex == -1 then 0 else Climb(f, leaf, branch, nIndex)
  {
    if nIndex == -1 {
      return 0;
    }
    h := leaf;
    var index := nIndex;
    for k := 0 to |branch|
      invariant Climb(f, h, branch[k..], index) == Climb(f, leaf, branch, nIndex)
    {
      assert branch[k..][1..] == branch[k + 1..];
      if index % 2 == 1 {
        h := f(branch[k], h);
      } else {
        h := f(h, branch[k]);
      }
      index := index / 2;
    }
  }

  function Joined(f: PairHash, h: Hash, other: Hash, i: int): Hash { if i % 2 == 1 then f(other, h) else f(h, other) }

  lemma ClimbStep(f: PairHash, h: Hash, other: Hash, b: seq<Hash>, i: int)
    ensures Climb(f, h, [other] + b, i) == Climb(f, Joined(f, h, other, i), b, i / 2)
  {
    assert ([other] + b)[1..] == b;
  }

  // The parent of the leaf `i`.
  lemma ParentOf(f: PairHash, l: seq<Hash>, i: nat)
    requires i < |l|
    ensures i / 2 < |Up(f, l)| && 0 <= Min(Sibling(i), |l| - 1) < |l|
    ensures Up(f, l)[i / 2] == Joined(f, l[i], l[Min(Sibling(i), |l| - 1)], i)
  {
    hide Up;
    UpAt(f, l, i / 2);
  }

  // The branch of a leaf leads from the leaf to the root.
  lemma {:induction false} BranchLeadsToRoot(f: PairHash, l: seq<Hash>, i: nat)
    requires i < |l|
    ensures |Branch(f, l, i)| == Depth(|l|) && Climb(f, l[i], Branch(f, l, i), i) == Root(f, l)
    decreases |l|
  {
    hide Up, Climb, Joined, Sibling, Min;
    if |l| == 1 {
      ClimbEmpty(f, l[i], i);
    } else {
      ParentOf(f, l, i);
      BranchLeadsToRoot(f, Up(f, l), i / 2);
      ClimbStep(f, l[i], l[Min(Sibling(i), |l| - 1)], Branch(f, Up(f, l), i / 2), i);
    }
  }

  lemma ClimbEmpty(f: PairHash, h: Hash, i: int)
    ensures Climb(f, h, [], i) == h
  {
  }

  // Nothing else does: what leads to the root is a leaf, and for an index in range it is the
  // leaf at that index with its own branch.
  lemma {:induction false} OnlyBranchLeadsToRoot(f: PairHash, l: seq<Hash>, h: Hash, b: seq<Hash>, i: nat)
    requires Injective(f) && |l| > 0 && |b| == Depth(|l|) && Climb(f, h, b, i) == Root(f, l)
    ensures h in l
    ensures i < |l| ==> h == l[i] && b == Branch(f, l, i)
    decreases |l|
  {
    hide Up, Climb, Joined, Sibling, Min;
    if |l| == 1 {
      ClimbEmpty(f, h, i);
    } else {
      assert b == [b[0]] + b[1..];
      ClimbStep(f, h, b[0], b[1..], i);
      var up := Joined(f, h, b[0], i);
      OnlyBranchLeadsToRoot(f, Up(f, l), up, b[1..], i / 2);
      var k :| 0 <= k < |Up(f, l)| && Up(f, l)[k] == up;
      ChildOf(f, l, h, b[0], i, k);
      if i < |l| {
        ParentOf(f, l, i);
        JoinedOnce(f, h, b[0], l[i], l[Min(Sibling(i), |l| - 1)], i);
      }
    }
  }

  lemma JoinedOnce(f: PairHash, h: Hash, other: Hash, h': Hash, other': Hash, i: int)
    requires Injective(f) && Joined(f, h, other, i) == Joined(f, h', other', i)
    ensures h == h' && other == other'
  {
  }

  lemma ChildOf(f: PairHash, l: seq<Hash>, h: Hash, other: Hash, i: int, k: nat)
    requires Injective(f) && k < |Up(f, l)| && Up(f, l)[k] == Joined(f, h, other, i)
    ensures h in l
  {
    hide Up;
    UpAt(f, l, k);
  }

  // ---------- equal roots ----------

  lemma {:induction false} UpDetermines(f: PairHash, l: seq<Hash>, m: seq<Hash>, k: nat)
    requires Injective(f) && Up(f, l) == Up(f, m) && 2 * k < |l| && |m| <= |l|
    ensures 2 * k < |m| && l[2 * k] == m[2 * k]
    ensures 2 * k + 1 < |l| ==> l[2 * k + 1] == m[Min(2 * k + 1, |m| - 1)]
  {
    hide Up;
    UpAt(f, l, k);
    UpAt(f, m, k);
  }

  // Lists of the same length have the same root only if they are the same.
  lemma {:induction false} SameLengthSameRoot(f: PairHash, l: seq<Hash>, m: seq<Hash>)
    requires Injective(f) && |l| == |m| && Root(f, l) == Root(f, m)
    ensures l == m
    decreases |l|
  {
    hide Up;
    if |l| > 1 {
      SameLengthSameRoot(f, Up(f, l), Up(f, m));
      forall i | 0 <= i < |l| ensures l[i] == m[i] {
        UpDetermines(f, l, m, i / 2);
      }
    }
  }

  // A list with a shorter twin of the same depth ends, on some level, in two equal hashes.
  lemma {:induction false} ShorterTwinIsFlagged(f: PairHash, l: seq<Hash>, m: seq<Hash>)
    requires Injective(f) && 0 < |m| < |l| && Depth(|l|) == Depth(|m|) && Root(f, l) == Root(f, m)
    ensures EndSomewhere(f, l)
    decreases |l|
  {
    hide Up;
    assert |m| > 1;
    if |Up(f, m)| < |Up(f, l)| {
      ShorterTwinIsFlagged(f, Up(f, l), Up(f, m));
    } else {
      SameLengthSameRoot(f, Up(f, l), Up(f, m));
      UpDetermines(f, l, m, |Up(f, l)| - 1);
    }
  }

  // Of two different lists of the same depth with the same root, at least one is flagged; the
  // only exception is the empty list, whose root is the null hash.
  lemma DifferentTwinsAreFlagged(f: PairHash, l: seq<Hash>, m: seq<Hash>)
    requires Injective(f) && Depth(|l|) == Depth(|m|) && Root(f, l) == Root(f, m) && l != m
    ensures EndSomewhere(f, l) || EndSomewhere(f, m) || (l == [] && m == [0]) || (l == [0] && m == [])
  {
    if |l| == |m| {
      SameLengthSameRoot(f, l, m);
    } else if |l| == 0 || |m| == 0 {
      assert l == [] || m == [];
      assert |l| <= 1 && |m| <= 1;
    } else if |m| < |l| {
      ShorterTwinIsFlagged(f, l, m);
    } else {
      ShorterTwinIsFlagged(f, m, l);
    }
  }

  // The flag of the flat tree implies the flag of the in-place root.
  lemma {:induction false} EndIsPair(f: PairHash, l: seq<Hash>)
    requires EndSomewhere(f, l)
    ensures PairSomewhere(f, l)
    decreases |l|
  {
    if EqualEnd(l) {
      var i := |l| / 2 - 1;
      assert l[2 * i] == l[2 * i + 1];
    } else {
      EndIsPair(f, Up(f, l));
    }
  }

  // The two hashes below the root are equal.
  ghost predicate EqualTop(f: PairHash, l: seq<Hash>)
    decreases |l|
  {
    if |l| == 2 then l[0] == l[1] else |l| > 2 && EqualTop(f, Up(f, l))
  }

  ghost predicate Twins(f: PairHash, l: seq<Hash>, m: seq<Hash>) {
    0 < |m| < |l| && Depth(|m|) == Depth(|l|) && Root(f, m) == Root(f, l)
  }

  lemma UpOfPrefix(f: PairHash, l: seq<Hash>, p: nat)
    requires 2 * p <= |l|
    ensures Up(f, l[..2 * p]) == Up(f, l)[..p]
  {
  }

  lemma UpWithoutLast(f: PairHash, l: seq<Hash>)
    requires EqualEnd(l)
    ensures Up(f, l[..|l| - 1]) == Up(f, l)
  {
    hide Up;
    var m := l[..|l| - 1];
    forall i | 0 <= i < |Up(f, l)| ensures Up(f, l)[i] == Up(f, m)[i] {
      UpAt(f, l, i);
      UpAt(f, m, i);
    }
  }

  // The flag is raised exactly for a list that has a shorter twin, which is one of its prefixes,
  // or that has equal hashes right below the root.
  lemma {:induction false} FlaggedHasTwin(f: PairHash, l: seq<Hash>) returns (p: nat)
    requires EndSomewhere(f, l)
    ensures p < |l| && (Twins(f, l, l[..p]) || EqualTop(f, l))
    decreases |l|
  {
    hide Up;
    if EqualEnd(l) {
      p := |l| - 1;
      if |l| > 2 {
        UpWithoutLast(f, l);
      }
    } else {
      var q := FlaggedHasTwin(f, Up(f, l));
      p := 2 * q;
      if Twins(f, Up(f, l), Up(f, l)[..q]) {
        UpOfPrefix(f, l, q);
        assert |l[..p]| == p > 1;
      }
    }
  }

  lemma {:induction false} EqualTopIsFlagged(f: PairHash, l: seq<Hash>)
    requires EqualTop(f, l)
    ensures EndSomewhere(f, l)
    decreases |l|
  {
    if |l| > 2 {
      EqualTopIsFlagged(f, Up(f, l));
    }
  }

  lemma FlagIsExact(f: PairHash, l: seq<Hash>)
    requires Injective(f)
    ensures EndSomewhere(f, l) <==> EqualTop(f, l) || exists m :: Twins(f, l, m)
  {
    if EndSomewhere(f, l) {
      var p := FlaggedHasTwin(f, l);
    } else {
      forall m ensures !Twins(f, l, m) {
        if Twins(f, l, m) {
          ShorterTwinIsFlagged(f, l, m);
        }
      }
      if EqualTop(f, l) {
        EqualTopIsFlagged(f, l);
      }
    }
  }

  // Equal depth cannot be left out: a pair of leaves and their parent have the same root, and
  // neither list is flagged.
  lemma ParentHasSameRoot(f: PairHash, a: Hash, b: Hash)
    requires a != b
    ensures Root(f, [a, b]) == Root(f, [f(a, b)]) && [a, b] != [f(a, b)]
    ensures !PairSomewhere(f, [a, b]) && !PairSomewhere(f, [f(a, b)])
  {
    var l := [a, b];
    assert Up(f, l) == [f(a, b)];
    assert !EqualPair(l);
  }
}
