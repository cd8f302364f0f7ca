/**
 Sorting by an order that is given as a function.
 */
module Sorting {
  import opened Sequences

  // A strict order in which elements may also be level.
  ghost predicate IsOrder<T(!new)>(before: (T, T) -> bool) {
    && (forall a, b :: before(a, b) ==> !before(b, a))
    && (forall a, b, c :: !before(a, b) && !before(b, c) ==> !before(a, c))
  }

  ghost predicate Sorted<T>(before: (T, T) -> bool, s: seq<T>) {
    forall i, j :: 0 <= i < j < |s| ==> !before(s[j], s[i])
  }

  function Inserted<T>(before: (T, T) -> bool, s: seq<T>, x: T): (r: seq<T>)
    ensures |r| == |s| + 1 && multiset(r) == multiset(s) + multiset{x}
    ensures forall i :: 0 <= i < |r| ==> r[i] in s || r[i] == x
  {
    if s == [] || !before(x, s[|s| - 1]) then s + [x]
    else
      assert s == s[..|s| - 1] + [s[|s| - 1]];
      Inserted(before, s[..|s| - 1], x) + [s[|s| - 1]]
  }

  function Sort<T>(before: (T, T) -> bool, s: seq<T>): (r: seq<T>)
    ensures |r| == |s| && multiset(r) == multiset(s)
    ensures forall i :: 0 <= i < |r| ==> r[i] in s
  {
    if s == [] then [] else
      assert s == s[..|s| - 1] + [s[|s| - 1]];
      Inserted(before, Sort(before, s[..|s| - 1]), s[|s| - 1])
  }

  lemma Appending<T>(before: (T, T) -> bool, s: seq<T>, x: T)
    ensures Sorted(before, s + [x]) <==> Sorted(before, s) && forall i :: 0 <= i < |s| ==> !before(x, s[i])
    ensures NoDup(s + [x]) <==> NoDup(s) && x !in s
  {
    var r := s + [x];
    if Sorted(before, r) {
      forall i, j | 0 <= i < j < |s| ensures !before(s[j], s[i]) { assert !before(r[j], r[i]); }
      forall i | 0 <= i < |s| ensures !before(x, s[i]) { assert !before(r[|s|], r[i]); }
    }
    NoDupSnoc(s, x);
  }

  lemma {:induction false} InsertedSorted<T(!new)>(before: (T, T) -> bool, s: seq<T>, x: T)
    requires IsOrder(before) && Sorted(before, s)
    ensures Sorted(before, Inserted(before, s, x)) && (NoDup(s) && x !in s ==> NoDup(Inserted(before, s, x)))
  {
    hide Sorted, NoDup;
    Appending(before, s, x);
    if s != [] {
      var front, last := s[..|s| - 1], s[|s| - 1];
      assert s == front + [last];
      Appending(before, front, last);
      if before(x, last) {
        InsertedSorted(before, front, x);
        Appending(before, Inserted(before, front, x), last);
      }
    }
  }

  lemma {:induction false} SortSorted<T(!new)>(before: (T, T) -> bool, s: seq<T>)
    requires IsOrder(before)
    ensures Sorted(before, Sort(before, s)) && (NoDup(s) ==> NoDup(Sort(before, s)))
  {
    hide Inserted;
    if s != [] {
      SortSorted(before, s[..|s| - 1]);
      InsertedSorted(before, Sort(before, s[..|s| - 1]), s[|s| - 1]);
    }
  }
}
