/**
 Numbers in a positional system, most significant digit first.
 */
module Numerals {

  predicate AreDigits(base: nat, ds: seq<nat>) { forall i :: 0 <= i < |ds| ==> ds[i] < base }

  function Value(base: nat, ds: seq<nat>): nat {
    if ds == [] then 0 else Value(base, ds[..|ds| - 1]) * base + ds[|ds| - 1]
  }

  function Pow(base: nat, k: nat): (p: nat)
    ensures base > 0 ==> p > 0
  {
    if k == 0 then 1 else Pow(base, k - 1) * base
  }

  lemma {:induction false} PowMonotone(base: nat, j: nat, k: nat)
    requires base >= 1 && j <= k
    ensures Pow(base, j) <= Pow(base, k)
    decreases k - j
  {
    if j < k {
      PowMonotone(base, j, k - 1);
      Scaled(Pow(base, k - 1), 1, base);
    }
  }

  lemma {:induction false} PowSplit(base: nat, a: nat, b: nat)
    ensures Pow(base, a + b) == Pow(base, a) * Pow(base, b)
  {
    if b > 0 {
      PowSplit(base, a, b - 1);
    }
  }

  lemma DivMod(q: nat, base: nat, r: nat)
    requires r < base
    ensures (q * base + r) / base == q && (q * base + r) % base == r
  {
    var n := q * base + r;
    assert n == base * (n / base) + n % base;
    if n / base < q {
      Scaled(base, n / base + 1, q);
    } else {
      Scaled(base, q, n / base);
      if n / base > q {
        Scaled(base, q + 1, n / base);
      }
    }
  }

  lemma Scaled(e: nat, a: nat, b: nat)
    requires a <= b
    ensures e * a <= e * b
  {
    assert e * b - e * a == e * (b - a) >= 0;
  }

  // Division of non-negative numbers.
  function Over(x: nat, d: nat): nat
    requires d > 0
  {
    x / d
  }

  lemma DivAntitone(x: nat, d: nat, e: nat)
    requires 0 < d <= e
    ensures x / e <= x / d
  {
    var q, r := x / d, x / e;
    assert x == d * q + x % d && x == e * r + x % e;
    if r > q {
      Scaled(d, q + 1, r);
      Scaled(r, d, e);
    }
  }

  // The digits of `n` without leading zeros; none for 0.
  function Digits(base: nat, n: nat): (ds: seq<nat>)
    requires base >= 2
    ensures AreDigits(base, ds) && (ds != [] ==> ds[0] != 0)
    decreases n
  {
    if n == 0 then [] else Digits(base, n / base) + [n % base]
  }

  lemma {:induction false} ValueOfDigits(base: nat, n: nat)
    requires base >= 2
    ensures Value(base, Digits(base, n)) == n
    decreases n
  {
    hide Value;
    if n == 0 {
      ValueOfNone(base);
    } else {
      Divided(base, n);
      var q, r := n / base, n % base;
      ValueOfDigits(base, q);
      ValueSnoc(base, Digits(base, q), r);
    }
  }

  lemma Divided(base: nat, n: nat)
    requires base >= 2
    ensures n == (n / base) * base + n % base && (n > 0 ==> n / base < n)
  {
  }

  lemma ValueOfNone(base: nat)
    ensures Value(base, []) == 0
  {
  }

  lemma ValueSnoc(base: nat, ds: seq<nat>, d: nat)
    ensures Value(base, ds + [d]) == Value(base, ds) * base + d
  {
    assert (ds + [d])[..|ds|] == ds;
  }

  lemma {:induction false} ValuePositive(base: nat, ds: seq<nat>)
    requires base >= 2 && ds != [] && ds[0] != 0
    ensures Value(base, ds) > 0
  {
    if |ds| > 1 {
      ValuePositive(base, ds[..|ds| - 1]);
      Scaled(base, 1, Value(base, ds[..|ds| - 1]));
    }
  }

  lemma {:induction false} DigitsOfValue(base: nat, ds: seq<nat>)
    requires base >= 2 && AreDigits(base, ds) && (ds != [] ==> ds[0] != 0)
    ensures Digits(base, Value(base, ds)) == ds
  {
    if ds != [] {
      ValuePositive(base, ds);
      DivMod(Value(base, ds[..|ds| - 1]), base, ds[|ds| - 1]);
      DigitsOfValue(base, ds[..|ds| - 1]);
    }
  }

  lemma {:induction false} ValueAppend(base: nat, a: seq<nat>, b: seq<nat>)
    ensures Value(base, a + b) == Value(base, a) * Pow(base, |b|) + Value(base, b)
  {
    if b == [] {
      assert a + b == a;
    } else {
      var c := b[..|b| - 1];
      assert (a + b)[..|a + b| - 1] == a + c;
      ValueAppend(base, a, c);
      Distribute(Value(base, a), Pow(base, |c|), Value(base, c), base);
    }
  }

  lemma Distribute(x: nat, p: nat, y: nat, b: nat)
    ensures (x * p + y) * b == x * (p * b) + y * b
  {
  }

  lemma {:induction false} ValueBound(base: nat, ds: seq<nat>)
    requires AreDigits(base, ds)
    ensures Value(base, ds) < Pow(base, |ds|)
  {
    if ds != [] {
      ValueBound(base, ds[..|ds| - 1]);
      Scaled(base, Value(base, ds[..|ds| - 1]) + 1, Pow(base, |ds| - 1));
    }
  }

  // ---------- leading zeros ----------

  function Zeros(k: nat): (z: seq<nat>)
    ensures |z| == k && forall i :: 0 <= i < k ==> z[i] == 0
  {
    if k == 0 then [] else Zeros(k - 1) + [0]
  }

  function LeadingZeros(ds: seq<nat>): (k: nat)
    ensures k <= |ds| && (forall i :: 0 <= i < k ==> ds[i] == 0) && (k < |ds| ==> ds[k] != 0)
  {
    if ds == [] || ds[0] != 0 then 0 else 1 + LeadingZeros(ds[1..])
  }

  lemma {:induction false} ValueOfZeros(base: nat, k: nat)
    ensures Value(base, Zeros(k)) == 0
  {
    if k > 0 {
      ValueOfZeros(base, k - 1);
    }
  }

  lemma LeadingZerosIgnored(base: nat, k: nat, ds: seq<nat>)
    ensures Value(base, Zeros(k) + ds) == Value(base, ds)
  {
    ValueOfZeros(base, k);
    ValueAppend(base, Zeros(k), ds);
  }

  // A list of digits is its leading zeros followed by the digits of its value.
  lemma SplitZeros(base: nat, ds: seq<nat>)
    requires base >= 2 && AreDigits(base, ds)
    ensures ds == Zeros(LeadingZeros(ds)) + Digits(base, Value(base, ds))
  {
    var k := LeadingZeros(ds);
    var rest := ds[k..];
    assert ds == Zeros(k) + rest;
    LeadingZerosIgnored(base, k, rest);
    DigitsOfValue(base, rest);
  }

  lemma LeadingZerosOf(k: nat, ds: seq<nat>)
    requires ds != [] ==> ds[0] != 0
    ensures LeadingZeros(Zeros(k) + ds) == k
  {
    var all := Zeros(k) + ds;
    assert ds != [] ==> all[k] == ds[0];
  }
}
