/**
 The byte format of big numbers, compact targets and block trust.

 A number is stored as its magnitude in base 256 with the sign in the top bit of the first
 byte, so a magnitude whose own top bit is set gets a zero byte in front.  (In memory four
 length bytes precede this; they are not modelled.)
 */
module BigNum {
  import opened Sequences
  import opened Numerals

  // ---------- the sign-byte format ----------

  function Abs(n: int): nat { if n < 0 then -n else n }

  // `BN_bn2mpi` without its length bytes.
  function ToMpi(n: int): (b: seq<nat>)
    ensures AreDigits(256, b)
  {
    var m := Digits(256, Abs(n));
    var ext := if m != [] && m[0] >= 0x80 then [0] + m else m;
    if n < 0 then [ext[0] + 0x80] + ext[1..] else ext
  }

  // `BN_mpi2bn` without its length bytes.
  function FromMpi(b: seq<nat>): int {
    if b == [] then 0
    else if b[0] >= 0x80 then -(Value(256, [b[0] - 0x80] + b[1..]) as int)
    else Value(256, b)
  }

  // The format is read back as it was written, for numbers of either sign.
  lemma MpiRoundTrip(n: int)
    ensures FromMpi(ToMpi(n)) == n
  {
    var m := Digits(256, Abs(n));
    ValueOfDigits(256, Abs(n));
    var ext := if m != [] && m[0] >= 0x80 then [0] + m else m;
    if m != [] && m[0] >= 0x80 {
      assert Zeros(1) == [0];
      LeadingZerosIgnored(256, 1, m);
    }
    assert Value(256, ext) == Abs(n);
    if n < 0 {
      var b := ToMpi(n);
      assert [b[0] - 0x80] + b[1..] == ext;
    }
  }

  // Bytes least significant first, as the source passes them around.
  function SetVch(vch: seq<nat>): int { FromMpi(Reversed(vch)) }

  function GetVch(n: int): seq<nat> { Reversed(ToMpi(n)) }

  lemma VchRoundTrip(n: int)
    ensures SetVch(GetVch(n)) == n
  {
    ReversedTwice(ToMpi(n));
    MpiRoundTrip(n);
  }

  // What is written for a non-negative number: no superfluous byte in front.
  ghost predicate Canonical(b: seq<nat>) {
    && AreDigits(256, b)
    && (b != [] ==> b[0] < 0x80 && (b[0] == 0 ==> |b| >= 2 && b[1] >= 0x80))
  }

  lemma ToMpiCanonical(n: nat)
    ensures Canonical(ToMpi(n)) && Value(256, ToMpi(n)) == n && (ToMpi(n) == [] <==> n == 0)
  {
    hide Digits, Value;
    MpiRoundTrip(n);
    NoDigits(n);
    ValueOfNone(256);
  }

  lemma NoDigits(n: nat)
    ensures Digits(256, n) == [] <==> n == 0
  {
  }

  lemma CanonicalIsWritten(b: seq<nat>)
    requires Canonical(b)
    ensures ToMpi(Value(256, b)) == b
  {
    hide Digits, Value;
    if b != [] && b[0] == 0 {
      var m := b[1..];
      assert b == [0] + m && Zeros(1) == [0];
      LeadingZerosIgnored(256, 1, m);
      DigitsOfValue(256, m);
    } else {
      DigitsOfValue(256, b);
    }
  }

  // ---------- compact form ----------

  function Mantissa(b: seq<nat>): nat {
    (if |b| >= 1 then b[0] * 0x1_0000 else 0) + (if |b| >= 2 then b[1] * 0x100 else 0) + if |b| >= 3 then b[2] else 0
  }

  // The number of bytes, and the first three of them.
  function GetCompact(n: int): nat {
    var b := ToMpi(n);
    |b| * 0x100_0000 % 0x1_0000_0000 + Mantissa(b)
  }

  function CompactBytes(c: nat): seq<nat> {
    var size, m := c / 0x100_0000, c % 0x100_0000;
    ([m / 0x1_0000, m / 0x100 % 0x100, m % 0x100] + Zeros(size))[..size]
  }

  function SetCompact(c: nat): int { FromMpi(CompactBytes(c)) }

  // The bytes that survive.
  function Kept(b: seq<nat>): seq<nat> { if |b| <= 3 then b else b[..3] + Zeros(|b| - 3) }

  predicate Representable(n: int) { n >= 0 && |ToMpi(n)| <= 255 }

  lemma MantissaBytes(b: seq<nat>)
    requires Canonical(b)
    ensures var m := Mantissa(b);
            && m < 0x80_0000
            && (|b| >= 1 ==> m / 0x1_0000 == b[0]) && (|b| >= 2 ==> m / 0x100 % 0x100 == b[1])
            && (|b| >= 3 ==> m % 0x100 == b[2])
  {
    ThreeBytes(if |b| >= 1 then b[0] else 0, if |b| >= 2 then b[1] else 0, if |b| >= 3 then b[2] else 0);
  }

  lemma ThreeBytes(x: nat, y: nat, z: nat)
    requires x < 0x80 && y < 0x100 && z < 0x100
    ensures var m := x * 0x1_0000 + y * 0x100 + z;
            m < 0x80_0000 && m / 0x1_0000 == x && m / 0x100 % 0x100 == y && m % 0x100 == z
  {
    DivMod(x, 0x1_0000, y * 0x100 + z);
    DivMod(x * 0x100 + y, 0x100, z);
    DivMod(x, 0x100, y);
  }

  lemma ReadBack(n: int)
    requires Representable(n)
    ensures CompactBytes(GetCompact(n)) == Kept(ToMpi(n)) && SetCompact(GetCompact(n)) == Value(256, Kept(ToMpi(n)))
    ensures Canonical(Kept(ToMpi(n)))
  {
    hide ToMpi, Value, Mantissa, Digits;
    var b := ToMpi(n);
    ToMpiCanonical(n);
    MantissaBytes(b);
    var c := GetCompact(n);
    assert c == |b| * 0x100_0000 + Mantissa(b);
    assert c / 0x100_0000 == |b| && c % 0x100_0000 == Mantissa(b);
    var r := CompactBytes(c);
    assert |r| == |b|;
    forall i | 0 <= i < |b| ensures r[i] == Kept(b)[i] {
    }
    assert r == Kept(b);
    ValueOfNone(256);
  }

  // Writing again what was read back changes nothing.
  lemma CompactIdempotent(n: int)
    requires Representable(n)
    ensures GetCompact(SetCompact(GetCompact(n))) == GetCompact(n)
  {
    hide ToMpi, Value, Digits, SetCompact;
    ReadBack(n);
    CanonicalIsWritten(Kept(ToMpi(n)));
  }

  lemma SplitAtThree(b: seq<nat>)
    requires Canonical(b) && |b| > 3
    ensures Mantissa(b) >= 0x8000
    ensures Value(256, b) == Mantissa(b) * Pow(256, |b| - 3) + Value(256, b[3..])
    ensures Value(256, b[3..]) < Pow(256, |b| - 3)
    ensures Value(256, Kept(b)) == Mantissa(b) * Pow(256, |b| - 3)
  {
    hide Value, Pow;
    var top := b[..3];
    assert b == top + b[3..];
    ValueAppend(256, top, b[3..]);
    ValueBound(256, b[3..]);
    ValueAppend(256, top, Zeros(|b| - 3));
    ValueOfZeros(256, |b| - 3);
    ShortValue(top);
  }

  // Short numbers are written out in full.
  lemma ShortValue(b: seq<nat>)
    requires |b| <= 3
    ensures Value(256, b) == if |b| == 0 then 0 else if |b| == 1 then b[0] else if |b| == 2 then b[0] * 0x100 + b[1]
                             else b[0] * 0x1_0000 + b[1] * 0x100 + b[2]
  {
    if |b| >= 1 {
      assert b[..|b| - 1][..0] == [];
      assert |b| >= 2 ==> b[..|b| - 1][..|b| - 2] == b[..|b| - 2];
      assert Value(256, b[..1]) == b[0];
      if |b| >= 2 {
        assert b[..2][..1] == b[..1];
        assert Value(256, b[..2]) == b[0] * 0x100 + b[1];
      }
      assert b[..|b|] == b;
    }
  }

  // Reading back loses less than one part in 2^15, and nothing of a number of up to three bytes.
  lemma CompactLoss(n: int)
    requires Representable(n)
    ensures var v := SetCompact(GetCompact(n));
            && 0 <= v <= n
            && (n > 0 ==> (n - v) * 0x8000 < n)
            && (|ToMpi(n)| <= 3 ==> v == n)
  {
    hide ToMpi, Value, Pow, Mantissa, SetCompact, GetCompact;
    var b := ToMpi(n);
    ToMpiCanonical(n);
    ReadBack(n);
    if |b| > 3 {
      SplitAtThree(b);
      Scaled(Pow(256, |b| - 3), 0x8000, Mantissa(b));
    }
  }

  // ---------- the compact form as arithmetic ----------

  // The top byte is a size, the next bit a sign and the rest a mantissa, which is scaled to fill
  // that many bytes.
  lemma CompactValue(c: nat)
    ensures var size, mantissa := c / 0x100_0000, c % 0x80_0000;
            var v := if size >= 3 then mantissa * Pow(256, size - 3)
                     else if size == 2 then mantissa / 0x100 else if size == 1 then mantissa / 0x1_0000 else 0;
            SetCompact(c) == if c / 0x80_0000 % 2 == 1 then -v else v
  {
    hide Value, Pow;
    var size, m := c / 0x100_0000, c % 0x100_0000;
    var x, y, z := m / 0x1_0000, m / 0x100 % 0x100, m % 0x100;
    MantissaParts(c);
    var b := CompactBytes(c);
    var top := if x >= 0x80 then x - 0x80 else x;
    if size >= 3 {
      assert b == [x, y, z] + Zeros(size - 3);
      var rest := [top, y, z];
      assert [top] + b[1..] == rest + Zeros(size - 3);
      ValueAppend(256, rest, Zeros(size - 3));
      ValueOfZeros(256, size - 3);
      ShortValue(rest);
    } else {
      assert b == [x, y][..size];
      assert size >= 1 ==> b[0] == x && [top] + b[1..] == [top, y][..size];
      ShortValue([top, y][..size]);
    }
  }

  lemma MantissaParts(c: nat)
    ensures var m := c % 0x100_0000;
            var x, y, z := m / 0x1_0000, m / 0x100 % 0x100, m % 0x100;
            var top := if x >= 0x80 then x - 0x80 else x;
            && x < 0x100 && (x >= 0x80 <==> c / 0x80_0000 % 2 == 1)
            && c % 0x80_0000 == top * 0x1_0000 + y * 0x100 + z
            && c % 0x80_0000 / 0x100 == top * 0x100 + y && c % 0x80_0000 / 0x1_0000 == top
  {
    var q, m := c / 0x100_0000, c % 0x100_0000;
    var x, y, z := m / 0x1_0000, m / 0x100 % 0x100, m % 0x100;
    BytesOf(m);
    var sign := if x >= 0x80 then 1 else 0;
    var top := x - 0x80 * sign;
    var r := top * 0x1_0000 + y * 0x100 + z;
    assert c == (2 * q + sign) * 0x80_0000 + r && r < 0x80_0000;
    DivMod(2 * q + sign, 0x80_0000, r);
    DivMod(q, 2, sign);
    DivMod(top * 0x100 + y, 0x100, z);
    DivMod(top, 0x1_0000, y * 0x100 + z);
  }

  lemma BytesOf(m: nat)
    requires m < 0x100_0000
    ensures m == m / 0x1_0000 * 0x1_0000 + m / 0x100 % 0x100 * 0x100 + m % 0x100
    ensures m / 0x1_0000 < 0x100
  {
  }

  // Written are the size, and the number cut or filled to three bytes.
  lemma CompactForm(n: int)
    requires Representable(n)
    ensures var size := |ToMpi(n)|;
            GetCompact(n) == size * 0x100_0000 +
              if size > 3 then Over(n, Pow(256, size - 3))
              else if size == 3 then n else if size == 2 then n * 0x100 else n * 0x1_0000
  {
    hide ToMpi, Value, Pow, Canonical;
    var b := ToMpi(n);
    ToMpiCanonical(n);
    if |b| > 3 {
      SplitAtThree(b);
      DivMod(Mantissa(b), Pow(256, |b| - 3), Value(256, b[3..]));
    } else {
      ShortValue(b);
    }
  }

  // ---------- order ----------

  lemma LengthBounds(n: nat)
    requires n > 0
    ensures var k := |ToMpi(n)|;
            k > 0 && n < 0x80 * Pow(256, k - 1) && (k >= 2 ==> n >= 0x80 * Pow(256, k - 2))
  {
    hide ToMpi, Value, Pow;
    var b := ToMpi(n);
    ToMpiCanonical(n);
    var k := |b|;
    SplitFirst(b);
    Placed(b[0], Pow(256, k - 1), Value(256, b[1..]));
    if k >= 2 {
      PowStep(256, k - 1);
      if b[0] == 0 {
        SplitFirst(b[1..]);
        Placed(b[1], Pow(256, k - 2), Value(256, b[1..][1..]));
      }
    }
  }

  lemma Placed(x: nat, p: nat, r: nat)
    requires r < p
    ensures x < 0x80 ==> x * p + r < 0x80 * p
    ensures x >= 1 ==> x * p + r >= p
    ensures x >= 0x80 ==> x * p + r >= 0x80 * p
  {
    if x < 0x80 {
      Scaled(p, x + 1, 0x80);
    }
    if x >= 1 {
      Scaled(p, 1, x);
    }
    if x >= 0x80 {
      Scaled(p, 0x80, x);
    }
  }

  lemma SplitFirst(b: seq<nat>)
    requires AreDigits(256, b) && b != []
    ensures Value(256, b) == b[0] * Pow(256, |b| - 1) + Value(256, b[1..]) && Value(256, b[1..]) < Pow(256, |b| - 1)
  {
    hide Pow, Value;
    assert b == [b[0]] + b[1..];
    ValueAppend(256, [b[0]], b[1..]);
    ValueBound(256, b[1..]);
    ShortValue([b[0]]);
  }

  lemma PowStep(base: nat, k: nat)
    requires k > 0
    ensures Pow(base, k) == Pow(base, k - 1) * base
  {
  }

  lemma LengthMonotone(m: nat, n: nat)
    requires m <= n
    ensures |ToMpi(m)| <= |ToMpi(n)|
  {
    hide ToMpi, Pow, Canonical;
    ToMpiCanonical(m);
    ToMpiCanonical(n);
    if m > 0 {
      LengthBounds(m);
      LengthBounds(n);
      var j, k := |ToMpi(m)|, |ToMpi(n)|;
      if j > k {
        PowMonotone(256, k - 1, j - 2);
      }
    }
  }

  // A number takes at most `k + 1` bytes exactly when it is below 2^(8k + 7).
  lemma LengthIff(n: nat, k: nat)
    ensures |ToMpi(n)| <= k + 1 <==> n < 0x80 * Pow(256, k)
  {
    hide ToMpi, Pow, Canonical;
    ToMpiCanonical(n);
    if n > 0 {
      LengthBounds(n);
      var length := |ToMpi(n)|;
      if length <= k + 1 {
        PowMonotone(256, length - 1, k);
      } else {
        PowMonotone(256, k, length - 2);
      }
    }
  }

  lemma MantissaMonotone(a: seq<nat>, b: seq<nat>)
    requires Canonical(a) && Canonical(b) && |a| == |b| && Value(256, a) <= Value(256, b)
    ensures Mantissa(a) <= Mantissa(b)
  {
    hide Value, Pow, Canonical;
    if |a| > 3 {
      SplitAtThree(a);
      SplitAtThree(b);
      Compared(Pow(256, |a| - 3), Mantissa(a), Value(256, a[3..]), Mantissa(b), Value(256, b[3..]));
    } else {
      ShortValue(a);
      ShortValue(b);
    }
  }

  lemma Compared(p: nat, x: nat, r: nat, y: nat, t: nat)
    requires r < p && t < p && x * p + r <= y * p + t
    ensures x <= y
  {
    if x > y {
      Scaled(p, y + 1, x);
    }
  }

  // A greater number never has a smaller compact form.
  lemma CompactMonotone(m: int, n: int)
    requires Representable(m) && Representable(n) && m <= n
    ensures GetCompact(m) <= GetCompact(n)
  {
    hide ToMpi, Value, Mantissa;
    var a, b := ToMpi(m), ToMpi(n);
    ToMpiCanonical(m);
    ToMpiCanonical(n);
    LengthMonotone(m, n);
    MantissaBytes(a);
    MantissaBytes(b);
    if |a| == |b| {
      MantissaMonotone(a, b);
    }
  }

  // ---------- block trust ----------

  const TWO_TO_256: nat := 0x1_0000_0000_0000_0000_0000_0000_0000_0000_0000_0000_0000_0000_0000_0000_0000_0000

  // The expected number of hashes below the target.
  function TrustOf(target: int): nat {
    if target <= 0 then 0 else TWO_TO_256 / (target + 1)
  }

  function GetBlockTrust(nBits: nat): nat { TrustOf(SetCompact(nBits)) }

  // A harder target is never trusted less, and a block is trusted at all exactly when its target
  // is positive and below 2^256.
  lemma TrustAntitone(nBits: nat, nBits': nat)
    ensures 0 < SetCompact(nBits) <= SetCompact(nBits') ==> GetBlockTrust(nBits') <= GetBlockTrust(nBits)
    ensures GetBlockTrust(nBits) >= 1 <==> 0 < SetCompact(nBits) < TWO_TO_256
    ensures GetBlockTrust(nBits) < TWO_TO_256
  {
    hide SetCompact;
    var t, t' := SetCompact(nBits), SetCompact(nBits');
    if 0 < t {
      Trusted(TWO_TO_256, t + 1);
      if t <= t' {
        DivAntitone(TWO_TO_256, t + 1, t' + 1);
      }
    }
  }

  // The trust of a positive target is how often the target and one more fit into 2^256.
  lemma TrustIsQuotient(nBits: nat)
    ensures var target, trust := SetCompact(nBits), GetBlockTrust(nBits);
            if target <= 0 then trust == 0 else trust * (target + 1) <= TWO_TO_256 < (trust + 1) * (target + 1)
  {
    hide SetCompact;
    var target := SetCompact(nBits);
    if target > 0 {
      Quotient(TWO_TO_256, target + 1);
    }
  }

  lemma Quotient(x: nat, d: nat)
    requires d >= 2
    ensures (x / d) * d <= x < (x / d + 1) * d
  {
    Divided(d, x);
  }

  lemma Trusted(x: nat, d: nat)
    requires d >= 2 && x > 0
    ensures x / d >= 1 <==> d <= x
    ensures x / d < x
  {
    Divided(d, x);
    if x / d >= 1 {
      Scaled(d, 1, x / d);
    }
  }
}
