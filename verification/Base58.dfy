/**
 Base 58 strings.

 Encoding goes through a big number in the sign-byte format, least significant byte first,
 and decoding back through it; leading zero bytes correspond to leading ones of the text.
 */
module Base58 {
  import opened Wrappers
  import opened Sequences
  import opened Numerals
  import opened BigNum

  // ---------- the alphabet ----------

  // 123456789 ABCDEFGH JKLMN PQRSTUVWXYZ abcdefghijk mnopqrstuvwxyz
  function Symbol(d: nat): char
    requires d < 58
  {
    if d < 9 then '1' + d as char
    else if d < 17 then 'A' + (d - 9) as char
    else if d < 22 then 'J' + (d - 17) as char
    else if d < 33 then 'P' + (d - 22) as char
    else if d < 44 then 'a' + (d - 33) as char
    else 'm' + (d - 44) as char
  }

  // A run of consecutive characters.
  ghost predicate IsRun(s: string, c: char) { forall i :: 0 <= i < |s| ==> s[i] as int == c as int + i }

  lemma Runs()
    ensures IsRun("123456789", '1') && IsRun("ABCDEFGH", 'A') && IsRun("JKLMN", 'J')
    ensures IsRun("PQRSTUVWXYZ", 'P') && IsRun("abcdefghijk", 'a') && IsRun("mnopqrstuvwxyz", 'm')
  {
  }

  // The alphabet has no 0, O, I and l.
  lemma AlphabetIs(d: nat)
    requires d < 58
    ensures var alphabet := "123456789" + "ABCDEFGH" + "JKLMN" + "PQRSTUVWXYZ" + "abcdefghijk" + "mnopqrstuvwxyz";
            |alphabet| == 58 && Symbol(d) == alphabet[d]
  {
    Runs();
  }

  // The place of a character in the alphabet, as `strchr` finds it.
  function PlaceOf(c: char): (d: Option<nat>)
    ensures d.Some? ==> d.value < 58 && Symbol(d.value) == c
    ensures d.None? ==> forall x: nat :: x < 58 ==> Symbol(x) != c
  {
    if '1' <= c <= '9' then Some((c - '1') as nat)
    else if 'A' <= c <= 'H' then Some((c - 'A') as nat + 9)
    else if 'J' <= c <= 'N' then Some((c - 'J') as nat + 17)
    else if 'P' <= c <= 'Z' then Some((c - 'P') as nat + 22)
    else if 'a' <= c <= 'k' then Some((c - 'a') as nat + 33)
    else if 'm' <= c <= 'z' then Some((c - 'm') as nat + 44)
    else None
  }

  lemma PlaceOfSymbol(d: nat)
    requires d < 58
    ensures PlaceOf(Symbol(d)) == Some(d)
  {
  }

  predicate IsSpace(c: char) { c == ' ' || '\t' <= c <= '\r' }

  function Text(ds: seq<nat>): (s: string)
    requires AreDigits(58, ds)
    ensures |s| == |ds| && forall i :: 0 <= i < |s| ==> s[i] == Symbol(ds[i])
  {
    if ds == [] then [] else Text(ds[..|ds| - 1]) + [Symbol(ds[|ds| - 1])]
  }

  predicate AllSymbols(s: string) { forall i :: 0 <= i < |s| ==> PlaceOf(s[i]).Some? }

  function Places(s: string): (ds: seq<nat>)
    requires AllSymbols(s)
    ensures |ds| == |s| && AreDigits(58, ds) && forall i :: 0 <= i < |s| ==> PlaceOf(s[i]) == Some(ds[i])
  {
    if s == [] then [] else Places(s[..|s| - 1]) + [PlaceOf(s[|s| - 1]).value]
  }

  lemma TextOfPlaces(s: string)
    requires AllSymbols(s)
    ensures Text(Places(s)) == s
  {
  }

  lemma PlacesOfText(ds: seq<nat>)
    requires AreDigits(58, ds)
    ensures AllSymbols(Text(ds)) && Places(Text(ds)) == ds
  {
    hide Symbol, PlaceOf;
    forall i | 0 <= i < |ds| ensures PlaceOf(Text(ds)[i]) == Some(ds[i]) {
      PlaceOfSymbol(ds[i]);
    }
  }

  // ---------- encoding ----------

  function Encoded(data: seq<nat>): string
    requires AreDigits(256, data)
  {
    Text(Zeros(LeadingZeros(data)) + Digits(58, Value(256, data)))
  }

  method EncodeBase58(data: seq<nat>) returns (str: string)
    requires AreDigits(256, data)
    ensures str == Encoded(data)
  {
    hide Value, Digits, FromMpi, Text, Zeros, Reversed;
    var vchTmp := Reversed(data) + [0];
    var bn := SetVch(vchTmp);
    ReadPositive(data);
    ghost var ds;
    str, ds := WriteDigits(bn);
    var p := 0;
    while p < |data| && data[p] == 0
      invariant 0 <= p <= LeadingZeros(data) && AreDigits(58, ds)
      invariant Reversed(ds) == Zeros(p) + Digits(58, Value(256, data)) && str == Text(ds)
      decreases |data| - p
    {
      ReversedSnoc(ds, 0);
      ZeroInFront(p);
      TextSnoc(ds, 0);
      str := str + [Symbol(0)];
      ds := ds + [0];
      p := p + 1;
    }
    ReversedText(ds);
    str := Reversed(str);
  }

  // The digits of `n`, least significant first.
  method WriteDigits(n: nat) returns (str: string, ghost ds: seq<nat>)
    ensures AreDigits(58, ds) && str == Text(ds) && Reversed(ds) == Zeros(0) + Digits(58, n)
  {
    hide Digits, Text, Zeros, Reversed;
    var bn := n;
    str, ds := "", [];
    NoDigits58();
    while bn > 0
      invariant bn >= 0 && AreDigits(58, ds)
      invariant Digits(58, n) == Digits(58, bn) + Reversed(ds) && str == Text(ds)
      decreases bn
    {
      DigitsStep(bn);
      ReversedSnoc(ds, bn % 58);
      TextSnoc(ds, bn % 58);
      str := str + [Symbol(bn % 58)];
      ds := ds + [bn % 58];
      bn := bn / 58;
    }
  }

  lemma TextSnoc(ds: seq<nat>, d: nat)
    requires AreDigits(58, ds) && d < 58
    ensures Text(ds + [d]) == Text(ds) + [Symbol(d)]
  {
    assert (ds + [d])[..|ds|] == ds;
  }

  // The zero byte at the end keeps the number from being read as negative.
  lemma ReadPositive(data: seq<nat>)
    ensures SetVch(Reversed(data) + [0]) == Value(256, data)
  {
    ReversedSnoc(Reversed(data), 0);
    ReversedTwice(data);
    assert Zeros(1) == [0];
    LeadingZerosIgnored(256, 1, data);
  }

  lemma DigitsStep(n: nat)
    requires n > 0
    ensures Digits(58, n) == Digits(58, n / 58) + [n % 58]
  {
  }

  lemma NoDigits58()
    ensures Digits(58, 0) == [] && Text([]) == "" && Reversed<nat>([]) == [] && Zeros(0) == []
  {
  }

  lemma {:induction false} ZeroInFront(p: nat)
    ensures [0] + Zeros(p) == Zeros(p + 1)
  {
    var a, b := [0] + Zeros(p), Zeros(p + 1);
    assert forall i :: 0 <= i < |a| ==> a[i] == b[i];
  }

  lemma ReversedText(ds: seq<nat>)
    requires AreDigits(58, ds)
    ensures AreDigits(58, Reversed(ds)) && Reversed(Text(ds)) == Text(Reversed(ds))
  {
    hide Symbol;
    ReversedElements(ds);
    ReversedElements(Text(ds));
  }

  // ---------- decoding ----------

  // The bytes that a text over the alphabet stands for.
  function Bytes(core: string): (data: seq<nat>)
    requires AllSymbols(core)
    ensures AreDigits(256, data)
  {
    Zeros(LeadingZeros(Places(core))) + Digits(256, Value(58, Places(core)))
  }

  // A C string ends at its first null character.
  function CString(s: string): (t: string)
    ensures '\0' !in t && t <= s && (t == s || s[|t|] == '\0')
  {
    if s == [] || s[0] == '\0' then [] else [s[0]] + CString(s[1..])
  }

  predicate Blank(s: string) { forall i :: 0 <= i < |s| ==> IsSpace(s[i]) }

  // Space, then a text over the alphabet, then space.
  ghost predicate Padded(s: string, core: string) {
    AllSymbols(core) && exists a, b :: Blank(a) && Blank(b) && s == a + core + b
  }

  method DecodeBase58(psz: string) returns (r: Option<seq<nat>>, ghost core: string)
    ensures r.Some? ==> Padded(CString(psz), core) && r == Some(Bytes(core))
    ensures r.None? ==> forall c :: !Padded(CString(psz), c)
  {
    hide PlaceOf, Symbol, Value, Digits, CString, Zeros, Reversed, LeadingZeros, Trimmed, GetVch, IsSpace;
    var s := CString(psz);
    var start := SkipSpaces(s, 0);
    var p, bn := ReadSymbols(s, start);
    core := s[start..p];
    var q := SkipSpaces(s, p);
    if q < |s| {
      NotPadded(s, start, p, q);
      return None, core;
    }
    assert s[p..q] == s[p..] && s[0..start] == s[..start];
    assert s == s[..start] + core + s[p..];
    var vchTmp := Trimmed(GetVch(bn));
    TrimmedDigits(bn);
    var zeros := 0;
    while start + zeros < |s| && s[start + zeros] == Symbol(0)
      invariant start + zeros <= |s| && forall i :: start <= i < start + zeros ==> s[i] == Symbol(0)
    {
      zeros := zeros + 1;
    }
    CountedOnes(s, start, p, zeros);
    r := Some(Zeros(zeros) + Reversed(vchTmp));
  }

  method SkipSpaces(s: string, start: nat) returns (p: nat)
    requires start <= |s|
    ensures start <= p <= |s| && Blank(s[start..p]) && (p < |s| ==> !IsSpace(s[p]))
  {
    p := start;
    while p < |s| && IsSpace(s[p])
      invariant start <= p <= |s| && forall i :: start <= i < p ==> IsSpace(s[i])
    {
      p := p + 1;
    }
  }

  method ReadSymbols(s: string, start: nat) returns (p: nat, bn: nat)
    requires start <= |s|
    ensures start <= p <= |s| && AllSymbols(s[start..p]) && (p < |s| ==> PlaceOf(s[p]).None?)
    ensures bn == Value(58, Places(s[start..p]))
  {
    hide PlaceOf, Value;
    p, bn := start, 0;
    assert s[start..p] == [];
    ValueOfNone(58);
    while p < |s| && PlaceOf(s[p]).Some?
      invariant start <= p <= |s| && AllSymbols(s[start..p]) && bn == Value(58, Places(s[start..p]))
    {
      PlacesStep(s, start, p);
      bn := bn * 58 + PlaceOf(s[p]).value;
      p := p + 1;
    }
  }

  // Drops a sign byte.
  function Trimmed(vch: seq<nat>): seq<nat> {
    if |vch| >= 2 && vch[|vch| - 1] == 0 && vch[|vch| - 2] >= 0x80 then vch[..|vch| - 1] else vch
  }

  lemma TrimmedDigits(n: nat)
    ensures Reversed(Trimmed(GetVch(n))) == Digits(256, n)
  {
    hide Digits;
    var b := ToMpi(n);
    ReversedElements(b);
    ReversedTwice(b);
    var m := Digits(256, n);
    if m != [] && m[0] >= 0x80 {
      assert b == [0] + m;
      var v := GetVch(n);
      assert Trimmed(v) == v[..|v| - 1];
      ReversedElements(m);
      assert v[..|v| - 1] == Reversed(m);
      ReversedTwice(m);
    }
  }

  lemma PlacesStep(s: string, start: nat, p: nat)
    requires start <= p < |s| && AllSymbols(s[start..p]) && PlaceOf(s[p]).Some?
    ensures AllSymbols(s[start..p + 1])
    ensures Value(58, Places(s[start..p + 1])) == Value(58, Places(s[start..p])) * 58 + PlaceOf(s[p]).value
  {
    hide PlaceOf, Value;
    var t, u := s[start..p], s[start..p + 1];
    assert u == t + [s[p]] && u[..|t|] == t;
    ValueSnoc(58, Places(t), PlaceOf(s[p]).value);
  }

  lemma SpaceIsNoSymbol(c: char)
    requires IsSpace(c)
    ensures PlaceOf(c).None?
  {
  }

  // Symbols stand together, and all else is space.
  ghost predicate Shaped(s: string) {
    && (forall i :: 0 <= i < |s| ==> IsSpace(s[i]) || PlaceOf(s[i]).Some?)
    && (forall i, j, k :: 0 <= i < j < k < |s| && PlaceOf(s[i]).Some? && PlaceOf(s[k]).Some? ==> PlaceOf(s[j]).Some?)
  }

  lemma PaddedShaped(s: string, c: string)
    requires Padded(s, c)
    ensures Shaped(s)
  {
    hide PlaceOf;
    var a, b :| Blank(a) && Blank(b) && s == a + c + b;
    CoreBounds(s, a, c, b);
  }

  lemma NotPadded(s: string, start: nat, p: nat, q: nat)
    requires start <= p <= q < |s| && Blank(s[p..q]) && !IsSpace(s[q])
    requires !IsSpace(s[start]) && AllSymbols(s[start..p]) && PlaceOf(s[p]).None?
    ensures forall c :: !Padded(s, c)
  {
    hide PlaceOf;
    assert start < p ==> s[start..p][0] == s[start];
    assert p < q ==> s[p..q][0] == s[p];
    assert !Shaped(s);
    forall c ensures !Padded(s, c) {
      if Padded(s, c) {
        PaddedShaped(s, c);
      }
    }
  }

  lemma CountedOnes(s: string, start: nat, p: nat, zeros: nat)
    requires start <= p <= |s| && AllSymbols(s[start..p]) && (p < |s| ==> PlaceOf(s[p]).None?)
    requires start + zeros <= |s| && (forall i :: start <= i < start + zeros ==> s[i] == Symbol(0))
    requires start + zeros < |s| ==> s[start + zeros] != Symbol(0)
    ensures zeros == LeadingZeros(Places(s[start..p]))
  {
    hide PlaceOf, Symbol, LeadingZeros;
    PlaceOfSymbol(0);
    var core := s[start..p];
    var ds := Places(core);
    assert p < |s| ==> s[p] != Symbol(0);
    assert zeros <= |core|;
    forall i | 0 <= i < |core| ensures ds[i] == 0 <==> s[start + i] == Symbol(0) {
      assert core[i] == s[start + i];
      PlaceOfSymbol(ds[i]);
      SymbolOfPlace(core[i]);
    }
  }

  lemma SymbolOfPlace(c: char)
    ensures PlaceOf(c).Some? ==> PlaceOf(c).value < 58 && Symbol(PlaceOf(c).value) == c
  {
  }

  // ---------- both ways ----------

  lemma EncodedSymbols(data: seq<nat>)
    requires AreDigits(256, data)
    ensures AllSymbols(Encoded(data))
    ensures Places(Encoded(data)) == Zeros(LeadingZeros(data)) + Digits(58, Value(256, data))
  {
    hide Digits, Value;
    PlacesOfText(Zeros(LeadingZeros(data)) + Digits(58, Value(256, data)));
  }

  // Decoding an encoded byte string gives it back, leading zeros included.
  lemma DecodeEncode(data: seq<nat>)
    requires AreDigits(256, data)
    ensures Padded(CString(Encoded(data)), Encoded(data)) && Bytes(Encoded(data)) == data
  {
    hide Digits, Value, PlaceOf;
    var text, k, n := Encoded(data), LeadingZeros(data), Value(256, data);
    EncodedSymbols(data);
    LeadingZerosOf(k, Digits(58, n));
    LeadingZerosIgnored(58, k, Digits(58, n));
    ValueOfDigits(58, n);
    SplitZeros(256, data);
    NoNull(text);
    assert text == [] + text + [];
    assert Blank([]);
  }

  lemma NoNull(text: string)
    requires AllSymbols(text)
    ensures CString(text) == text
  {
    assert PlaceOf('\0').None?;
  }

  // Encoding what a text over the alphabet decodes to gives the text back.
  lemma EncodeDecode(core: string)
    requires AllSymbols(core)
    ensures Encoded(Bytes(core)) == core
  {
    hide Digits, Value, PlaceOf;
    var ds := Places(core);
    var k, n, data := LeadingZeros(ds), Value(58, ds), Bytes(core);
    LeadingZerosOf(k, Digits(256, n));
    LeadingZerosIgnored(256, k, Digits(256, n));
    ValueOfDigits(256, n);
    SplitZeros(58, ds);
    TextOfPlaces(core);
  }

  // A text stands for one core only, so decoding is well defined.
  lemma OneCore(s: string, c: string, d: string)
    requires Padded(s, c) && Padded(s, d)
    ensures c == d
  {
    hide PlaceOf;
    var a, b :| Blank(a) && Blank(b) && s == a + c + b;
    var e, f :| Blank(e) && Blank(f) && s == e + d + f;
    CoreBounds(s, a, c, b);
    CoreBounds(s, e, d, f);
    assert c != [] ==> PlaceOf(s[|a|]).Some? && PlaceOf(s[|a| + |c| - 1]).Some?;
    assert d != [] ==> PlaceOf(s[|e|]).Some? && PlaceOf(s[|e| + |d| - 1]).Some?;
    assert c != [] || d != [] ==> |a| == |e| && |c| == |d|;
  }

  lemma CoreBounds(s: string, a: string, c: string, b: string)
    requires AllSymbols(c) && Blank(a) && Blank(b) && s == a + c + b
    ensures forall i :: 0 <= i < |s| ==> (PlaceOf(s[i]).Some? <==> |a| <= i < |a| + |c|)
    ensures c == s[|a|..|a| + |c|]
  {
    hide PlaceOf;
    forall i | 0 <= i < |s| ensures PlaceOf(s[i]).Some? <==> |a| <= i < |a| + |c| {
      if i < |a| {
        SpaceIsNoSymbol(a[i]);
      } else if i < |a| + |c| {
        assert s[i] == c[i - |a|];
      } else {
        SpaceIsNoSymbol(b[i - |a| - |c|]);
      }
    }
  }
}
