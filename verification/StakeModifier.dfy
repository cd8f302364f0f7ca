/**
 The stake modifier: 64 bits, each the entropy bit of one block picked from the recent chain.
 */
module StakeModifier {
  import opened Wrappers
  import opened BlockTree
  import opened Sequences
  import opened Numerals
  import opened Sorting

  const MODIFIER_INTERVAL_RATIO := 3
  const ROUNDS := 64

  // The hash of a block's proof hash and the previous modifier.
  type SelectionHash = (Hash, nat) -> nat

  // ---------- interval sections ----------

  function Section(interval: nat, n: nat): nat
    requires n < ROUNDS
  {
    Over(interval * 63, 63 + (63 - n) * (MODIFIER_INTERVAL_RATIO - 1))
  }

  function Sections(interval: nat, n: nat): nat
    requires n <= ROUNDS
  {
    if n == 0 then 0 else Sections(interval, n - 1) + Section(interval, n - 1)
  }

  method GetStakeModifierSelectionInterval(interval: nat) returns (total: nat)
    ensures total == Sections(interval, ROUNDS)
  {
    total := 0;
    for n := 0 to ROUNDS
      invariant total == Sections(interval, n)
    {
      total := total + Section(interval, n);
    }
  }

  // Each section is the interval times 63 over a number that falls from 189 to 63, rounded down.
  lemma SectionIs(interval: nat, n: nat)
    requires n < ROUNDS
    ensures var section := Sections(interval, n + 1) - Sections(interval, n);
            section * (189 - 2 * n) <= interval * 63 < (section + 1) * (189 - 2 * n)
  {
    assert 63 + (63 - n) * 2 == 189 - 2 * n;
    Divided(189 - 2 * n, interval * 63);
  }

  // The sections grow from a third of the interval to the whole of it.
  lemma SectionsGrow(interval: nat, m: nat, n: nat)
    requires m <= n < ROUNDS
    ensures Section(interval, 0) == interval / MODIFIER_INTERVAL_RATIO && Section(interval, 63) == interval
    ensures Section(interval, m) <= Section(interval, n)
  {
    DivAntitone(interval * 63, 63 + (63 - n) * 2, 63 + (63 - m) * 2);
    assert interval * 63 / 189 == interval / 3;
  }

  // ---------- candidates ----------

  datatype Candidate = Candidate(time: nat, hash: Hash)

  // The blocks of the path of `h`, from the top down to the first one older than `start`.
  function Recent(t: Tree, genesis: Hash, h: Hash, start: int): (r: seq<Hash>)
    requires WellFormed(t, genesis) && h in t
    ensures forall i :: 0 <= i < |r| ==> r[i] in t && t[r[i]].height <= t[h].height && t[r[i]].head.time >= start
    ensures forall i, j :: 0 <= i < j < |r| ==> t[r[i]].height < t[r[j]].height
    decreases t[h].height
  {
    if t[h].head.time < start then []
    else if h == genesis then [h]
    else assert LinkedBack(t, h); Recent(t, genesis, t[h].prev, start) + [h]
  }

  // `r` is the end of `p` after a block older than `start`, or the whole of `p`.
  ghost predicate EndStretch(t: Tree, p: seq<Hash>, r: seq<Hash>, start: int) {
    && |r| <= |p| && r == p[|p| - |r|..]
    && (|r| < |p| ==> var older := p[|p| - |r| - 1]; older in t && t[older].head.time < start)
  }

  lemma StretchStep(t: Tree, p: seq<Hash>, r: seq<Hash>, start: int, h: Hash)
    requires EndStretch(t, p, r, start)
    ensures EndStretch(t, p + [h], r + [h], start)
  {
    assert r + [h] == (p + [h])[|p| - |r|..];
  }

  // The blocks collected are the longest stretch below and including `h` with none older than `start`.
  lemma {:induction false} RecentStretch(t: Tree, genesis: Hash, h: Hash, start: int)
    requires WellFormed(t, genesis) && h in t
    ensures EndStretch(t, Path(t, genesis, h), Recent(t, genesis, h, start), start)
    decreases t[h].height
  {
    if t[h].head.time >= start && h != genesis {
      hide WellFormed, Path, Recent, EndStretch;
      OneStep(t, genesis, h);
      Parent(t, genesis, h);
      RecentStep(t, genesis, h, start);
      RecentStretch(t, genesis, t[h].prev, start);
      StretchStep(t, Path(t, genesis, t[h].prev), Recent(t, genesis, t[h].prev, start), start, h);
    }
  }

  // In order of time, equal times in order of hash.
  predicate Earlier(a: Candidate, b: Candidate) { a.time < b.time || (a.time == b.time && a.hash < b.hash) }

  lemma EarlierIsOrder()
    ensures IsOrder(Earlier)
  {
  }

  function Timed(t: Tree, hs: seq<Hash>): seq<Candidate>
    requires forall i :: 0 <= i < |hs| ==> hs[i] in t
  {
    seq(|hs|, i requires 0 <= i < |hs| => Candidate(t[hs[i]].head.time, hs[i]))
  }

  ghost predicate Sound(t: Tree, cands: seq<Candidate>) {
    && Sorted(Earlier, cands) && NoDup(cands)
    && forall i :: 0 <= i < |cands| ==> cands[i].hash in t && cands[i].time == t[cands[i].hash].head.time
  }

  function Candidates(t: Tree, genesis: Hash, h: Hash, start: int): (cands: seq<Candidate>)
    requires WellFormed(t, genesis) && h in t
    ensures Sound(t, cands) && |cands| == |Recent(t, genesis, h, start)|
    ensures multiset(cands) == multiset(Timed(t, Recent(t, genesis, h, start)))
  {
    EarlierIsOrder();
    SortSorted(Earlier, Timed(t, Recent(t, genesis, h, start)));
    Sort(Earlier, Timed(t, Recent(t, genesis, h, start)))
  }

  method CollectCandidates(t: Tree, genesis: Hash, h: Hash, start: int) returns (cands: seq<Candidate>)
    requires WellFormed(t, genesis) && h in t
    ensures cands == Candidates(t, genesis, h, start)
    ensures forall i, j :: 0 <= i < j < |cands| ==>
              cands[i].time < cands[j].time || (cands[i].time == cands[j].time && cands[i].hash < cands[j].hash)
  {
    hide WellFormed, Sort, Recent, Reversed, Timed, Sound;
    ghost var list;
    cands, list := WalkBack(t, genesis, h, start);
    ReversedTimed(t, list);
    cands := Sort(Earlier, Reversed(cands));
    assert cands == Candidates(t, genesis, h, start);
    InOrder(t, cands);
  }

  lemma InOrder(t: Tree, cands: seq<Candidate>)
    requires Sound(t, cands)
    ensures forall i, j :: 0 <= i < j < |cands| ==>
              cands[i].time < cands[j].time || (cands[i].time == cands[j].time && cands[i].hash < cands[j].hash)
  {
    forall i, j | 0 <= i < j < |cands| ensures !Earlier(cands[j], cands[i]) && cands[i] != cands[j] {
    }
  }

  method WalkBack(t: Tree, genesis: Hash, h: Hash, start: int) returns (cands: seq<Candidate>, ghost list: seq<Hash>)
    requires WellFormed(t, genesis) && h in t
    ensures (forall i :: 0 <= i < |list| ==> list[i] in t) && cands == Timed(t, list)
    ensures Recent(t, genesis, h, start) == Reversed(list)
  {
    hide WellFormed, Recent, Reversed, Timed;
    cands, list := [], [];
    var index := Some(h);
    NothingListed(t);
    while index.Some? && t[index.value].head.time >= start
      invariant index.Some? ==> index.value in t
      invariant (forall i :: 0 <= i < |list| ==> list[i] in t) && cands == Timed(t, list)
      invariant Recent(t, genesis, h, start) == RecentFrom(t, genesis, index, start) + Reversed(list)
      decreases if index.Some? then t[index.value].height + 1 else 0
    {
      var x := index.value;
      RecentStep(t, genesis, x, start);
      TimedStep(t, list, x);
      ReversedSnoc(list, x);
      Regroup(RecentFrom(t, genesis, Before(t, x), start), x, Reversed(list));
      cands := cands + [Candidate(t[x].head.time, x)];
      list := list + [x];
      index := Before(t, x);
    }
    RecentStops(t, genesis, index, start);
  }

  // The predecessor, if there is one.
  function Before(t: Tree, h: Hash): Option<Hash>
    requires h in t
  {
    if t[h].prev != 0 then Some(t[h].prev) else None
  }

  lemma Regroup<T>(a: seq<T>, x: T, b: seq<T>)
    ensures (a + [x]) + b == a + ([x] + b)
  {
  }

  function RecentFrom(t: Tree, genesis: Hash, index: Option<Hash>, start: int): seq<Hash>
    requires WellFormed(t, genesis) && (index.Some? ==> index.value in t)
  {
    if index.Some? then Recent(t, genesis, index.value, start) else []
  }

  lemma NothingListed(t: Tree)
    ensures Reversed<Hash>([]) == [] && Timed(t, []) == []
  {
  }

  lemma RecentStops(t: Tree, genesis: Hash, index: Option<Hash>, start: int)
    requires WellFormed(t, genesis) && (index.Some? ==> index.value in t && t[index.value].head.time < start)
    ensures RecentFrom(t, genesis, index, start) == []
  {
  }

  lemma RecentStep(t: Tree, genesis: Hash, h: Hash, start: int)
    requires WellFormed(t, genesis) && h in t && t[h].head.time >= start
    ensures t[h].prev != 0 ==> t[h].prev in t && t[t[h].prev].height < t[h].height
    ensures Recent(t, genesis, h, start) == RecentFrom(t, genesis, Before(t, h), start) + [h]
  {
    Parent(t, genesis, h);
  }

  lemma TimedStep(t: Tree, list: seq<Hash>, h: Hash)
    requires (forall i :: 0 <= i < |list| ==> list[i] in t) && h in t
    ensures Timed(t, list + [h]) == Timed(t, list) + [Candidate(t[h].head.time, h)]
  {
  }

  lemma Parent(t: Tree, genesis: Hash, h: Hash)
    requires WellFormed(t, genesis) && h in t
    ensures t[h].prev == 0 <==> h == genesis
    ensures h != genesis ==> t[h].prev in t && t[t[h].prev].height == t[h].height - 1
  {
    assert h != genesis ==> LinkedBack(t, h);
  }

  lemma ReversedTimed(t: Tree, list: seq<Hash>)
    requires forall i :: 0 <= i < |list| ==> list[i] in t
    ensures (forall i :: 0 <= i < |Reversed(list)| ==> Reversed(list)[i] in t)
    ensures Reversed(Timed(t, list)) == Timed(t, Reversed(list))
  {
    ReversedElements(list);
    ReversedElements(Timed(t, list));
  }

  // ---------- one round ----------

  // The lower, the better; proof-of-stake blocks are favoured.
  function Score(t: Tree, select: SelectionHash, modifier: nat, h: Hash): nat
    requires h in t
  {
    var hash := select(t[h].head.hashProof, modifier);
    if t[h].head.proofOfStake then Over(hash, 0x1_0000_0000) else hash
  }

  // The selection hash, without its last 32 bits for a proof-of-stake block: such a block beats every
  // proof-of-work block with a selection hash of 2^224 or more.
  lemma ScoreIs(t: Tree, select: SelectionHash, modifier: nat, h: Hash)
    requires h in t
    ensures var hash, score := select(t[h].head.hashProof, modifier), Score(t, select, modifier, h);
            if t[h].head.proofOfStake
            then && score * 0x1_0000_0000 <= hash < (score + 1) * 0x1_0000_0000
                 && (hash < Pow(2, 256) ==> score < Pow(2, 224))
            else score == hash
  {
    hide Pow;
    var hash := select(t[h].head.hashProof, modifier);
    PowSplit(2, 224, 32);
    assert Pow(2, 32) == 0x1_0000_0000 by { Two32(); }
    if t[h].head.proofOfStake && hash < Pow(2, 256) && Score(t, select, modifier, h) >= Pow(2, 224) {
      Scaled(0x1_0000_0000, Pow(2, 224), Score(t, select, modifier, h));
    }
  }

  lemma Two32()
    ensures Pow(2, 32) == 0x1_0000_0000
  {
    assert Pow(2, 8) == 0x100;
    assert Pow(2, 16) == 0x1_0000 by { hide Pow; PowSplit(2, 8, 8); }
    hide Pow;
    PowSplit(2, 16, 16);
  }

  // An unselected candidate, not past the stop time.
  predicate Contends(cands: seq<Candidate>, selected: set<Hash>, stop: int, j: nat) {
    j < |cands| && cands[j].hash !in selected && cands[j].time <= stop
  }

  // The first of the best contenders, or the first unselected candidate if there is no contender.
  ghost predicate IsPick(t: Tree, cands: seq<Candidate>, selected: set<Hash>, stop: int, select: SelectionHash,
                         modifier: nat, i: nat)
    requires Sound(t, cands)
  {
    && i < |cands| && cands[i].hash !in selected
    && (Contends(cands, selected, stop, i) || forall j :: 0 <= j < i ==> cands[j].hash in selected)
    && (forall j: nat :: Contends(cands, selected, stop, j) ==>
          && Contends(cands, selected, stop, i)
          && Score(t, select, modifier, cands[i].hash) <= Score(t, select, modifier, cands[j].hash)
          && (j < i ==> Score(t, select, modifier, cands[i].hash) < Score(t, select, modifier, cands[j].hash)))
  }

  method SelectBlockFromCandidates(t: Tree, cands: seq<Candidate>, selected: set<Hash>, stop: int,
                                   select: SelectionHash, modifier: nat)
      returns (found: bool, pick: Hash, ghost at: nat)
    requires Sound(t, cands)
    ensures found <==> exists j :: 0 <= j < |cands| && cands[j].hash !in selected
    ensures found ==> IsPick(t, cands, selected, stop, select, modifier, at) && pick == cands[at].hash
  {
    hide Score;
    found, pick, at := false, 0, 0;
    var best := 0;
    for k := 0 to |cands|
      invariant !found ==> forall j :: 0 <= j < k ==> cands[j].hash in selected
      invariant found ==>
                  at < k && pick == cands[at].hash && pick !in selected && best == Score(t, select, modifier, pick)
      invariant found ==>
                  cands[at].time <= stop || (k == at + 1 && forall j :: 0 <= j < at ==> cands[j].hash in selected)
      invariant found ==> forall j :: 0 <= j < k && cands[j].hash !in selected ==>
                            && best <= Score(t, select, modifier, cands[j].hash)
                            && (j < at ==> best < Score(t, select, modifier, cands[j].hash))
    {
      var c := cands[k];
      if found && c.time > stop {
        break;
      }
      if c.hash in selected {
        continue;
      }
      var hash := Score(t, select, modifier, c.hash);
      if found && hash < best {
        best, pick, at := hash, c.hash, k;
      } else if !found {
        found, best, pick, at := true, hash, c.hash, k;
      }
    }
  }

  // The selection hash of the pick is no higher than that of any contender, where the hash of a
  // proof-of-stake block counts without its last 32 bits.
  lemma PickIsLowest(t: Tree, cands: seq<Candidate>, selected: set<Hash>, stop: int, select: SelectionHash,
                     modifier: nat, i: nat, j: nat)
    requires Sound(t, cands) && IsPick(t, cands, selected, stop, select, modifier, i)
    requires Contends(cands, selected, stop, j)
    ensures var p, o := t[cands[i].hash].head, t[cands[j].hash].head;
            var a, b := select(p.hashProof, modifier), select(o.hashProof, modifier);
            if p.proofOfStake
            then a < ((if o.proofOfStake then Over(b, 0x1_0000_0000) else b) + 1) * 0x1_0000_0000
            else if o.proofOfStake then a * 0x1_0000_0000 <= b else a <= b
  {
    hide Score, Pow;
    ScoreIs(t, select, modifier, cands[i].hash);
    ScoreIs(t, select, modifier, cands[j].hash);
    if t[cands[j].hash].head.proofOfStake {
      ShiftedOnce(select(t[cands[j].hash].head.hashProof, modifier), Score(t, select, modifier, cands[j].hash));
    }
  }

  lemma ShiftedOnce(hash: nat, score: nat)
    requires score * 0x1_0000_0000 <= hash < (score + 1) * 0x1_0000_0000
    ensures score == Over(hash, 0x1_0000_0000)
  {
  }

  // There is only one such block.
  lemma PickIsUnique(t: Tree, cands: seq<Candidate>, selected: set<Hash>, stop: int, select: SelectionHash,
                     modifier: nat, i: nat, j: nat)
    requires Sound(t, cands)
    requires IsPick(t, cands, selected, stop, select, modifier, i)
    requires IsPick(t, cands, selected, stop, select, modifier, j)
    ensures i == j
  {
    hide Score, Sound;
  }

  // ---------- all rounds ----------

  ghost predicate PickedAt(t: Tree, cands: seq<Candidate>, picks: seq<Hash>, r: nat, stop: int, select: SelectionHash,
                           modifier: nat, i: nat)
    requires Sound(t, cands) && r < |picks|
  {
    IsPick(t, cands, SetOf(picks[..r]), stop, select, modifier, i) && cands[i].hash == picks[r]
  }

  // Each round extends the stop time by its section and picks among what is left.
  ghost predicate Picked(t: Tree, cands: seq<Candidate>, picks: seq<Hash>, start: int, interval: nat,
                         select: SelectionHash, modifier: nat)
    requires Sound(t, cands)
  {
    && |picks| <= ROUNDS
    && forall r :: 0 <= r < |picks| ==> RoundDone(t, cands, picks, r, StopTime(start, interval, r), select, modifier)
  }

  // The stop time of round `r`.
  function StopTime(start: int, interval: nat, r: nat): int
    requires r < ROUNDS
  {
    start + Sections(interval, r + 1)
  }

  ghost predicate RoundDone(t: Tree, cands: seq<Candidate>, picks: seq<Hash>, r: nat, stop: int, select: SelectionHash,
                            modifier: nat)
    requires Sound(t, cands) && r < |picks|
  {
    exists i: nat :: PickedAt(t, cands, picks, r, stop, select, modifier, i)
  }

  // The picks are different candidates.
  lemma PicksDiffer(t: Tree, cands: seq<Candidate>, picks: seq<Hash>, start: int, interval: nat, select: SelectionHash,
                    modifier: nat, q: nat, r: nat)
    requires Sound(t, cands) && Picked(t, cands, picks, start, interval, select, modifier) && r < |picks|
    ensures picks[r] in t && exists i :: 0 <= i < |cands| && cands[i].hash == picks[r]
    ensures q < r ==> picks[q] != picks[r]
  {
    hide Score;
    var i: nat :| PickedAt(t, cands, picks, r, StopTime(start, interval, r), select, modifier, i);
    if q < r {
      assert picks[..r][q] == picks[q];
    }
  }

  // All nodes that see the same chain pick the same blocks.
  lemma {:induction false} PicksAreUnique(t: Tree, cands: seq<Candidate>, picks: seq<Hash>, picks': seq<Hash>,
                                          start: int,
                                          interval: nat, select: SelectionHash, modifier: nat)
    requires Sound(t, cands) && |picks| == |picks'|
    requires Picked(t, cands, picks, start, interval, select, modifier)
    requires Picked(t, cands, picks', start, interval, select, modifier)
    ensures picks == picks'
    decreases |picks|
  {
    hide IsPick, Sound, Sections;
    if |picks| > 0 {
      var r := |picks| - 1;
      PickedPrefix(t, cands, picks, start, interval, select, modifier);
      PickedPrefix(t, cands, picks', start, interval, select, modifier);
      PicksAreUnique(t, cands, picks[..r], picks'[..r], start, interval, select, modifier);
      var stop := StopTime(start, interval, r);
      var i: nat :| PickedAt(t, cands, picks, r, stop, select, modifier, i);
      var j: nat :| PickedAt(t, cands, picks', r, stop, select, modifier, j);
      PickIsUnique(t, cands, SetOf(picks[..r]), stop, select, modifier, i, j);
      assert picks == picks[..r] + [picks[r]] && picks' == picks'[..r] + [picks'[r]];
    }
  }

  lemma PickedPrefix(t: Tree, cands: seq<Candidate>, picks: seq<Hash>, start: int, interval: nat,
                     select: SelectionHash, modifier: nat)
    requires Sound(t, cands) && |picks| > 0 && Picked(t, cands, picks, start, interval, select, modifier)
    ensures Picked(t, cands, picks[..|picks| - 1], start, interval, select, modifier)
  {
    hide IsPick, Sound, Sections;
    var front := picks[..|picks| - 1];
    forall r | 0 <= r < |front|
      ensures RoundDone(t, cands, front, r, StopTime(start, interval, r), select, modifier)
    {
      var i: nat :| PickedAt(t, cands, picks, r, StopTime(start, interval, r), select, modifier, i);
      assert front[..r] == picks[..r];
      assert PickedAt(t, cands, front, r, StopTime(start, interval, r), select, modifier, i);
    }
  }

  lemma PickedMore(t: Tree, cands: seq<Candidate>, picks: seq<Hash>, start: int, interval: nat, select: SelectionHash,
                   modifier: nat, i: nat)
    requires Sound(t, cands) && |picks| < ROUNDS && Picked(t, cands, picks, start, interval, select, modifier)
    requires IsPick(t, cands, SetOf(picks), StopTime(start, interval, |picks|), select, modifier, i)
    ensures i < |cands| && Picked(t, cands, picks + [cands[i].hash], start, interval, select, modifier)
    ensures cands[i].hash !in SetOf(picks) && SetOf(picks + [cands[i].hash]) == SetOf(picks) + {cands[i].hash}
  {
    hide Sound, Sections, Score;
    var more := picks + [cands[i].hash];
    forall r | 0 <= r < |more|
      ensures RoundDone(t, cands, more, r, StopTime(start, interval, r), select, modifier)
    {
      if r < |picks| {
        var k: nat :| PickedAt(t, cands, picks, r, StopTime(start, interval, r), select, modifier, k);
        assert more[..r] == picks[..r];
        assert PickedAt(t, cands, more, r, StopTime(start, interval, r), select, modifier, k);
      } else {
        assert more[..r] == picks;
        assert PickedAt(t, cands, more, r, StopTime(start, interval, r), select, modifier, i);
      }
    }
  }

  // Fewer selected blocks than candidates leave a candidate.
  lemma {:induction false} SomeLeft(t: Tree, cands: seq<Candidate>, selected: set<Hash>)
    requires Sound(t, cands) && |selected| < |cands|
    ensures exists j :: 0 <= j < |cands| && cands[j].hash !in selected
    decreases |cands|
  {
    var last := cands[|cands| - 1];
    if last.hash in selected {
      var front := cands[..|cands| - 1];
      SomeLeft(t, front, selected - {last.hash});
      var j :| 0 <= j < |front| && front[j].hash !in selected - {last.hash};
      assert front[j] != last;
      assert cands[j].hash !in selected;
    }
  }

  // ---------- bits ----------

  // Bit `r` of the number is `bits[r]`.  A bit is added where the source ors it in: it is above all others.
  function FromBits(bits: seq<bool>): (m: nat)
    ensures m < Pow(2, |bits|)
  {
    if bits == [] then 0
    else FromBits(bits[..|bits| - 1]) + if bits[|bits| - 1] then Pow(2, |bits| - 1) else 0
  }

  lemma FromBitsStep(bits: seq<bool>, bit: bool)
    ensures FromBits(bits + [bit]) == FromBits(bits) + if bit then Pow(2, |bits|) else 0
  {
    assert (bits + [bit])[..|bits|] == bits;
  }

  lemma PowAbove(r: nat, n: nat)
    requires r < n
    ensures Pow(2, n) == Pow(2, r) * (2 * Pow(2, n - r - 1))
  {
    PowSplit(2, r, n - r);
  }

  lemma {:induction false} BitOf(bits: seq<bool>, r: nat)
    requires r < |bits|
    ensures FromBits(bits) / Pow(2, r) % 2 == 1 <==> bits[r]
    decreases |bits|
  {
    hide FromBits, Pow;
    var n := |bits| - 1;
    var low := bits[..n];
    assert bits == low + [bits[n]];
    FromBitsStep(low, bits[n]);
    if r == n {
      TopBit(FromBits(low), Pow(2, n), bits[n]);
    } else {
      BitOf(low, r);
      PowAbove(r, n);
      HigherBit(FromBits(low), Pow(2, r), if bits[n] then Pow(2, n - r - 1) else 0);
    }
  }

  lemma TopBit(low: nat, p: nat, bit: bool)
    requires low < p
    ensures (low + if bit then p else 0) / p == if bit then 1 else 0
  {
  }

  lemma HigherBit(low: nat, p: nat, q: nat)
    requires p > 0
    ensures (low + p * (2 * q)) / p % 2 == low / p % 2
  {
    assert (low + p * (2 * q)) / p == low / p + 2 * q by {
      Shifted(low, p, 2 * q);
    }
  }

  lemma Shifted(low: nat, p: nat, k: nat)
    requires p > 0
    ensures (low + p * k) / p == low / p + k
  {
    assert low + p * k == (low / p + k) * p + low % p;
    DivMod(low / p + k, p, low % p);
  }

  function Entropy(t: Tree, picks: seq<Hash>): (bits: seq<bool>)
    requires forall r :: 0 <= r < |picks| ==> picks[r] in t
    ensures |bits| == |picks| && forall r :: 0 <= r < |picks| ==> bits[r] == t[picks[r]].head.entropyBit
  {
    if picks == [] then [] else Entropy(t, picks[..|picks| - 1]) + [t[picks[|picks| - 1]].head.entropyBit]
  }

  // ---------- the next modifier ----------

  // The nearest block, from `h` down, that generated a modifier.
  function LastGenerated(t: Tree, genesis: Hash, h: Hash): (g: Option<Hash>)
    requires WellFormed(t, genesis) && h in t
    ensures g.Some? ==> g.value in t
    decreases t[h].height
  {
    if t[h].head.generatedModifier then Some(h)
    else if h == genesis then None
    else assert LinkedBack(t, h); LastGenerated(t, genesis, t[h].prev)
  }

  // No block of the path of `h` above height `low` generated a modifier.
  ghost predicate NoneAbove(t: Tree, genesis: Hash, h: Hash, low: int)
    requires WellFormed(t, genesis) && h in t
  {
    var p := Path(t, genesis, h);
    forall i :: 0 <= i < |p| && low < i ==> !t[p[i]].head.generatedModifier
  }

  lemma {:induction false} LastGeneratedIsNearest(t: Tree, genesis: Hash, h: Hash)
    requires WellFormed(t, genesis) && h in t
    ensures var g := LastGenerated(t, genesis, h);
            if g.None? then NoneAbove(t, genesis, h, -1)
            else && IsAncestor(t, genesis, g.value, h) && t[g.value].head.generatedModifier
                 && NoneAbove(t, genesis, h, t[g.value].height)
    decreases t[h].height
  {
    var p := Path(t, genesis, h);
    SelfAncestor(t, genesis, h);
    if !t[h].head.generatedModifier && h != genesis {
      OneStep(t, genesis, h);
      LastGeneratedIsNearest(t, genesis, t[h].prev);
    }
  }

  method GetLastStakeModifier(t: Tree, genesis: Hash, h: Hash) returns (ok: bool, modifier: nat, time: nat)
    requires WellFormed(t, genesis) && h in t
    ensures var g := LastGenerated(t, genesis, h);
            && (ok <==> g.Some?)
            && (ok ==> modifier == t[g.value].head.stakeModifier && time == t[g.value].head.time)
            && (!ok ==> modifier == 0 && time == 0)
  {
    hide WellFormed;
    var index := h;
    Parent(t, genesis, index);
    while t[index].prev != 0 && !t[index].head.generatedModifier
      invariant index in t && (t[index].prev == 0 <==> index == genesis)
      invariant LastGenerated(t, genesis, index) == LastGenerated(t, genesis, h)
      decreases t[index].height
    {
      Parent(t, genesis, index);
      index := t[index].prev;
      Parent(t, genesis, index);
    }
    if !t[index].head.generatedModifier {
      return false, 0, 0;
    }
    return true, t[index].head.stakeModifier, t[index].head.time;
  }

  // The last multiple of the interval not after `time`.
  function Aligned(time: nat, interval: nat): nat
    requires interval > 0
  {
    time / interval * interval
  }

  function SelectionStart(time: nat, interval: nat): int
    requires interval > 0
  {
    Aligned(time, interval) - Sections(interval, ROUNDS)
  }

  // `modifier` collects the entropy bits of as many picks as there are candidates, up to 64.
  ghost predicate IsNextModifier(t: Tree, genesis: Hash, h: Hash, interval: nat, select: SelectionHash, last: nat,
                                 picks: seq<Hash>, modifier: nat)
    requires WellFormed(t, genesis) && h in t && interval > 0
  {
    var start := SelectionStart(t[h].head.time, interval);
    var cands := Candidates(t, genesis, h, start);
    && Picked(t, cands, picks, start, interval, select, last)
    && |picks| == (if |cands| < ROUNDS then |cands| else ROUNDS)
    && (forall r :: 0 <= r < |picks| ==> picks[r] in t)
    && modifier == FromBits(Entropy(t, picks))
  }

  method ComputeNextStakeModifier(t: Tree, genesis: Hash, prev: Option<Hash>, interval: nat, select: SelectionHash)
      returns (ok: bool, modifier: nat, generated: bool, ghost picks: seq<Hash>)
    requires WellFormed(t, genesis) && interval > 0 && (prev.Some? ==> prev.value in t)
    ensures prev.None? ==> ok && modifier == 0 && generated
    ensures prev.Some? ==> (ok <==> LastGenerated(t, genesis, prev.value).Some?)
    ensures !ok ==> modifier == 0 && !generated
    ensures prev.Some? && ok ==>
              var h, last := prev.value, t[LastGenerated(t, genesis, prev.value).value].head;
              && (generated <==> last.time / interval < t[h].head.time / interval)
              && (!generated ==> modifier == last.stakeModifier)
              && (generated ==> IsNextModifier(t, genesis, h, interval, select, last.stakeModifier, picks, modifier))
  {
    hide WellFormed, LastGenerated, Candidates, Picked, FromBits;
    modifier, generated, picks := 0, false, [];
    if prev.None? {
      return true, 0, true, [];
    }
    var time;
    ok, modifier, time := GetLastStakeModifier(t, genesis, prev.value);
    if !ok {
      return;
    }
    if time / interval >= t[prev.value].head.time / interval {
      return;
    }
    modifier, picks := SelectBlocks(t, genesis, prev.value, interval, select, modifier);
    generated := true;
  }

  method SelectBlocks(t: Tree, genesis: Hash, h: Hash, interval: nat, select: SelectionHash, last: nat)
    returns (modifier: nat, ghost picks: seq<Hash>)
    requires WellFormed(t, genesis) && h in t && interval > 0
    ensures IsNextModifier(t, genesis, h, interval, select, last, picks, modifier)
    ensures exists p :: IsNextModifier(t, genesis, h, interval, select, last, p, modifier)
  {
    hide WellFormed, Recent, Sort, IsPick, Picked, Sound, FromBits, Entropy, Pow, SetOf, Candidates;
    var selectionInterval := GetStakeModifierSelectionInterval(interval);
    var start := t[h].head.time / interval * interval - selectionInterval;
    var cands := CollectCandidates(t, genesis, h, start);
    modifier, picks := 0, [];
    var stop := start;
    var selected := {};
    PickedNone(t, cands, start, interval, select, last);
    NoEntropy(t);
    for round := 0 to if |cands| < ROUNDS then |cands| else ROUNDS
      invariant |picks| == round && selected == SetOf(picks) && |selected| == round
      invariant stop == start + Sections(interval, round)
      invariant Picked(t, cands, picks, start, interval, select, last)
      invariant (forall r :: 0 <= r < |picks| ==> picks[r] in t) && modifier == FromBits(Entropy(t, picks))
    {
      stop := stop + Section(interval, round);
      var found, pick;
      ghost var at;
      found, pick, at := SelectBlockFromCandidates(t, cands, selected, stop, select, last);
      SomeLeft(t, cands, selected);
      PickedMore(t, cands, picks, start, interval, select, last, at);
      PickIndexed(t, cands, at);
      EntropyStep(t, picks, pick);
      modifier := modifier + if t[pick].head.entropyBit then Pow(2, round) else 0;
      picks := picks + [pick];
      selected := selected + {pick};
    }
  }

  lemma NoEntropy(t: Tree)
    ensures SetOf<Hash>([]) == {} && FromBits(Entropy(t, [])) == 0
  {
  }

  lemma EntropyStep(t: Tree, picks: seq<Hash>, pick: Hash)
    requires (forall r :: 0 <= r < |picks| ==> picks[r] in t) && pick in t
    ensures FromBits(Entropy(t, picks + [pick])) ==
              FromBits(Entropy(t, picks)) + if t[pick].head.entropyBit then Pow(2, |picks|) else 0
  {
    hide FromBits, Pow;
    assert (picks + [pick])[..|picks|] == picks;
    FromBitsStep(Entropy(t, picks), t[pick].head.entropyBit);
  }

  lemma PickedNone(t: Tree, cands: seq<Candidate>, start: int, interval: nat, select: SelectionHash, modifier: nat)
    requires Sound(t, cands)
    ensures Picked(t, cands, [], start, interval, select, modifier)
  {
  }

  lemma PickIndexed(t: Tree, cands: seq<Candidate>, i: nat)
    requires Sound(t, cands) && i < |cands|
    ensures cands[i].hash in t
  {
  }

  // What a generated modifier is: there is at least one pick, bit `r` is the entropy bit of the
  // `r`-th pick, all higher bits are 0, the picks differ, and after 64 rounds the stop time is
  // the last multiple of the interval.
  lemma ModifierBits(t: Tree, genesis: Hash, h: Hash, interval: nat, select: SelectionHash, last: nat,
                     picks: seq<Hash>, modifier: nat, q: nat, r: nat)
    requires WellFormed(t, genesis) && h in t && interval > 0
    requires IsNextModifier(t, genesis, h, interval, select, last, picks, modifier)
    ensures |picks| > 0 && modifier < Pow(2, |picks|) <= Pow(2, ROUNDS)
    ensures r < |picks| ==> (modifier / Pow(2, r) % 2 == 1 <==> t[picks[r]].head.entropyBit)
    ensures q < r < |picks| ==> picks[q] != picks[r]
    ensures SelectionStart(t[h].head.time, interval) + Sections(interval, ROUNDS) == Aligned(t[h].head.time, interval)
    ensures Aligned(t[h].head.time, interval) <= t[h].head.time < Aligned(t[h].head.time, interval) + interval
    ensures Aligned(t[h].head.time, interval) % interval == 0
  {
    hide WellFormed, Recent, Sort, Sound, Picked, Pow, FromBits, Sections;
    var time := t[h].head.time;
    var start := SelectionStart(time, interval);
    var cands := Candidates(t, genesis, h, start);
    AlignedBelow(time, interval);
    OwnCandidate(t, genesis, h, start);
    PowMonotone(2, |picks|, ROUNDS);
    if r < |picks| {
      BitOf(Entropy(t, picks), r);
      PicksDiffer(t, cands, picks, start, interval, select, last, q, r);
    }
  }

  lemma AlignedBelow(time: nat, interval: nat)
    requires interval > 0
    ensures Aligned(time, interval) <= time < Aligned(time, interval) + interval
    ensures Aligned(time, interval) % interval == 0
  {
    DivMod(time / interval, interval, 0);
  }

  lemma OwnCandidate(t: Tree, genesis: Hash, h: Hash, start: int)
    requires WellFormed(t, genesis) && h in t && start <= t[h].head.time
    ensures |Recent(t, genesis, h, start)| > 0
  {
  }
}
