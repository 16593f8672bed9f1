/** The stake modifier: bits contributed by up to 64 blocks selected from the recent past. */
module StakeModifier {
  import opened Basics

  const MODIFIER_INTERVAL_RATIO := 3

  datatype BlockInfo = BlockInfo(hash: nat, nTime: nat, fProofOfStake: bool, hashProofOfStake: nat, fEntropy: bool,
                                 fGeneratedStakeModifier: bool, nStakeModifier: nat)

  // What the network is set to, and hashing a proof hash with the previous modifier.
  datatype Kernel = Kernel(nModifierInterval: nat, hash: (nat, nat) -> nat, v04: nat -> bool) {
    // The modifier interval a time falls into.
    function Epoch(nTime: nat): nat
      requires nModifierInterval > 0
    {
      nTime / nModifierInterval
    }
  }

  // ---------- the sections of the selection interval ----------

  function Section(nModifierInterval: nat, nSection: nat): nat
    requires nSection < 64
  {
    Quotient(nModifierInterval * 63, 63 + Weight(nSection))
  }

  function Weight(nSection: nat): nat
    requires nSection < 64
  {
    (63 - nSection) * (MODIFIER_INTERVAL_RATIO - 1)
  }

  function Quotient(a: nat, d: nat): nat
    requires d > 0
  {
    a / d
  }

  function SectionsBefore(nModifierInterval: nat, n: nat): nat
    requires n <= 64
  {
    if n == 0 then 0 else SectionsBefore(nModifierInterval, n - 1) + Section(nModifierInterval, n - 1)
  }

  lemma DivMonotone(a: nat, d: nat, e: nat)
    requires 0 < d <= e
    ensures a / e <= a / d
  {
    Basics.Quotient(a, e);
    MulMonotone(d, e, a / e);
    QuotientLess(a, a / e, d);
  }

  // Sections never get shorter; the last is the modifier interval itself.
  lemma SectionsGrow(nModifierInterval: nat, m: nat, n: nat)
    requires m <= n < 64
    ensures Section(nModifierInterval, m) <= Section(nModifierInterval, n) <= nModifierInterval
    ensures Section(nModifierInterval, 63) == nModifierInterval
  {
    DivMonotone(nModifierInterval * 63, 63 + Weight(n), 63 + Weight(m));
    DivMonotone(nModifierInterval * 63, 63, 63 + Weight(n));
  }

  // Section n is the modifier interval times 63 / (189 - 2n), rounded down: the first is a third of the last.
  lemma SectionIs(nModifierInterval: nat, n: nat)
    requires n < 64
    ensures Section(nModifierInterval, n) * (189 - 2 * n) <= 63 * nModifierInterval < (Section(nModifierInterval, n) + 1) * (189 - 2 * n)
    ensures Section(nModifierInterval, 0) == nModifierInterval / 3
  {
    Basics.Quotient(nModifierInterval * 63, 189 - 2 * n);
  }

  lemma {:induction false} SectionsBounded(nModifierInterval: nat, n: nat)
    requires n <= 64
    ensures SectionsBefore(nModifierInterval, n) <= n * nModifierInterval
  {
    if n > 0 {
      SectionsBounded(nModifierInterval, n - 1);
      SectionsGrow(nModifierInterval, n - 1, 63);
      assert n * nModifierInterval == (n - 1) * nModifierInterval + nModifierInterval;
    }
  }

  method SelectionInterval(nModifierInterval: nat) returns (nSelectionInterval: nat)
    ensures nSelectionInterval == SectionsBefore(nModifierInterval, 64) <= 64 * nModifierInterval
  {
    nSelectionInterval := 0;
    var nSection := 0;
    while nSection < 64
      invariant 0 <= nSection <= 64 && nSelectionInterval == SectionsBefore(nModifierInterval, nSection)
    {
      nSelectionInterval := nSelectionInterval + Section(nModifierInterval, nSection);
      nSection := nSection + 1;
    }
    SectionsBounded(nModifierInterval, 64);
  }

  // ---------- one round ----------

  // A block of proof of stake is favoured over one of proof of work.
  function SelectionHash(k: Kernel, b: BlockInfo, nStakeModifierPrev: nat): nat {
    if b.fProofOfStake then k.hash(b.hashProofOfStake, nStakeModifierPrev) / 0x1_0000_0000
    else k.hash(b.hash, nStakeModifierPrev)
  }

  predicate Before(a: BlockInfo, b: BlockInfo) { a.nTime < b.nTime || (a.nTime == b.nTime && a.hash <= b.hash) }

  ghost predicate SortedByTime(s: seq<BlockInfo>) { forall i, j :: 0 <= i < j < |s| ==> Before(s[i], s[j]) }

  predicate Open(s: seq<BlockInfo>, selected: set<nat>, i: int) { 0 <= i < |s| && s[i].hash !in selected }

  predicate InTime(s: seq<BlockInfo>, selected: set<nat>, nStop: int, i: int) { Open(s, selected, i) && s[i].nTime <= nStop }

  // The candidate of a round: of those not selected yet and in time the first with the smallest selection
  // hash; if none is in time, the earliest not selected yet.
  ghost predicate Chosen(k: Kernel, s: seq<BlockInfo>, selected: set<nat>, nStop: int, nPrev: nat, i: int) {
    && Open(s, selected, i)
    && if exists j :: InTime(s, selected, nStop, j) then
         && InTime(s, selected, nStop, i)
         && forall j :: InTime(s, selected, nStop, j) ==>
              && SelectionHash(k, s[i], nPrev) <= SelectionHash(k, s[j], nPrev)
              && (j < i ==> SelectionHash(k, s[i], nPrev) < SelectionHash(k, s[j], nPrev))
       else forall j :: Open(s, selected, j) ==> i <= j
  }

  // What the loop over the candidates has found when it ends at i.
  ghost predicate BestBefore(k: Kernel, s: seq<BlockInfo>, selected: set<nat>, nStop: int, nPrev: nat, i: int, best: int) {
    && best < i <= |s| && Open(s, selected, best)
    && (forall j :: 0 <= j < i && Open(s, selected, j) ==>
          && SelectionHash(k, s[best], nPrev) <= SelectionHash(k, s[j], nPrev)
          && (j < best ==> SelectionHash(k, s[best], nPrev) < SelectionHash(k, s[j], nPrev)))
    && (s[best].nTime <= nStop || forall j :: 0 <= j < i && Open(s, selected, j) ==> j == best)
  }

  lemma BestIsChosen(k: Kernel, s: seq<BlockInfo>, selected: set<nat>, nStop: int, nPrev: nat, i: int, best: int)
    requires SortedByTime(s) && BestBefore(k, s, selected, nStop, nPrev, i, best)
    requires i < |s| ==> s[i].nTime > nStop
    ensures Chosen(k, s, selected, nStop, nPrev, best)
  {
    hide SelectionHash;
    forall j | i <= j < |s| ensures s[j].nTime > nStop {
      if i < j { assert Before(s[i], s[j]); }
    }
    assert forall j :: InTime(s, selected, nStop, j) ==> j < i;
    if s[best].nTime <= nStop {
      assert InTime(s, selected, nStop, best);
    } else {
      forall j ensures !InTime(s, selected, nStop, j) {}
    }
  }

  // Not selected yet, and in time.
  ghost predicate Eligible(s: seq<BlockInfo>, selected: set<nat>, nStop: int, j: int) {
    0 <= j < |s| && s[j].hash !in selected && s[j].nTime <= nStop
  }

  // What decides between the blocks in time. Among blocks of one kind the proof hashes are compared, of which proof of
  // stake counts only the part above 2^32; a proof-of-work block has to be below that part of every
  // proof-of-stake block's. Of equals the earlier one is selected.
  lemma ChosenBeats(k: Kernel, s: seq<BlockInfo>, selected: set<nat>, nStop: int, nPrev: nat, i: int, j: int)
    requires Chosen(k, s, selected, nStop, nPrev, i) && Eligible(s, selected, nStop, j)
    ensures Eligible(s, selected, nStop, i)
    ensures !s[i].fProofOfStake && s[j].fProofOfStake ==>
              var (work, stake) := (k.hash(s[i].hash, nPrev), k.hash(s[j].hashProofOfStake, nPrev) / 0x1_0000_0000);
              work < stake || (work == stake && i < j)
    ensures s[i].fProofOfStake && !s[j].fProofOfStake ==>
              var (stake, work) := (k.hash(s[i].hashProofOfStake, nPrev) / 0x1_0000_0000, k.hash(s[j].hash, nPrev));
              stake < work || (stake == work && i < j)
    ensures !s[i].fProofOfStake && !s[j].fProofOfStake ==>
              k.hash(s[i].hash, nPrev) < k.hash(s[j].hash, nPrev) || (k.hash(s[i].hash, nPrev) == k.hash(s[j].hash, nPrev) && i <= j)
    ensures s[i].fProofOfStake && s[j].fProofOfStake ==>
              var (mine, other) := (k.hash(s[i].hashProofOfStake, nPrev) / 0x1_0000_0000,
                                    k.hash(s[j].hashProofOfStake, nPrev) / 0x1_0000_0000);
              mine < other || (mine == other && i <= j)
  {
    assert InTime(s, selected, nStop, j);
  }

  const TWO_TO_THE_224 := 0x1_00000000_00000000_00000000_00000000_00000000_00000000_00000000

  // With hashes of 256 bits a block of proof of work is not selected while one of proof of stake is in time, unless
  // its hash is below 2^224.
  lemma StakeBeatsWork(k: Kernel, s: seq<BlockInfo>, selected: set<nat>, nStop: int, nPrev: nat, i: int, j: int)
    requires Chosen(k, s, selected, nStop, nPrev, i) && Eligible(s, selected, nStop, j) && s[j].fProofOfStake
    requires forall h :: k.hash(h, nPrev) < TWO_TO_THE_224 * 0x1_0000_0000
    ensures s[i].fProofOfStake || k.hash(s[i].hash, nPrev) < TWO_TO_THE_224
  {
    ChosenBeats(k, s, selected, nStop, nPrev, i, j);
    QuotientLess(k.hash(s[j].hashProofOfStake, nPrev), TWO_TO_THE_224, 0x1_0000_0000);
  }

  // With none in time the earliest that is left is selected.
  lemma ChosenIsEarliest(k: Kernel, s: seq<BlockInfo>, selected: set<nat>, nStop: int, nPrev: nat, i: int)
    requires Chosen(k, s, selected, nStop, nPrev, i) && SortedByTime(s) && forall j :: !Eligible(s, selected, nStop, j)
    ensures 0 <= i < |s| && s[i].hash !in selected
    ensures forall j :: 0 <= j < |s| && s[j].hash !in selected ==>
              i <= j && (s[i].nTime < s[j].nTime || (s[i].nTime == s[j].nTime && s[i].hash <= s[j].hash))
  {
    assert forall j :: InTime(s, selected, nStop, j) ==> Eligible(s, selected, nStop, j);
    forall j | 0 <= j < |s| && s[j].hash !in selected ensures i <= j { assert Open(s, selected, j); }
  }

  method SelectBlockFromCandidates(k: Kernel, vSortedByTimestamp: seq<BlockInfo>, mapSelectedBlocks: set<nat>,
                                   nSelectionIntervalStop: int, nStakeModifierPrev: nat) returns (fSelected: bool, selected: int)
    requires SortedByTime(vSortedByTimestamp)
    ensures fSelected <==> exists j :: Open(vSortedByTimestamp, mapSelectedBlocks, j)
    ensures fSelected ==> Chosen(k, vSortedByTimestamp, mapSelectedBlocks, nSelectionIntervalStop, nStakeModifierPrev, selected)
  {
    hide SelectionHash, Chosen;
    fSelected, selected := false, -1;
    var hashBest := 0;
    var i := 0;
    while i < |vSortedByTimestamp|
      invariant 0 <= i <= |vSortedByTimestamp|
      invariant !fSelected ==> forall j :: 0 <= j < i ==> !Open(vSortedByTimestamp, mapSelectedBlocks, j)
      invariant fSelected ==> BestBefore(k, vSortedByTimestamp, mapSelectedBlocks, nSelectionIntervalStop, nStakeModifierPrev, i, selected)
      invariant fSelected ==> hashBest == SelectionHash(k, vSortedByTimestamp[selected], nStakeModifierPrev)
    {
      var pindex := vSortedByTimestamp[i];
      if fSelected && pindex.nTime > nSelectionIntervalStop { break; }
      if pindex.hash in mapSelectedBlocks { i := i + 1; continue; }
      var hashSelection := SelectionHash(k, pindex, nStakeModifierPrev);
      if fSelected && hashSelection < hashBest {
        hashBest, selected := hashSelection, i;
      } else if !fSelected {
        fSelected, hashBest, selected := true, hashSelection, i;
      }
      i := i + 1;
    }
    if fSelected { BestIsChosen(k, vSortedByTimestamp, mapSelectedBlocks, nSelectionIntervalStop, nStakeModifierPrev, i, selected); }
  }

  // ---------- the modifier ----------

  function Hashes(picked: seq<BlockInfo>): set<nat> { set i | 0 <= i < |picked| :: picked[i].hash }

  // One bit from every selected block, the first the lowest.
  function Modifier(picked: seq<BlockInfo>): nat {
    if picked == [] then 0
    else Modifier(picked[..|picked| - 1]) + (if picked[|picked| - 1].fEntropy then Pow2(|picked| - 1) else 0)
  }

  // Bit k of the modifier is the entropy bit of block k, and there are no others.
  lemma {:induction false} ModifierBits(picked: seq<BlockInfo>, k: nat)
    ensures Modifier(picked) < Pow2(|picked|)
    ensures k < |picked| ==> (Modifier(picked) / Pow2(k) % 2 == 1 <==> picked[k].fEntropy)
  {
    if picked != [] {
      var n := |picked| - 1;
      ModifierBits(picked[..n], k);
      var m := Modifier(picked[..n]);
      if k < n {
        Pow2Splits(k, n - k);
        assert Pow2(n - k) == 2 * Pow2(n - k - 1);
        if picked[n].fEntropy { BitAbove(m, Pow2(k), Pow2(n - k - 1)); }
      } else if k == n {
        QuotientIs(Modifier(picked), Pow2(n), if picked[n].fEntropy then 1 else 0);
      }
    }
  }

  lemma {:induction false} Pow2Splits(i: nat, j: nat)
    ensures Pow2(i + j) == Pow2(i) * Pow2(j)
  {
    if i > 0 {
      Pow2Splits(i - 1, j);
      assert 2 * (Pow2(i - 1) * Pow2(j)) == (2 * Pow2(i - 1)) * Pow2(j);
    }
  }

  lemma BitAbove(m: nat, u: nat, v: nat)
    requires u > 0
    ensures (m + u * (2 * v)) / u % 2 == m / u % 2
  {
    Basics.Quotient(m, u);
    assert (m / u + 2 * v) * u == m / u * u + u * (2 * v);
    QuotientIs(m + u * (2 * v), u, m / u + 2 * v);
  }

  // Every round picks the candidate that is due among those not picked before.
  ghost predicate Picked(k: Kernel, s: seq<BlockInfo>, nStart: int, nPrev: nat, picked: seq<BlockInfo>) {
    && |picked| <= 64
    && forall r :: 0 <= r < |picked| ==> PickedAt(k, s, nStart, nPrev, picked, r)
  }

  ghost predicate PickedAt(k: Kernel, s: seq<BlockInfo>, nStart: int, nPrev: nat, picked: seq<BlockInfo>, r: nat)
    requires r < |picked| <= 64
  {
    exists i :: 0 <= i < |s| && picked[r] == s[i] &&
                Chosen(k, s, Hashes(picked[..r]), nStart + SectionsBefore(k.nModifierInterval, r + 1), nPrev, i)
  }

  ghost predicate DistinctHashes(s: seq<BlockInfo>) { forall i, j :: 0 <= i < j < |s| ==> s[i].hash != s[j].hash }

  // No block is picked twice.
  lemma PickedDistinct(k: Kernel, s: seq<BlockInfo>, nStart: int, nPrev: nat, picked: seq<BlockInfo>)
    requires Picked(k, s, nStart, nPrev, picked)
    ensures DistinctHashes(picked)
  {
    forall i, j | 0 <= i < j < |picked| ensures picked[i].hash != picked[j].hash {
      assert PickedAt(k, s, nStart, nPrev, picked, j);
      assert picked[..j][i].hash in Hashes(picked[..j]);
    }
  }

  // While fewer have been picked than there are candidates one is left.
  lemma SomeOpen(s: seq<BlockInfo>, picked: seq<BlockInfo>)
    requires DistinctHashes(s) && |picked| < |s|
    ensures exists j :: Open(s, Hashes(picked), j)
  {
    HashesSize(picked, |picked|);
    AllHashes(s);
    if forall j :: !Open(s, Hashes(picked), j) {
      forall h | h in Hashes(s) ensures h in Hashes(picked) {
        var j :| 0 <= j < |s| && s[j].hash == h;
        assert !Open(s, Hashes(picked), j);
      }
      SubsetSize(Hashes(s), Hashes(picked));
    }
  }

  lemma {:induction false} HashesSize(picked: seq<BlockInfo>, n: nat)
    requires n <= |picked|
    ensures |Hashes(picked[..n])| <= n && picked[..|picked|] == picked
  {
    if n > 0 {
      HashesSize(picked, n - 1);
      HashesNext(picked, n - 1);
    } else {
      assert Hashes(picked[..0]) == {};
    }
  }

  lemma HashesNext(picked: seq<BlockInfo>, n: nat)
    requires n < |picked|
    ensures Hashes(picked[..n + 1]) == Hashes(picked[..n]) + {picked[n].hash}
  {
    var a, b := picked[..n], picked[..n + 1];
    forall h ensures h in Hashes(b) <==> h in Hashes(a) || h == picked[n].hash {
      if h in Hashes(a) { var i :| 0 <= i < |a| && a[i].hash == h; assert b[i].hash == h; }
      if h == picked[n].hash { assert b[n].hash == h; }
      if h in Hashes(b) { var i :| 0 <= i < |b| && b[i].hash == h; if i < n { assert a[i].hash == h; } }
    }
  }

  lemma {:induction false} AllHashes(s: seq<BlockInfo>)
    requires DistinctHashes(s)
    ensures |Hashes(s)| == |s|
  {
    if s != [] {
      var n := |s| - 1;
      AllHashes(s[..n]);
      HashesNext(s, n);
      LastIsNew(s);
      assert s[..n + 1] == s;
      hide Hashes, DistinctHashes;
    } else {
      assert Hashes(s) == {};
    }
  }

  lemma LastIsNew(s: seq<BlockInfo>)
    requires DistinctHashes(s) && s != []
    ensures s[|s| - 1].hash !in Hashes(s[..|s| - 1]) && DistinctHashes(s[..|s| - 1])
  {
    var front := s[..|s| - 1];
    forall i | 0 <= i < |front| ensures front[i].hash != s[|s| - 1].hash { assert front[i] == s[i]; }
  }

  // The rounds: as many as there are candidates, at most 64. None of them fails.
  method SelectBlocks(k: Kernel, vSortedByTimestamp: seq<BlockInfo>, nStart: int, nStakeModifierPrev: nat)
    returns (nStakeModifierNew: nat)
    requires SortedByTime(vSortedByTimestamp) && DistinctHashes(vSortedByTimestamp)
    ensures exists picked :: && Picked(k, vSortedByTimestamp, nStart, nStakeModifierPrev, picked) && DistinctHashes(picked)
                             && |picked| == Min(64, |vSortedByTimestamp|) && nStakeModifierNew == Modifier(picked)
  {
    nStakeModifierNew := 0;
    ghost var picked: seq<BlockInfo> := [];
    var nSelectionIntervalStop := nStart;
    var mapSelectedBlocks: set<nat> := {};
    var nBit := 1;
    var nRound := 0;
    while nRound < Min(64, |vSortedByTimestamp|)
      invariant 0 <= nRound == |picked| <= Min(64, |vSortedByTimestamp|) && nBit == Pow2(nRound)
      invariant nSelectionIntervalStop == nStart + SectionsBefore(k.nModifierInterval, nRound)
      invariant mapSelectedBlocks == Hashes(picked) && nStakeModifierNew == Modifier(picked)
      invariant Picked(k, vSortedByTimestamp, nStart, nStakeModifierPrev, picked)
    {
      nSelectionIntervalStop := nSelectionIntervalStop + Section(k.nModifierInterval, nRound);
      SomeOpen(vSortedByTimestamp, picked);
      var fSelected, i := SelectBlockFromCandidates(k, vSortedByTimestamp, mapSelectedBlocks, nSelectionIntervalStop, nStakeModifierPrev);
      assert fSelected;   // the error return at this point is never taken
      var pindex := vSortedByTimestamp[i];
      PickedNext(k, vSortedByTimestamp, nStart, nStakeModifierPrev, picked, i);
      HashesNext(picked + [pindex], nRound);
      assert (picked + [pindex])[..nRound] == picked && (picked + [pindex])[..nRound + 1] == picked + [pindex];
      hide Picked, Chosen, Hashes, SectionsBefore;
      nStakeModifierNew := nStakeModifierNew + (if pindex.fEntropy then nBit else 0);
      mapSelectedBlocks := mapSelectedBlocks + {pindex.hash};
      picked := picked + [pindex];
      nBit := 2 * nBit;
      nRound := nRound + 1;
    }
    PickedDistinct(k, vSortedByTimestamp, nStart, nStakeModifierPrev, picked);
  }

  lemma PickedNext(k: Kernel, s: seq<BlockInfo>, nStart: int, nPrev: nat, picked: seq<BlockInfo>, i: int)
    requires Picked(k, s, nStart, nPrev, picked) && |picked| < 64 && 0 <= i < |s|
    requires Chosen(k, s, Hashes(picked), nStart + SectionsBefore(k.nModifierInterval, |picked| + 1), nPrev, i)
    ensures Picked(k, s, nStart, nPrev, picked + [s[i]])
  {
    hide Chosen, Hashes, SectionsBefore;
    var all := picked + [s[i]];
    forall r | 0 <= r < |all| ensures PickedAt(k, s, nStart, nPrev, all, r) {
      assert all[..r] == picked[..r];
      if r < |picked| {
        assert PickedAt(k, s, nStart, nPrev, picked, r);
      } else {
        assert picked[..r] == picked;
      }
    }
  }

  // ---------- from the chain ----------

  // The blocks of the chain the selection is from: the last ones back to the first that is too old.
  function RecentFrom(chain: seq<BlockInfo>, nStart: int, i: nat): (r: nat)
    requires i <= |chain|
    ensures r <= i && (forall j :: r <= j < i ==> chain[j].nTime >= nStart) && (r > 0 ==> chain[r - 1].nTime < nStart)
  {
    if i > 0 && chain[i - 1].nTime >= nStart then RecentFrom(chain, nStart, i - 1) else i
  }

  function Recent(chain: seq<BlockInfo>, nStart: int): seq<BlockInfo> { chain[RecentFrom(chain, nStart, |chain|)..] }

  // Where the current modifier was generated.
  function Generator(chain: seq<BlockInfo>): (i: int)
    ensures -1 <= i < |chain|
    ensures i >= 0 ==> chain[i].fGeneratedStakeModifier
    ensures forall j :: i < j < |chain| ==> !chain[j].fGeneratedStakeModifier
  {
    if chain == [] then -1
    else if chain[|chain| - 1].fGeneratedStakeModifier then |chain| - 1
    else Generator(chain[..|chain| - 1])
  }

  method GetLastStakeModifier(chain: seq<BlockInfo>) returns (found: bool, nStakeModifier: nat, nModifierTime: nat)
    requires chain != []
    ensures found <==> Generator(chain) >= 0
    ensures found ==> nStakeModifier == chain[Generator(chain)].nStakeModifier && nModifierTime == chain[Generator(chain)].nTime
  {
    var i := |chain| - 1;
    while i > 0 && !chain[i].fGeneratedStakeModifier
      invariant 0 <= i < |chain| && Generator(chain[..i + 1]) == Generator(chain)
    {
      assert chain[..i + 1][..i] == chain[..i];
      i := i - 1;
    }
    assert chain[..i + 1][i] == chain[i];
    if !chain[i].fGeneratedStakeModifier {
      assert chain[..1][..0] == [];
      return false, 0, 0;
    }
    return true, chain[i].nStakeModifier, chain[i].nTime;
  }

  // Where a block belongs in a sorted list.
  method Insert(r: seq<BlockInfo>, b: BlockInfo) returns (t: seq<BlockInfo>)
    requires SortedByTime(r)
    ensures SortedByTime(t) && multiset(t) == multiset(r) + multiset{b}
  {
    var j := 0;
    while j < |r| && Before(r[j], b)
      invariant 0 <= j <= |r| && forall m :: 0 <= m < j ==> Before(r[m], b)
    {
      j := j + 1;
    }
    assert r == r[..j] + r[j..];
    t := r[..j] + [b] + r[j..];
    if j < |r| {
      forall m | j <= m < |r| ensures Before(b, r[m]) { if j < m { assert Before(r[j], r[m]); } }
    }
  }

  method SortByTimestamp(s: seq<BlockInfo>) returns (r: seq<BlockInfo>)
    ensures SortedByTime(r) && multiset(r) == multiset(s)
  {
    r := [];
    var i := 0;
    while i < |s|
      invariant 0 <= i <= |s| && SortedByTime(r) && multiset(r) == multiset(s[..i])
    {
      assert s[..i + 1] == s[..i] + [s[i]];
      hide SortedByTime;
      r := Insert(r, s[i]);
      i := i + 1;
    }
    assert s[..i] == s;
  }

  // How a new modifier comes about: from the candidates in order of time, whatever their order in the chain.
  ghost predicate Selection(k: Kernel, chain: seq<BlockInfo>, nPrev: nat, nStart: int, sorted: seq<BlockInfo>, picked: seq<BlockInfo>) {
    && SortedByTime(sorted) && multiset(sorted) == multiset(Recent(chain, nStart))
    && |picked| == Min(64, |sorted|) && Picked(k, sorted, nStart, nPrev, picked) && DistinctHashes(picked)
  }

  function SelectionStart(k: Kernel, nTime: nat): int
    requires k.nModifierInterval > 0
  {
    k.Epoch(nTime) * k.nModifierInterval - SectionsBefore(k.nModifierInterval, 64)
  }

  // A time is of the epoch whose multiple of the interval is the last not after it, and the selection ends there.
  lemma EpochIs(k: Kernel, nTime: nat)
    requires k.nModifierInterval > 0
    ensures var ends := SelectionStart(k, nTime) + SectionsBefore(k.nModifierInterval, 64);
            ends % k.nModifierInterval == 0 && ends <= nTime < ends + k.nModifierInterval
            && ends == k.Epoch(nTime) * k.nModifierInterval
  {
    hide SectionsBefore;
    Basics.Quotient(nTime, k.nModifierInterval);
    MultipleOf(k.Epoch(nTime), k.nModifierInterval);
  }

  lemma MultipleOf(q: nat, u: nat)
    requires u > 0
    ensures (q * u) % u == 0
  {
    assert q * u >= 0;
    QuotientIs(q * u, u, q);
  }

  // What a new modifier is made of: 64 blocks, or all there are, each once, from the end of the chain back to the first
  // that is too old; and every round has picked one in time if there was one.
  lemma {:induction false} SelectionIs(k: Kernel, chain: seq<BlockInfo>, nPrev: nat, nStart: int, sorted: seq<BlockInfo>,
                                       picked: seq<BlockInfo>, r: nat, b: BlockInfo)
    requires Selection(k, chain, nPrev, nStart, sorted, picked) && r < |picked| && b in Recent(chain, nStart)
    ensures |picked| == if |Recent(chain, nStart)| < 64 then |Recent(chain, nStart)| else 64
    ensures picked[r] in Recent(chain, nStart) && forall j :: 0 <= j < |picked| && j != r ==> picked[j].hash != picked[r].hash
    ensures (forall j :: 0 <= j < r ==> picked[j].hash != b.hash) && b.nTime <= nStart + SectionsBefore(k.nModifierInterval, r + 1) ==>
              picked[r].nTime <= nStart + SectionsBefore(k.nModifierInterval, r + 1)
              && (picked[r].fProofOfStake || !b.fProofOfStake
                  || k.hash(picked[r].hash, nPrev) <= k.hash(b.hashProofOfStake, nPrev) / 0x1_0000_0000)
    ensures (forall j :: 0 <= j < r ==> picked[j].hash != b.hash) && picked[r].nTime > nStart + SectionsBefore(k.nModifierInterval, r + 1) ==>
              picked[r].nTime < b.nTime || (picked[r].nTime == b.nTime && picked[r].hash <= b.hash)
  {
    assert PickedAt(k, sorted, nStart, nPrev, picked, r);
    hide Chosen, SectionsBefore, Recent;
    var stop := nStart + SectionsBefore(k.nModifierInterval, r + 1);
    var i :| 0 <= i < |sorted| && picked[r] == sorted[i] && Chosen(k, sorted, Hashes(picked[..r]), stop, nPrev, i);
    assert |sorted| == |multiset(sorted)| == |Recent(chain, nStart)|;
    assert sorted[i] in multiset(sorted) && b in multiset(Recent(chain, nStart));
    var j :| 0 <= j < |sorted| && sorted[j] == b;
    if (forall m :: 0 <= m < r ==> picked[m].hash != b.hash) && b.nTime <= stop {
      assert forall m :: 0 <= m < r ==> picked[..r][m] == picked[m];
      assert Eligible(sorted, Hashes(picked[..r]), stop, j);
      ChosenBeats(k, sorted, Hashes(picked[..r]), stop, nPrev, i, j);
    }
    if (forall m :: 0 <= m < r ==> picked[m].hash != b.hash) && sorted[i].nTime > stop {
      assert forall m :: 0 <= m < r ==> picked[..r][m] == picked[m];
      if c :| Eligible(sorted, Hashes(picked[..r]), stop, c) { ChosenBeats(k, sorted, Hashes(picked[..r]), stop, nPrev, i, c); }
      ChosenIsEarliest(k, sorted, Hashes(picked[..r]), stop, nPrev, i);
    }
  }

  method RecentBlocks(chain: seq<BlockInfo>, nStart: int) returns (r: seq<BlockInfo>)
    requires DistinctHashes(chain)
    ensures r == Recent(chain, nStart) && DistinctHashes(r)
  {
    var i := |chain|;
    while i > 0 && chain[i - 1].nTime >= nStart
      invariant 0 <= i <= |chain| && RecentFrom(chain, nStart, i) == RecentFrom(chain, nStart, |chain|)
    {
      i := i - 1;
    }
    r := chain[i..];
  }

  // The chain up to the parent of a new block, and the time of that block. An error can only mean that no
  // block of the chain has generated a modifier.
  method ComputeNextStakeModifier(k: Kernel, chain: seq<BlockInfo>, nTime: nat)
    returns (ok: bool, nStakeModifier: nat, fGenerated: bool, ghost sorted: seq<BlockInfo>, ghost picked: seq<BlockInfo>)
    requires k.nModifierInterval > 0 && DistinctHashes(chain)
    ensures ok <==> chain == [] || Generator(chain) >= 0
    ensures chain == [] ==> nStakeModifier == 0 && fGenerated
    ensures ok && chain != [] ==>
              var last := chain[Generator(chain)];
              var prev := chain[|chain| - 1];
              var epoch := k.Epoch(last.nTime);
              && (fGenerated <==> epoch < k.Epoch(prev.nTime) && (epoch < k.Epoch(nTime) || !k.v04(nTime)))
              && if fGenerated then
                   && Selection(k, chain, last.nStakeModifier, SelectionStart(k, prev.nTime), sorted, picked)
                   && nStakeModifier == Modifier(picked)
                 else nStakeModifier == last.nStakeModifier
  {
    hide Picked, Modifier, Recent, RecentFrom, Generator, Section, SectionsBefore, DistinctHashes, SortedByTime, k.Epoch;
    sorted, picked := [], [];
    if chain == [] { return true, 0, true, sorted, picked; }
    var prev := chain[|chain| - 1];
    var found, nPrev, nModifierTime := GetLastStakeModifier(chain);
    if !found { return false, 0, false, sorted, picked; }
    if k.Epoch(nModifierTime) >= k.Epoch(prev.nTime) { return true, nPrev, false, sorted, picked; }
    if k.Epoch(nModifierTime) >= k.Epoch(nTime) && k.v04(nTime) {
      return true, nPrev, false, sorted, picked;
    }

    var nSelectionInterval := SelectionInterval(k.nModifierInterval);
    var nSelectionIntervalStart := k.Epoch(prev.nTime) * k.nModifierInterval - nSelectionInterval;
    var recent := RecentBlocks(chain, nSelectionIntervalStart);
    var vSortedByTimestamp := SortByTimestamp(recent);
    PermutedDistinct(recent, vSortedByTimestamp);
    nStakeModifier := SelectBlocks(k, vSortedByTimestamp, nSelectionIntervalStart, nPrev);
    sorted := vSortedByTimestamp;
    picked :| Picked(k, sorted, nSelectionIntervalStart, nPrev, picked) && DistinctHashes(picked)
              && |picked| == Min(64, |sorted|) && nStakeModifier == Modifier(picked);
    ok, fGenerated := true, true;
  }

  lemma PermutedDistinct(s: seq<BlockInfo>, r: seq<BlockInfo>)
    requires DistinctHashes(s) && multiset(r) == multiset(s)
    ensures DistinctHashes(r)
  {
    forall i, j | 0 <= i < j < |r| ensures r[i].hash != r[j].hash {
      AppearsOnce(s, r[i]);
      assert r == r[..j] + r[j..];
      assert r[i] in r[..j] && r[j] in r[j..];
      assert r[i] in multiset(r) && r[j] in multiset(r);
      assert r[i] in s && r[j] in s;
      assert multiset(r)[r[i]] == multiset(r[..j])[r[i]] + multiset(r[j..])[r[i]];
    }
  }

  lemma {:induction false} AppearsOnce(s: seq<BlockInfo>, b: BlockInfo)
    requires DistinctHashes(s)
    ensures multiset(s)[b] <= 1
  {
    if s != [] {
      var front := s[..|s| - 1];
      assert s == front + [s[|s| - 1]];
      LastIsNew(s);
      AppearsOnce(front, b);
      forall i | 0 <= i < |front| ensures front[i].hash in Hashes(front) {}
      assert b in multiset(front) <==> b in front;
    }
  }
}
