/** Which entry a full tried bucket loses, as a function of the numbers drawn. */
module AddrEvict {
  import opened AddrTables

  const TRIED_ENTRIES_INSPECT_ON_EVICT := 4

  // The numbers drawn for a bucket: one for each entry inspected, the one for step i below the size less i.
  predicate Drawn(n: seq<nat>, size: nat) {
    && |n| == (if size < TRIED_ENTRIES_INSPECT_ON_EVICT then size else TRIED_ENTRIES_INSPECT_ON_EVICT)
    && forall i :: 0 <= i < |n| ==> n[i] < size - i
  }

  function Swap(s: seq<int>, i: nat, at: nat): (r: seq<int>)
    requires i <= at < |s|
    ensures |r| == |s|
  {
    s[at := s[i]][i := s[at]]
  }

  // The bucket after the first i swaps.
  function Shuffled(bucket: seq<int>, n: seq<nat>, i: nat): (r: seq<int>)
    requires Drawn(n, |bucket|) && i <= |n|
    ensures |r| == |bucket|
  {
    if i == 0 then bucket else Swap(Shuffled(bucket, n, i - 1), i - 1, n[i - 1] + i - 1)
  }

  // The entry inspected in step i.
  function Met(bucket: seq<int>, n: seq<nat>, i: nat): int
    requires Drawn(n, |bucket|) && i < |n|
  {
    Shuffled(bucket, n, i)[n[i] + i]
  }

  function Success(mapInfo: map<int, Info>, id: int): int { if id in mapInfo then mapInfo[id].nLastSuccess else 0 }

  // The step, of the first i, in which the oldest entry was met: the least recently successful, the first such.
  function OldestMet(mapInfo: map<int, Info>, bucket: seq<int>, n: seq<nat>, i: nat): (k: nat)
    requires Drawn(n, |bucket|) && 0 < i <= |n|
    ensures k < i
  {
    if i == 1 then 0
    else
      var k := OldestMet(mapInfo, bucket, n, i - 1);
      if Success(mapInfo, Met(bucket, n, i - 1)) < Success(mapInfo, Met(bucket, n, k)) then i - 1 else k
  }

  // The position that is given up: where the oldest entry stood when it was met.
  function EvictAt(mapInfo: map<int, Info>, bucket: seq<int>, n: seq<nat>): (at: nat)
    requires Drawn(n, |bucket|) && bucket != []
    ensures at < |bucket|
  {
    var k := OldestMet(mapInfo, bucket, n, |n|);
    n[k] + k
  }

  // Only the times of success matter.
  lemma {:induction false} OldestSame(m1: map<int, Info>, m2: map<int, Info>, bucket: seq<int>, n: seq<nat>, i: nat)
    requires Drawn(n, |bucket|) && 0 < i <= |n| && forall x :: Success(m1, x) == Success(m2, x)
    ensures OldestMet(m1, bucket, n, i) == OldestMet(m2, bucket, n, i)
  {
    if i > 1 { OldestSame(m1, m2, bucket, n, i - 1); }
  }

  lemma {:induction false} ShuffledSame(bucket: seq<int>, n: seq<nat>, i: nat)
    requires Drawn(n, |bucket|) && i <= |n|
    ensures multiset(Shuffled(bucket, n, i)) == multiset(bucket)
  {
    hide Shuffled, Swap, Met;
    ShuffledStart(bucket, n);
    if i > 0 {
      ShuffledSame(bucket, n, i - 1);
      ShuffledNext(bucket, n, i - 1);
      SwapSame(Shuffled(bucket, n, i - 1), i - 1, n[i - 1] + i - 1);
    }
  }

  lemma SwapIs(s: seq<int>, i: nat, at: nat)
    requires i <= at < |s|
    ensures s[at := s[i]][i := s[at]] == Swap(s, i, at)
    ensures forall x :: x in Swap(s, i, at) ==> x in s
  {}

  lemma ShuffledStart(bucket: seq<int>, n: seq<nat>)
    requires Drawn(n, |bucket|)
    ensures Shuffled(bucket, n, 0) == bucket
  {}

  lemma SwapSame(s: seq<int>, i: nat, at: nat)
    requires i <= at < |s|
    ensures multiset(Swap(s, i, at)) == multiset(s)
  {}

  lemma ShuffledNext(bucket: seq<int>, n: seq<nat>, i: nat)
    requires Drawn(n, |bucket|) && i < |n|
    ensures var w, at := Shuffled(bucket, n, i), n[i] + i;
            Shuffled(bucket, n, i + 1) == Swap(w, i, at) && Met(bucket, n, i) == w[at]
  {
    hide Swap;
  }

  lemma OldestNext(mapInfo: map<int, Info>, bucket: seq<int>, n: seq<nat>, i: nat)
    requires Drawn(n, |bucket|) && i < |n|
    ensures i == 0 ==> OldestMet(mapInfo, bucket, n, 1) == 0
    ensures i > 0 ==>
              var k := OldestMet(mapInfo, bucket, n, i);
              OldestMet(mapInfo, bucket, n, i + 1) == if Success(mapInfo, Met(bucket, n, i)) < Success(mapInfo, Met(bucket, n, k)) then i else k
  {
    hide Met;
  }

  // The oldest entry met is no younger than any other that was met, and older than those met before it.
  lemma {:induction false} OldestIsOldest(mapInfo: map<int, Info>, bucket: seq<int>, n: seq<nat>, i: nat, j: nat)
    requires Drawn(n, |bucket|) && j < i <= |n|
    ensures var k := OldestMet(mapInfo, bucket, n, i);
            && Success(mapInfo, Met(bucket, n, k)) <= Success(mapInfo, Met(bucket, n, j))
            && (j < k ==> Success(mapInfo, Met(bucket, n, k)) < Success(mapInfo, Met(bucket, n, j)))
  {
    hide Met;
    if i > 1 {
      OldestIsOldest(mapInfo, bucket, n, i - 1, if j < i - 1 then j else 0);
    }
  }

  // What was met in step j stays at position j.
  lemma {:induction false} MetStays(bucket: seq<int>, n: seq<nat>, i: nat, j: nat)
    requires Drawn(n, |bucket|) && j < i <= |n|
    ensures Shuffled(bucket, n, i)[j] == Met(bucket, n, j)
  {
    if j < i - 1 { MetStays(bucket, n, i - 1, j); }
  }

  // The entry at the position given up is the oldest one inspected exactly if the number drawn when that one
  // was met was 0: any other number had moved it away from there.
  lemma {:induction false} EvictsOldestIff(mapInfo: map<int, Info>, bucket: seq<int>, n: seq<nat>)
    requires Drawn(n, |bucket|) && bucket != [] && Distinct(bucket)
    ensures var k := OldestMet(mapInfo, bucket, n, |n|);
            Shuffled(bucket, n, |n|)[EvictAt(mapInfo, bucket, n)] == Met(bucket, n, k) <==> n[k] == 0
  {
    var k := OldestMet(mapInfo, bucket, n, |n|);
    MetStays(bucket, n, |n|, k);
    ShuffledSame(bucket, n, |n|);
    PermutationSame(bucket, Shuffled(bucket, n, |n|));
    if n[k] > 0 { DistinctAt(Shuffled(bucket, n, |n|), k, n[k] + k); }
  }

  // The second entry is older than every other, and 1, 0, 0, 0 are drawn: it is inspected, and the first one
  // is given up.
  lemma EvictsYounger(mapInfo: map<int, Info>, bucket: seq<int>, n: seq<nat>)
    requires |bucket| >= 4 && forall j :: 0 <= j < |bucket| && j != 1 ==> Success(mapInfo, bucket[1]) < Success(mapInfo, bucket[j])
    requires n == [1, 0, 0, 0]
    ensures Drawn(n, |bucket|) && Met(bucket, n, 0) == bucket[1]
    ensures Shuffled(bucket, n, 4)[EvictAt(mapInfo, bucket, n)] == bucket[0]
  {
    assert |n| == 4 && n[0] == 1 && n[1] == n[2] == n[3] == 0;
    hide OldestMet, Success;
    var w := OneSwap(bucket, n);
    hide Shuffled;
    var k := OldestMet(mapInfo, bucket, n, 4);
    OldestIsOldest(mapInfo, bucket, n, 4, 0);
    MetStays(bucket, n, 4, k);
    MetStays(bucket, n, 4, 0);
    assert k == 0;
  }

  lemma OneSwap(bucket: seq<int>, n: seq<nat>) returns (w: seq<int>)
    requires |bucket| >= 4 && |n| == 4 && n[0] == 1 && n[1] == n[2] == n[3] == 0 && Drawn(n, |bucket|)
    ensures w == bucket[1 := bucket[0]][0 := bucket[1]] && Shuffled(bucket, n, 4) == w
  {
    assert Shuffled(bucket, n, 0) == bucket;
    w := Shuffled(bucket, n, 1);
    NoSwap(bucket, n, 1);
    NoSwap(bucket, n, 2);
    NoSwap(bucket, n, 3);
    hide Shuffled;
  }

  lemma NoSwap(bucket: seq<int>, n: seq<nat>, i: nat)
    requires Drawn(n, |bucket|) && i < |n| && n[i] == 0
    ensures Shuffled(bucket, n, i + 1) == Shuffled(bucket, n, i)
  {}

  // ---------- the loop ----------

  // Shuffles the first few entries of a bucket in, and returns the position at which the oldest of them was met.
  method SelectIn(was: seq<int>, n: seq<nat>, mapInfo: map<int, Info>) returns (nPos: nat, vTried: seq<int>)
    requires was != [] && Drawn(n, |was|) && forall x :: x in was ==> x in mapInfo && x >= 0
    ensures vTried == Shuffled(was, n, |n|) && nPos == EvictAt(mapInfo, was, n)
  {
    vTried := was;
    var nOldest, nOldestPos := -1, -1;
    var i := 0;
    hide Shuffled, OldestMet, Met, Swap;
    ShuffledStart(was, n);
    while i < TRIED_ENTRIES_INSPECT_ON_EVICT && i < |vTried|
      invariant 0 <= i <= |n| && vTried == Shuffled(was, n, i)
      invariant forall x :: x in vTried ==> x in mapInfo && x >= 0
      invariant if i == 0 then nOldest == -1 else
                  var k := OldestMet(mapInfo, was, n, i);
                  nOldest in mapInfo && nOldest == Met(was, n, k) && nOldest >= 0 && nOldestPos == n[k] + k
    {
      ShuffledNext(was, n, i);
      OldestNext(mapInfo, was, n, i);
      var at := n[i] + i;
      var nTemp := vTried[at];
      SwapIs(vTried, i, at);
      assert nTemp in vTried;
      vTried := vTried[at := vTried[i]][i := nTemp];
      if nOldest == -1 || mapInfo[nTemp].nLastSuccess < mapInfo[nOldest].nLastSuccess {
        nOldest, nOldestPos := nTemp, at;
      }
      i := i + 1;
    }
    nPos := nOldestPos;
  }
}
