/** Block locators: hashes from a block back to genesis, at growing distances. */
module Locator {
  import opened Basics
  import opened Ledger
  import opened CoinsView
  import opened BlockTree
  import opened ChainState

  // floor(log2(n))
  function Log2(n: nat): (k: nat)
    requires n > 0
    ensures Pow2(k) <= n < Pow2(k + 1)
  {
    if n == 1 then 0 else 1 + Log2(n / 2)
  }

  // ---------- distances ----------

  // How far before the start entry k lies.
  function Back(k: nat): nat { if k < 10 then k else 9 + Pow2(k - 10) }

  // How far it is from entry k to the next.
  function Stride(k: nat): nat { if k <= 10 then 1 else Pow2(k - 10) }

  lemma BackStep(k: nat)
    ensures Back(k + 1) == Back(k) + Stride(k) && Stride(k) > 0
    ensures Stride(k + 1) == if k >= 10 then 2 * Stride(k) else Stride(k)
  {}

  lemma {:induction false} BackGrows(j: nat, k: nat)
    requires j < k
    ensures Back(j) < Back(k)
    decreases k
  {
    BackStep(k - 1);
    if j < k - 1 { BackGrows(j, k - 1); }
  }

  // How many entries there are from a block at height h, before the genesis block put at the end.
  function Entries(h: nat): nat { if h < 10 then h + 1 else 11 + Log2(h - 9) }

  // They go back as far as the chain does.
  lemma EntriesReach(h: nat)
    ensures Entries(h) > 0 && Back(Entries(h) - 1) <= h < Back(Entries(h))
  {}

  lemma OnlyEntriesReach(h: nat, n: nat)
    requires h < Back(n) && (n > 0 ==> Back(n - 1) <= h)
    ensures n == Entries(h)
  {
    EntriesReach(h);
    hide Back, Entries;
    if n < Entries(h) {
      if n < Entries(h) - 1 { BackGrows(n, Entries(h) - 1); }
    } else if Entries(h) < n {
      if Entries(h) < n - 1 { BackGrows(Entries(h), n - 1); }
    }
  }

  // ---------- the locator of a block ----------

  ghost predicate AtDistances(g: Hash, b: BlockIndex, vHave: seq<Hash>)
    requires InTree(g, b)
  {
    forall k :: 0 <= k < |vHave| ==> Back(k) <= b.nHeight && Ancestor(g, b, b.nHeight - Back(k)) != null
                                     && vHave[k] == Ancestor(g, b, b.nHeight - Back(k)).block.hash
  }

  ghost predicate Describes(g: Hash, b: BlockIndex, vHave: seq<Hash>)
    requires InTree(g, b)
  {
    var n := Entries(b.nHeight);
    |vHave| == n + 1 && AtDistances(g, b, vHave[..n]) && vHave[n] == g
  }

  lemma ListNext(g: Hash, b: BlockIndex, vHave: seq<Hash>)
    requires InTree(g, b) && AtDistances(g, b, vHave) && Back(|vHave|) <= b.nHeight
    ensures var p := Ancestor(g, b, b.nHeight - Back(|vHave|)); p != null && AtDistances(g, b, vHave + [p.block.hash])
  {
    AncestorHeight(g, b, b.nHeight - Back(|vHave|));
    hide Back, Ancestor, InTree;
  }

  // Steps back from the entry at height h; null once it runs past genesis.
  method GoBack(g: Hash, ghost b: BlockIndex, start: BlockIndex, nStep: nat) returns (p: BlockIndex?)
    requires InTree(g, b) && start.nHeight <= b.nHeight && Ancestor(g, b, start.nHeight) == start
    ensures p == Ancestor(g, b, start.nHeight - nStep)
  {
    p := start;
    var i := 0;
    while p != null && i < nStep
      invariant 0 <= i <= nStep && p == Ancestor(g, b, start.nHeight - i)
      invariant p == null ==> start.nHeight < i
    {
      AncestorHeight(g, b, start.nHeight - i);
      p := p.pprev;
      i := i + 1;
      AncestorHeight(g, b, start.nHeight - i);
    }
  }

  // ---------- the node that reads it ----------

  // A node's mapBlockIndex, and the best block its pnext links lead to.
  ghost predicate ReaderOk(g: Hash, mapBlockIndex: map<Hash, BlockIndex>, pindexBest: BlockIndex?)
    reads mapBlockIndex.Values`pnext
  {
    && (forall h :: h in mapBlockIndex ==> mapBlockIndex[h].block.hash == h)
    && TreeOk(g, mapBlockIndex.Values)
    && (pindexBest != null ==> pindexBest in mapBlockIndex.Values)
    && LinksOk(g, mapBlockIndex.Values, pindexBest)
  }

  // The node knows the hash, as that of a block of its best chain.
  ghost predicate OnMain(g: Hash, mapBlockIndex: map<Hash, BlockIndex>, pindexBest: BlockIndex?, h: Hash)
    requires pindexBest != null ==> InTree(g, pindexBest)
  {
    h in mapBlockIndex && OnChain(g, mapBlockIndex[h], pindexBest)
  }

  // Entry k is the first on the best chain; k is the number of entries if none is.
  ghost predicate First(g: Hash, mapBlockIndex: map<Hash, BlockIndex>, pindexBest: BlockIndex?, vHave: seq<Hash>, k: nat)
    requires pindexBest != null ==> InTree(g, pindexBest)
  {
    k <= |vHave| && (k < |vHave| ==> OnMain(g, mapBlockIndex, pindexBest, vHave[k]))
      && NoneBefore(g, mapBlockIndex, pindexBest, vHave, k)
  }

  ghost predicate NoneBefore(g: Hash, mapBlockIndex: map<Hash, BlockIndex>, pindexBest: BlockIndex?, vHave: seq<Hash>, k: nat)
    requires (pindexBest != null ==> InTree(g, pindexBest)) && k <= |vHave|
  {
    forall j :: 0 <= j < k ==> !OnMain(g, mapBlockIndex, pindexBest, vHave[j])
  }

  lemma OneFirst(g: Hash, mapBlockIndex: map<Hash, BlockIndex>, pindexBest: BlockIndex?, vHave: seq<Hash>, j: nat, k: nat)
    requires pindexBest != null ==> InTree(g, pindexBest)
    requires First(g, mapBlockIndex, pindexBest, vHave, j) && First(g, mapBlockIndex, pindexBest, vHave, k)
    ensures j == k
  {}

  class BlockLocator {
    var vHave: seq<Hash>

    method Set(hashGenesisBlock: Hash, pindex: BlockIndex)
      requires InTree(hashGenesisBlock, pindex)
      modifies this
      ensures Describes(hashGenesisBlock, pindex, vHave)
    {
      hide InTree, Ancestor, Back, Stride, Entries;
      var g := hashGenesisBlock;
      vHave := [];
      var nStep := 1;
      var p: BlockIndex? := pindex;
      ListNone(g, pindex);
      while p != null
        invariant AtDistances(g, pindex, vHave) && nStep == Stride(|vHave|)
        invariant p == Ancestor(g, pindex, pindex.nHeight - Back(|vHave|))
        invariant p == null ==> |vHave| > 0
        decreases pindex.nHeight - Back(|vHave|)
      {
        var k := |vHave|;
        AncestorHeight(g, pindex, pindex.nHeight - Back(k));
        BackStep(k);
        ListNext(g, pindex, vHave);
        vHave := vHave + [p.block.hash];
        p := GoBack(g, pindex, p, nStep);
        if |vHave| > 10 { nStep := nStep * 2; }
      }
      AncestorHeight(g, pindex, pindex.nHeight - Back(|vHave|));
      OnlyEntriesReach(pindex.nHeight, |vHave|);
      assert (vHave + [g])[..|vHave|] == vHave;
      vHave := vHave + [g];
    }

    // How far back, in the branch the locator was made on, the reading node's best chain begins.
    method GetDistanceBack(ghost g: Hash, mapBlockIndex: map<Hash, BlockIndex>, pindexBest: BlockIndex?)
        returns (nDistance: nat)
      requires ReaderOk(g, mapBlockIndex, pindexBest)
      ensures exists k: nat :: First(g, mapBlockIndex, pindexBest, vHave, k) && nDistance == Back(k)
    {
      hide LinksOk, OnChain, Back, Stride;
      nDistance := 0;
      var nStep, i := 1, 0;
      Starts();
      while i < |vHave|
        invariant 0 <= i <= |vHave| && NoneBefore(g, mapBlockIndex, pindexBest, vHave, i)
        invariant nDistance == Back(i) && nStep == Stride(i)
      {
        if vHave[i] in mapBlockIndex {
          InMainChainIff(g, mapBlockIndex.Values, pindexBest, mapBlockIndex[vHave[i]]);
          if mapBlockIndex[vHave[i]].IsInMainChain(pindexBest) {
            assert First(g, mapBlockIndex, pindexBest, vHave, i);
            return;
          }
        }
        BackStep(i);
        DoubledAt(i);
        nDistance := nDistance + nStep;
        if nDistance > 10 { nStep := nStep * 2; }
        i := i + 1;
      }
      assert First(g, mapBlockIndex, pindexBest, vHave, i);
    }

    // The first block of the list that is on the reading node's best chain.
    method GetBlockIndex(ghost g: Hash, mapBlockIndex: map<Hash, BlockIndex>, pindexBest: BlockIndex?,
                         pindexGenesisBlock: BlockIndex?) returns (p: BlockIndex?)
      requires ReaderOk(g, mapBlockIndex, pindexBest)
      ensures exists k: nat :: First(g, mapBlockIndex, pindexBest, vHave, k)
                          && p == if k < |vHave| then mapBlockIndex[vHave[k]] else pindexGenesisBlock
    {
      assert pindexBest != null ==> InTree(g, pindexBest);
      hide LinksOk, OnChain, InTree, TreeOk;
      var i := 0;
      while i < |vHave|
        invariant 0 <= i <= |vHave| && NoneBefore(g, mapBlockIndex, pindexBest, vHave, i)
      {
        if vHave[i] in mapBlockIndex {
          InMainChainIff(g, mapBlockIndex.Values, pindexBest, mapBlockIndex[vHave[i]]);
          if mapBlockIndex[vHave[i]].IsInMainChain(pindexBest) {
            assert First(g, mapBlockIndex, pindexBest, vHave, i);
            return mapBlockIndex[vHave[i]];
          }
        }
        i := i + 1;
      }
      assert First(g, mapBlockIndex, pindexBest, vHave, i);
      return pindexGenesisBlock;
    }
  }

  lemma Starts()
    ensures Back(0) == 0 && Stride(0) == 1
  {}

  // The two loops double at the same entries, though they ask different questions.
  lemma DoubledAt(k: nat)
    ensures Back(k + 1) > 10 <==> k >= 10
  {}

  // ---------- what the distance means ----------

  // Two nodes with the same hash have the same parent hash: a hash fixes the block's header.
  ghost predicate Agree(ours: set<BlockIndex>, theirs: set<BlockIndex>) {
    forall a, b :: a in ours && b in theirs && a.block.hash == b.block.hash && a.pprev != null && b.pprev != null ==>
      a.pprev.block.hash == b.pprev.block.hash
  }

  lemma {:induction false} SameHashSameHeight(g: Hash, ours: set<BlockIndex>, theirs: set<BlockIndex>, a: BlockIndex, b: BlockIndex)
    requires TreeOk(g, ours) && TreeOk(g, theirs) && Agree(ours, theirs)
    requires a in ours && b in theirs && a.block.hash == b.block.hash
    ensures a.nHeight == b.nHeight
    decreases a.nHeight
  {
    assert InTree(g, a) && InTree(g, b);
    if a.pprev != null { SameHashSameHeight(g, ours, theirs, a.pprev, b.pprev); }
  }

  lemma {:induction false} AncestorsShared(g: Hash, ours: set<BlockIndex>, theirs: set<BlockIndex>,
                                           a: BlockIndex, b: BlockIndex, h: nat)
    requires TreeOk(g, ours) && TreeOk(g, theirs) && Agree(ours, theirs)
    requires a in ours && b in theirs && a.block.hash == b.block.hash && h <= a.nHeight == b.nHeight
    ensures var x, y := Ancestor(g, a, h), Ancestor(g, b, h);
            x != null && y != null && x in ours && y in theirs && x.block.hash == y.block.hash
    decreases a.nHeight
  {
    assert InTree(g, a) && InTree(g, b);
    if h < a.nHeight { AncestorsShared(g, ours, theirs, a.pprev, b.pprev, h); }
  }

  // What GetDistanceBack answers is the difference in height to the block GetBlockIndex finds, unless
  // that is the genesis block put at the end; then it is more.
  lemma {:induction false} DistanceIsHeightDifference(g: Hash, ours: set<BlockIndex>, from: BlockIndex, vHave: seq<Hash>,
                                   mapBlockIndex: map<Hash, BlockIndex>, pindexBest: BlockIndex?, k: nat)
    requires TreeOk(g, ours) && from in ours && Describes(g, from, vHave)
    requires ReaderOk(g, mapBlockIndex, pindexBest) && Agree(ours, mapBlockIndex.Values)
    requires k < |vHave| && First(g, mapBlockIndex, pindexBest, vHave, k)
    ensures var found := mapBlockIndex[vHave[k]];
            && (Back(k) == from.nHeight - found.nHeight <==> k < |vHave| - 1)
            && (k == |vHave| - 1 ==> found.nHeight == 0 && Back(k) > from.nHeight)
  {
    var found := mapBlockIndex[vHave[k]];
    assert found in mapBlockIndex.Values && InTree(g, found);
    EntriesReach(from.nHeight);
    hide LinksOk, Ancestor, Agree, OnChain, Back, Entries;
    if k < |vHave| - 1 {
      assert vHave[..|vHave| - 1][k] == vHave[k];
      OurEntry(g, ours, from, from.nHeight - Back(k));
      SameHashSameHeight(g, ours, mapBlockIndex.Values, Ancestor(g, from, from.nHeight - Back(k)), found);
    }
  }

  // The genesis block has been put at the end of the list though it is not one of the entries before.
  ghost predicate Forced(h: nat) { Entries(h) > 0 ==> Back(Entries(h) - 1) < h }

  // The first common entry is the last one exactly if it is the genesis block and that had to be put there.
  lemma {:induction false} LastEntryIff(g: Hash, ours: set<BlockIndex>, from: BlockIndex, vHave: seq<Hash>,
                     mapBlockIndex: map<Hash, BlockIndex>, pindexBest: BlockIndex?, k: nat)
    requires TreeOk(g, ours) && from in ours && Describes(g, from, vHave)
    requires ReaderOk(g, mapBlockIndex, pindexBest) && Agree(ours, mapBlockIndex.Values)
    requires k < |vHave| && First(g, mapBlockIndex, pindexBest, vHave, k)
    ensures k == |vHave| - 1 <==> mapBlockIndex[vHave[k]].nHeight == 0 && Forced(from.nHeight)
  {
    var n := Entries(from.nHeight);
    DistanceIsHeightDifference(g, ours, from, vHave, mapBlockIndex, pindexBest, k);
    EntriesReach(from.nHeight);
    LastOwnEntry(g, from, vHave);
    if Back(n - 1) == from.nHeight { NotBefore(g, mapBlockIndex, pindexBest, vHave, n, k); }
    hide LinksOk, Ancestor, Agree, OnChain, Back, Entries, AtDistances, TreeOk, InTree, ReaderOk, OnMain, First, Describes;
    LastNumber(from.nHeight, mapBlockIndex[vHave[k]].nHeight, n, k);
  }

  lemma NotBefore(g: Hash, mapBlockIndex: map<Hash, BlockIndex>, pindexBest: BlockIndex?, vHave: seq<Hash>, n: nat, k: nat)
    requires pindexBest != null ==> InTree(g, pindexBest)
    requires First(g, mapBlockIndex, pindexBest, vHave, k) && 0 < n < |vHave| && vHave[n - 1] == vHave[n]
    ensures k != n
  {
    hide InTree, OnChain;
  }

  lemma LastNumber(h: nat, f: nat, n: nat, k: nat)
    requires k <= n && n > 0 && Back(n - 1) <= h
    requires (Back(k) == h - f <==> k < n) && (k == n ==> f == 0 && Back(n - 1) < h)
    ensures k == n <==> f == 0 && Back(n - 1) < h
  {
    hide Back;
    if k < n - 1 { BackGrows(k, n - 1); }
  }

  // The list reaches the genesis block by itself.
  lemma LastOwnEntry(g: Hash, from: BlockIndex, vHave: seq<Hash>)
    requires InTree(g, from) && Describes(g, from, vHave)
    ensures var n := Entries(from.nHeight);
            n > 0 && |vHave| == n + 1 && vHave[n] == g && (Back(n - 1) == from.nHeight ==> vHave[n - 1] == g)
  {
    var n := Entries(from.nHeight);
    EntriesReach(from.nHeight);
    GenesisHash(g, from);
    hide Ancestor, InTree, Back, Entries;
    assert vHave[..n][n - 1] == vHave[n - 1];
  }

  // Some entry is common: at the latest the genesis block.
  lemma {:induction false} SomeCommon(g: Hash, ours: set<BlockIndex>, from: BlockIndex, vHave: seq<Hash>,
                   mapBlockIndex: map<Hash, BlockIndex>, pindexBest: BlockIndex, k: nat)
    requires TreeOk(g, ours) && from in ours && Describes(g, from, vHave)
    requires ReaderOk(g, mapBlockIndex, pindexBest) && First(g, mapBlockIndex, pindexBest, vHave, k)
    ensures k < |vHave|
  {
    hide LinksOk, Ancestor, Entries;
    GenesisHash(g, pindexBest);
    var genesis := Ancestor(g, pindexBest, 0);
    OurEntry(g, mapBlockIndex.Values, pindexBest, 0);
    Keyed(mapBlockIndex, genesis);
    assert OnMain(g, mapBlockIndex, pindexBest, vHave[|vHave| - 1]);
  }

  // A locator made by one node and read by another: the distance is the difference in height to the block
  // found, unless that is a forced genesis block, and then it is more than the whole height.
  method Locate(g: Hash, ghost ours: set<BlockIndex>, from: BlockIndex, mapBlockIndex: map<Hash, BlockIndex>, pindexBest: BlockIndex,
                pindexGenesisBlock: BlockIndex?) returns (nDistance: nat, found: BlockIndex?)
    requires TreeOk(g, ours) && from in ours
    requires ReaderOk(g, mapBlockIndex, pindexBest) && Agree(ours, mapBlockIndex.Values)
    ensures found != null && found in mapBlockIndex.Values && OnChain(g, found, pindexBest)
    ensures nDistance == from.nHeight - found.nHeight <==> found.nHeight > 0 || !Forced(from.nHeight)
    ensures found.nHeight == 0 && Forced(from.nHeight) ==> nDistance > from.nHeight
  {
    hide LinksOk, Ancestor, Agree, OnChain, Back, Entries, Forced, TreeOk, Describes, InTree, OnMain, NoneBefore;
    OurTree(g, ours, from);
    OurTree(g, mapBlockIndex.Values, pindexBest);
    var locator := new BlockLocator;
    locator.Set(g, from);
    nDistance := locator.GetDistanceBack(g, mapBlockIndex, pindexBest);
    found := locator.GetBlockIndex(g, mapBlockIndex, pindexBest, pindexGenesisBlock);
    ghost var vHave := locator.vHave;
    ghost var j: nat :| First(g, mapBlockIndex, pindexBest, vHave, j) && nDistance == Back(j);
    KnownIfFirst(g, mapBlockIndex, pindexBest, vHave);
    ghost var k: nat :| First(g, mapBlockIndex, pindexBest, vHave, k)
                     && found == if k < |vHave| then mapBlockIndex[vHave[k]] else pindexGenesisBlock;
    OneFirst(g, mapBlockIndex, pindexBest, vHave, j, k);
    SomeCommon(g, ours, from, vHave, mapBlockIndex, pindexBest, k);
    FirstOnMain(g, mapBlockIndex, pindexBest, vHave, k);
    DistanceIsHeightDifference(g, ours, from, vHave, mapBlockIndex, pindexBest, k);
    LastEntryIff(g, ours, from, vHave, mapBlockIndex, pindexBest, k);
  }

  lemma OurTree(g: Hash, ours: set<BlockIndex>, from: BlockIndex)
    requires TreeOk(g, ours) && from in ours
    ensures InTree(g, from)
  {}

  lemma KnownIfFirst(g: Hash, mapBlockIndex: map<Hash, BlockIndex>, pindexBest: BlockIndex, vHave: seq<Hash>)
    requires InTree(g, pindexBest)
    ensures forall k: nat :: First(g, mapBlockIndex, pindexBest, vHave, k) && k < |vHave| ==> vHave[k] in mapBlockIndex
  {}

  lemma FirstOnMain(g: Hash, mapBlockIndex: map<Hash, BlockIndex>, pindexBest: BlockIndex, vHave: seq<Hash>, k: nat)
    requires InTree(g, pindexBest) && First(g, mapBlockIndex, pindexBest, vHave, k) && k < |vHave|
    ensures vHave[k] in mapBlockIndex && OnChain(g, mapBlockIndex[vHave[k]], pindexBest)
  {}

  // The block found is no further back than twice the way to the fork: when the block d before the
  // start is common to both chains, it is at most d back for d up to 10, and else at most 2d - 11.
  lemma {:induction false} FoundNearFork(g: Hash, ours: set<BlockIndex>, from: BlockIndex, vHave: seq<Hash>,
                      mapBlockIndex: map<Hash, BlockIndex>, pindexBest: BlockIndex?, d: nat, k: nat)
    requires TreeOk(g, ours) && from in ours && Describes(g, from, vHave) && d <= from.nHeight
    requires ReaderOk(g, mapBlockIndex, pindexBest) && Agree(ours, mapBlockIndex.Values)
    requires var fork := Ancestor(g, from, from.nHeight - d);
             fork != null && OnMain(g, mapBlockIndex, pindexBest, fork.block.hash)
    requires First(g, mapBlockIndex, pindexBest, vHave, k)
    ensures k < |vHave| && from.nHeight - mapBlockIndex[vHave[k]].nHeight <= if d <= 10 then d else 2 * d - 11
  {
    hide LinksOk, Ancestor, Agree, OnChain, OnMain, Back, Entries, First, Log2;
    var j := FirstBeyond(d);
    var n := Entries(from.nHeight);
    var i := if j < n then j else n;
    CommonEntry(g, ours, from, vHave, mapBlockIndex, pindexBest, d, i);
    FirstIsEarly(g, mapBlockIndex, pindexBest, vHave, i, k);
    DistanceIsHeightDifference(g, ours, from, vHave, mapBlockIndex, pindexBest, k);
    WithinBack(from.nHeight, mapBlockIndex[vHave[k]].nHeight, k, j);
  }

  lemma FirstIsEarly(g: Hash, mapBlockIndex: map<Hash, BlockIndex>, pindexBest: BlockIndex?, vHave: seq<Hash>, i: nat, k: nat)
    requires pindexBest != null ==> InTree(g, pindexBest)
    requires First(g, mapBlockIndex, pindexBest, vHave, k) && i < |vHave| && OnMain(g, mapBlockIndex, pindexBest, vHave[i])
    ensures k <= i && vHave[k] in mapBlockIndex
  {}

  lemma WithinBack(h: nat, f: nat, k: nat, j: nat)
    requires k <= j && (Back(k) == h - f || (f == 0 && Back(k) > h))
    ensures h - f <= Back(j)
  {
    if k < j { BackGrows(k, j); }
  }

  // An entry at least d back is common when the block d back is; so is the genesis block at the end.
  lemma {:induction false} CommonEntry(g: Hash, ours: set<BlockIndex>, from: BlockIndex, vHave: seq<Hash>,
                    mapBlockIndex: map<Hash, BlockIndex>, pindexBest: BlockIndex?, d: nat, i: nat)
    requires TreeOk(g, ours) && from in ours && Describes(g, from, vHave) && d <= from.nHeight
    requires ReaderOk(g, mapBlockIndex, pindexBest) && Agree(ours, mapBlockIndex.Values)
    requires var fork := Ancestor(g, from, from.nHeight - d);
             fork != null && OnMain(g, mapBlockIndex, pindexBest, fork.block.hash)
    requires i <= Entries(from.nHeight) && (i < Entries(from.nHeight) ==> d <= Back(i))
    ensures OnMain(g, mapBlockIndex, pindexBest, vHave[i])
  {
    hide LinksOk, Ancestor, Agree, OnChain, OnMain, Back;
    var n := Entries(from.nHeight);
    var at := from.nHeight;
    if i < n {
      EntriesReach(from.nHeight);
      NotBeforeNext(i, n);
      at := Back(i);
      assert vHave[..n][i] == vHave[i];
    } else {
      GenesisHash(g, from);
    }
    hide Entries, Describes, TreeOk;
    CommonBelow(g, ours, from, mapBlockIndex, pindexBest, d, at);
  }

  lemma NotBeforeNext(j: nat, n: nat)
    requires n > 0
    ensures j < n ==> Back(j) <= Back(n - 1)
    ensures n <= j ==> Back(n) <= Back(j)
  {
    if j < n - 1 { BackGrows(j, n - 1); }
    if n < j { BackGrows(n, j); }
  }

  // The nearest entry that is at least d back.
  lemma FirstBeyond(d: nat) returns (j: nat)
    ensures d <= Back(j) <= if d <= 10 then d else 2 * d - 11
  {
    j := if d <= 10 then d else 11 + Log2(d - 10);
  }

  lemma GenesisHash(g: Hash, from: BlockIndex)
    requires InTree(g, from)
    ensures var b := Ancestor(g, from, 0); b != null && b.block.hash == g
  {
    AncestorHeight(g, from, 0);
    AncestorHeight(g, from, -1);
  }

  // What lies further back than a block common to both chains is common to both.
  lemma {:induction false} CommonBelow(g: Hash, ours: set<BlockIndex>, from: BlockIndex, mapBlockIndex: map<Hash, BlockIndex>,
                    pindexBest: BlockIndex?, d: nat, e: nat)
    requires TreeOk(g, ours) && from in ours && d <= e <= from.nHeight
    requires ReaderOk(g, mapBlockIndex, pindexBest) && Agree(ours, mapBlockIndex.Values)
    requires var fork := Ancestor(g, from, from.nHeight - d);
             fork != null && OnMain(g, mapBlockIndex, pindexBest, fork.block.hash)
    ensures var a := Ancestor(g, from, from.nHeight - e);
            a != null && OnMain(g, mapBlockIndex, pindexBest, a.block.hash)
  {
    hide LinksOk, Ancestor, InTree, Agree;
    OurEntry(g, ours, from, from.nHeight - d);
    var fork := Ancestor(g, from, from.nHeight - d);
    var b := mapBlockIndex[fork.block.hash];
    var h := from.nHeight - e;
    assert b in mapBlockIndex.Values && InTree(g, b) && InTree(g, fork);
    SameHashSameHeight(g, ours, mapBlockIndex.Values, fork, b);
    AncestorsShared(g, ours, mapBlockIndex.Values, fork, b, h);
    AncestorOfAncestor(g, from, fork.nHeight, h);
    AncestorOfAncestor(g, pindexBest, b.nHeight, h);
    AncestorHeight(g, b, h);
    Keyed(mapBlockIndex, Ancestor(g, b, h));
  }

  lemma Keyed(mapBlockIndex: map<Hash, BlockIndex>, y: BlockIndex)
    requires y in mapBlockIndex.Values && forall h :: h in mapBlockIndex ==> mapBlockIndex[h].block.hash == h
    ensures y.block.hash in mapBlockIndex && mapBlockIndex[y.block.hash] == y
  {}

  lemma OurEntry(g: Hash, ours: set<BlockIndex>, from: BlockIndex, h: int)
    requires TreeOk(g, ours) && from in ours && 0 <= h <= from.nHeight
    ensures var a := Ancestor(g, from, h); a != null && a in ours && a.nHeight == h
  {
    AncestorsShared(g, ours, ours, from, from, h);
    AncestorHeight(g, from, h);
  }

  lemma ListNone(g: Hash, b: BlockIndex)
    requires InTree(g, b)
    ensures AtDistances(g, b, []) && Stride(0) == 1 && Ancestor(g, b, b.nHeight - Back(0)) == b
  {}
}
