/** Merkle trees: the hash of a node as CBlock and CPartialMerkleTree compute it, level by level and
    recursively, and the branch that leads from a transaction to the root. */
module MerkleTree {
  import opened Basics

  // Hashing two digests together is injective and unlike any transaction hash that is not itself a pair.
  datatype Digest = Digest(n: nat) | Pair(left: Digest, right: Digest)

  const Zero := Digest.Digest(0)

  // ---------- powers of two and the width of a level ----------

  // CalcTreeWidth: (n + (1 << h) - 1) >> h
  function Width(n: nat, h: nat): nat { (n + Pow2(h) - 1) / Pow2(h) }

  lemma MulTwo(x: int, d: int)
    ensures x * (2 * d) == (2 * x) * d
  {}

  lemma DivNext(x: nat, d: nat)
    requires d > 0
    ensures (x + d) / d == x / d + 1
  {
    assert x == x / d * d + x % d;
    assert (x / d + 1) * d == x / d * d + d;
    QuotientIs(x + d, d, x / d + 1);
  }

  lemma DivHalf(x: nat, d: nat)
    requires d > 0
    ensures x / (2 * d) == x / d / 2
  {
    var q := x / d;
    var k := q / 2;
    assert x == q * d + x % d;
    MulTwo(k, d);
    if q % 2 == 0 {
      assert q == 2 * k;
      QuotientIs(x, 2 * d, k);
    } else {
      MulNext(2 * k, q, d);
      QuotientIs(x, 2 * d, k);
    }
  }

  lemma MulNext(x: int, y: int, d: int)
    requires y == x + 1
    ensures y * d == x * d + d
  {}

  lemma HalfWidth(n: nat, h: nat)
    ensures Width(n, h + 1) == (Width(n, h) + 1) / 2
  {
    var d := Pow2(h);
    DivHalf(n + 2 * d - 1, d);
    DivNext(n + d - 1, d);
  }

  // A node is in its level if its first leaf is a transaction.
  lemma {:induction false} WidthMeans(n: nat, h: nat, pos: nat)
    ensures pos < Width(n, h) <==> pos * Pow2(h) < n
  {
    if h > 0 {
      HalfWidth(n, h - 1);
      WidthMeans(n, h - 1, 2 * pos);
      MulTwo(pos, Pow2(h - 1));
    }
  }

  // ---------- the hash of a node ----------

  function CalcHash(vTxid: seq<Digest>, h: nat, pos: nat): Digest
    requires pos < Width(|vTxid|, h)
    decreases h
  {
    if h == 0 then vTxid[pos]
    else
      ChildrenInLevel(|vTxid|, h, pos);
      var left := CalcHash(vTxid, h - 1, pos * 2);
      var right := if pos * 2 + 1 < Width(|vTxid|, h - 1) then CalcHash(vTxid, h - 1, pos * 2 + 1) else left;
      Pair(left, right)
  }

  lemma ChildrenInLevel(n: nat, h: nat, pos: nat)
    requires h > 0 && pos < Width(n, h)
    ensures pos * 2 < Width(n, h - 1)
  {
    HalfWidth(n, h - 1);
  }

  // The nodes of one height, left to right.
  function Level(vTxid: seq<Digest>, h: nat): (r: seq<Digest>)
    ensures |r| == Width(|vTxid|, h)
  {
    seq(Width(|vTxid|, h), p requires 0 <= p < Width(|vTxid|, h) => CalcHash(vTxid, h, p))
  }

  // The levels below height h, the lowest first.
  function LevelsBelow(vTxid: seq<Digest>, h: nat): seq<Digest> {
    if h == 0 then [] else LevelsBelow(vTxid, h - 1) + Level(vTxid, h - 1)
  }

  // The height of the root.
  function TreeHeight(n: nat): (h: nat)
    ensures Width(n, h) <= 1 && forall k :: 0 <= k < h ==> Width(n, k) > 1
  {
    HeightFrom(n, 0)
  }

  function HeightFrom(n: nat, h: nat): (r: nat)
    requires forall k :: 0 <= k < h ==> Width(n, k) > 1
    ensures Width(n, r) <= 1 && forall k :: 0 <= k < r ==> Width(n, k) > 1
    decreases Width(n, h)
  {
    if Width(n, h) <= 1 then h else HalfWidth(n, h); HeightFrom(n, h + 1)
  }

  lemma HeightUnique(n: nat, h: nat)
    requires Width(n, h) <= 1 && forall k :: 0 <= k < h ==> Width(n, k) > 1
    ensures h == TreeHeight(n)
  {}

  lemma RootInLevel(n: nat)
    requires n > 0
    ensures Width(n, TreeHeight(n)) == 1
  {
    WidthMeans(n, TreeHeight(n), 0);
  }

  function Root(vTxid: seq<Digest>): Digest
    requires vTxid != []
  {
    RootInLevel(|vTxid|);
    CalcHash(vTxid, TreeHeight(|vTxid|), 0)
  }

  // Each node hashes a pair of the level below, the last one with itself if it has no partner.
  lemma LevelUp(vTxid: seq<Digest>, h: nat, k: nat)
    requires 2 * k < Width(|vTxid|, h)
    ensures k < Width(|vTxid|, h + 1)
    ensures Level(vTxid, h + 1)[k] == Pair(Level(vTxid, h)[2 * k], Level(vTxid, h)[Min(2 * k + 1, Width(|vTxid|, h) - 1)])
  {
    HalfWidth(|vTxid|, h);
  }

  // ---------- branches ----------

  // nIndex ^ 1
  function Partner(i: nat): nat { if i % 2 == 0 then i + 1 else i - 1 }

  // The hashes to combine with on the way from node i of height h to the root.
  function BranchFrom(vTxid: seq<Digest>, h: nat, i: nat): seq<Digest>
    decreases Width(|vTxid|, h)
  {
    if Width(|vTxid|, h) <= 1 then []
    else
      HalfWidth(|vTxid|, h);
      [Level(vTxid, h)[Min(Partner(i), Width(|vTxid|, h) - 1)]] + BranchFrom(vTxid, h + 1, i / 2)
  }

  function Combine(hash: Digest, otherside: Digest, i: int): Digest {
    if i % 2 == 1 then Pair(otherside, hash) else Pair(hash, otherside)
  }

  function Fold(hash: Digest, branch: seq<Digest>, i: int): Digest
    decreases |branch|
  {
    if branch == [] then hash else Fold(Combine(hash, branch[0], i), branch[1..], i / 2)
  }

  lemma {:induction false} BranchLength(vTxid: seq<Digest>, h: nat, i: nat)
    requires h <= TreeHeight(|vTxid|)
    ensures |BranchFrom(vTxid, h, i)| == TreeHeight(|vTxid|) - h
    decreases TreeHeight(|vTxid|) - h
  {
    if h < TreeHeight(|vTxid|) { BranchLength(vTxid, h + 1, i / 2); }
  }

  lemma BranchNext(vTxid: seq<Digest>, h: nat, i: nat)
    requires h <= TreeHeight(|vTxid|) && Width(|vTxid|, h) > 1
    ensures h < TreeHeight(|vTxid|)
    ensures BranchFrom(vTxid, h, i) == [Level(vTxid, h)[Min(Partner(i), Width(|vTxid|, h) - 1)]] + BranchFrom(vTxid, h + 1, i / 2)
  {}

  lemma BranchEnd(vTxid: seq<Digest>, h: nat, i: nat)
    requires Width(|vTxid|, h) <= 1
    ensures BranchFrom(vTxid, h, i) == []
  {}

  // Following the branch of a node leads to the root, and no other branch of that length does, nor does
  // any other hash.
  lemma {:induction false} BranchLeadsToRoot(vTxid: seq<Digest>, h: nat, i: nat, hash: Digest, branch: seq<Digest>)
    requires vTxid != [] && h <= TreeHeight(|vTxid|) && i < Width(|vTxid|, h)
    requires |branch| == TreeHeight(|vTxid|) - h
    ensures Fold(hash, branch, i) == Root(vTxid) <==> hash == CalcHash(vTxid, h, i) && branch == BranchFrom(vTxid, h, i)
    decreases TreeHeight(|vTxid|) - h
  {
    if h == TreeHeight(|vTxid|) {
      RootInLevel(|vTxid|);
    } else {
      BranchStep(vTxid, h, i);
      var otherside := Level(vTxid, h)[Min(Partner(i), Width(|vTxid|, h) - 1)];
      BranchLeadsToRoot(vTxid, h + 1, i / 2, Combine(hash, branch[0], i), branch[1..]);
      hide Level, CalcHash, Width, TreeHeight, BranchFrom, Pow2;
      assert branch == [branch[0]] + branch[1..];
    }
  }

  lemma BranchStep(vTxid: seq<Digest>, h: nat, i: nat)
    requires vTxid != [] && h < TreeHeight(|vTxid|) && i < Width(|vTxid|, h)
    ensures i / 2 < Width(|vTxid|, h + 1)
    ensures var otherside := Level(vTxid, h)[Min(Partner(i), Width(|vTxid|, h) - 1)];
            && CalcHash(vTxid, h + 1, i / 2) == Combine(CalcHash(vTxid, h, i), otherside, i)
            && BranchFrom(vTxid, h, i) == [otherside] + BranchFrom(vTxid, h + 1, i / 2)
  {
    HalfWidth(|vTxid|, h);
    LevelUp(vTxid, h, i / 2);
  }

  // ---------- CBlock ----------

  // The tree while a level is being added: k of its nodes are there.
  ghost predicate Adding(vtx: seq<Digest>, h: nat, tree: seq<Digest>, k: nat) {
    k <= |Level(vtx, h + 1)| && tree == LevelsBelow(vtx, h + 1) + Level(vtx, h + 1)[..k]
  }

  lemma AddNode(vtx: seq<Digest>, h: nat, tree: seq<Digest>, k: nat, j: nat)
    requires Adding(vtx, h, tree, k) && 2 * k < Width(|vtx|, h) && j == |LevelsBelow(vtx, h)|
    ensures var i, i2 := 2 * k, Min(2 * k + 1, Width(|vtx|, h) - 1);
            0 <= i2 && j + i < |tree| && j + i2 < |tree| && Adding(vtx, h, tree + [Pair(tree[j + i], tree[j + i2])], k + 1)
  {
    LevelUp(vtx, h, k);
    assert LevelsBelow(vtx, h + 1) == LevelsBelow(vtx, h) + Level(vtx, h);
    var level, above := Level(vtx, h), Level(vtx, h + 1);
    hide Level, LevelsBelow, Width, Pow2, CalcHash;
    assert above[..k + 1] == above[..k] + [above[k]];
  }

  lemma AddingEnds(vtx: seq<Digest>, h: nat, tree: seq<Digest>, k: nat)
    ensures Adding(vtx, h, LevelsBelow(vtx, h + 1), 0)
    ensures Adding(vtx, h, tree, k) && 2 * k >= Width(|vtx|, h) ==> tree == LevelsBelow(vtx, h + 2)
  {
    HalfWidth(|vtx|, h);
    var below, above := LevelsBelow(vtx, h + 1), Level(vtx, h + 1);
    assert LevelsBelow(vtx, h + 2) == below + above && |above| == Width(|vtx|, h + 1);
    hide Level, LevelsBelow, Width, Pow2, CalcHash;
    assert below + above[..0] == below && above[..|above|] == above;
  }

  class TxBlock {
    const vtx: seq<Digest>   // the transaction hashes
    var vMerkleTree: seq<Digest>

    constructor (vtx: seq<Digest>)
      ensures this.vtx == vtx && vMerkleTree == []
    {
      this.vtx := vtx;
      vMerkleTree := [];
    }

    // Appends the level above the one that starts at j.
    method AddLevel(j: nat, nSize: nat, ghost h: nat)
      requires nSize == Width(|vtx|, h) && j == |LevelsBelow(vtx, h)| && vMerkleTree == LevelsBelow(vtx, h + 1)
      modifies this
      ensures vMerkleTree == LevelsBelow(vtx, h + 2)
    {
      hide Level, LevelsBelow, Width, Adding;
      var i := 0;
      ghost var k := 0;
      AddingEnds(vtx, h, vMerkleTree, 0);
      while i < nSize
        invariant i == 2 * k && Adding(vtx, h, vMerkleTree, k)
      {
        var i2 := Min(i + 1, nSize - 1);
        AddNode(vtx, h, vMerkleTree, k, j);
        vMerkleTree := vMerkleTree + [Pair(vMerkleTree[j + i], vMerkleTree[j + i2])];
        i, k := i + 2, k + 1;
      }
      AddingEnds(vtx, h, vMerkleTree, k);
    }

    // vMerkleTree holds every level, and the result is the hash of the root.
    method BuildMerkleTree() returns (root: Digest)
      modifies this
      ensures vMerkleTree == LevelsBelow(vtx, TreeHeight(|vtx|) + 1)
      ensures root == if vtx == [] then Zero else Root(vtx)
    {
      vMerkleTree := vtx;
      var j := 0;
      var nSize := |vtx|;
      ghost var h := 0;
      assert Level(vtx, 0) == vtx;
      while nSize > 1
        invariant nSize == Width(|vtx|, h) && j == |LevelsBelow(vtx, h)|
        invariant vMerkleTree == LevelsBelow(vtx, h + 1)
        invariant forall k :: 0 <= k < h ==> Width(|vtx|, k) > 1
        decreases nSize
      {
        HalfWidth(|vtx|, h);
        AddLevel(j, nSize, h);
        j := j + nSize;
        nSize := (nSize + 1) / 2;
        h := h + 1;
      }
      HeightUnique(|vtx|, h);
      if vtx != [] { RootInLevel(|vtx|); }
      return if vMerkleTree == [] then Zero else vMerkleTree[|vMerkleTree| - 1];
    }

    method GetMerkleBranch(nIndex: nat) returns (vMerkleBranch: seq<Digest>)
      requires vMerkleTree == [] || vMerkleTree == LevelsBelow(vtx, TreeHeight(|vtx|) + 1)
      modifies this
      ensures vMerkleTree == LevelsBelow(vtx, TreeHeight(|vtx|) + 1)
      ensures vMerkleBranch == BranchFrom(vtx, 0, nIndex)
    {
      if vMerkleTree == [] { var root := BuildMerkleTree(); }
      hide Level, LevelsBelow, BranchFrom, CalcHash, TreeHeight, HeightFrom;
      vMerkleBranch := Climb(vtx, vMerkleTree, nIndex);
    }
  }

  // Each level is where the ones below it end.
  lemma {:induction false} LevelInside(vTxid: seq<Digest>, h: nat, H: nat, i: nat)
    requires h < H && i < Width(|vTxid|, h)
    ensures var all := LevelsBelow(vTxid, H); var j := |LevelsBelow(vTxid, h)|;
            j + Width(|vTxid|, h) <= |all| && all[j + i] == Level(vTxid, h)[i]
  {
    if h + 1 < H { LevelInside(vTxid, h, H - 1, i); }
  }

  // The next hash of the branch is in the current level of the complete tree.
  lemma ClimbOne(vTxid: seq<Digest>, whole: seq<Digest>, h: nat, n: nat)
    requires h <= TreeHeight(|vTxid|) && Width(|vTxid|, h) > 1 && h <= |whole| && whole[h..] == BranchFrom(vTxid, h, n)
    ensures var all := LevelsBelow(vTxid, TreeHeight(|vTxid|) + 1); var j := |LevelsBelow(vTxid, h)|; var w := Width(|vTxid|, h);
            && h < TreeHeight(|vTxid|) && h < |whole| && j + w <= |all|
            && |LevelsBelow(vTxid, h + 1)| == j + w && Width(|vTxid|, h + 1) == (w + 1) / 2
            && whole[..h + 1] == whole[..h] + [all[j + Min(Partner(n), w - 1)]]
            && whole[h + 1..] == BranchFrom(vTxid, h + 1, n / 2)
  {
    HalfWidth(|vTxid|, h);
    BranchNext(vTxid, h, n);
    assert |LevelsBelow(vTxid, h + 1)| == |LevelsBelow(vTxid, h)| + Width(|vTxid|, h);
    var i := Min(Partner(n), Width(|vTxid|, h) - 1);
    LevelInside(vTxid, h, TreeHeight(|vTxid|) + 1, i);
    hide Level, LevelsBelow, Width, BranchFrom, TreeHeight, CalcHash, Pow2;
    TakeOne(whole, h, Level(vTxid, h)[i], BranchFrom(vTxid, h + 1, n / 2));
  }

  // The walk from a transaction to the root through a complete vMerkleTree.
  method Climb(vtx: seq<Digest>, vMerkleTree: seq<Digest>, nIndex: nat) returns (vMerkleBranch: seq<Digest>)
    requires vMerkleTree == LevelsBelow(vtx, TreeHeight(|vtx|) + 1)
    ensures vMerkleBranch == BranchFrom(vtx, 0, nIndex)
  {
    assert LevelsBelow(vtx, 0) == [] && Width(|vtx|, 0) == |vtx|;
    hide Level, LevelsBelow, Width, BranchFrom, CalcHash, TreeHeight;
    ghost var whole := BranchFrom(vtx, 0, nIndex);
    vMerkleBranch := [];
    var j := 0;
    var nSize := |vtx|;
    var n := nIndex;
    ghost var h := 0;
    while nSize > 1
      invariant h <= TreeHeight(|vtx|) && nSize == Width(|vtx|, h) && j == |LevelsBelow(vtx, h)|
      invariant h <= |whole| && vMerkleBranch == whole[..h] && whole[h..] == BranchFrom(vtx, h, n)
      decreases nSize
    {
      ClimbOne(vtx, whole, h, n);
      var i := Min(Partner(n), nSize - 1);
      vMerkleBranch := vMerkleBranch + [vMerkleTree[j + i]];
      n := n / 2;
      j := j + nSize;
      nSize := (nSize + 1) / 2;
      h := h + 1;
    }
    BranchEnd(vtx, h, n);
  }

  lemma TakeOne(s: seq<Digest>, h: nat, x: Digest, rest: seq<Digest>)
    requires h <= |s| && s[h..] == [x] + rest
    ensures h < |s| && s[..h + 1] == s[..h] + [x] && s[h + 1..] == rest
  {
    assert s == s[..h] + ([x] + rest);
  }

  method CheckMerkleBranch(hash: Digest, vMerkleBranch: seq<Digest>, nIndex: int) returns (r: Digest)
    ensures r == if nIndex == -1 then Zero else Fold(hash, vMerkleBranch, nIndex)
  {
    if nIndex == -1 { return Zero; }
    r := hash;
    var i, n := 0, nIndex;
    while i < |vMerkleBranch|
      invariant 0 <= i <= |vMerkleBranch| && Fold(r, vMerkleBranch[i..], n) == Fold(hash, vMerkleBranch, nIndex)
    {
      assert vMerkleBranch[i..][1..] == vMerkleBranch[i + 1..];
      r := Combine(r, vMerkleBranch[i], n);
      n := n / 2;
      i := i + 1;
    }
  }

  // The branch the block gives for a transaction is accepted, and only for that transaction.
  method ProveTransaction(block: TxBlock, nIndex: nat, claimed: Digest) returns (proven: bool)
    requires nIndex < |block.vtx| && block.vMerkleTree == []
    modifies block
    ensures proven <==> claimed == block.vtx[nIndex]
  {
    var root := block.BuildMerkleTree();
    var branch := block.GetMerkleBranch(nIndex);
    BranchLength(block.vtx, 0, nIndex);
    BranchLeadsToRoot(block.vtx, 0, nIndex, claimed, branch);
    var r := CheckMerkleBranch(claimed, branch, nIndex);
    return r == root;
  }
}
