/** Partial Merkle trees: the depth-first encoding of the part of a tree that leads to the matched
    transactions (BIP 37, "Partial Merkle branch format"), its extraction and its packing into bytes. */
module PartialMerkle {
  import opened Basics
  import opened MerkleTree

  const MAX_BLOCK_SIZE := 1000000
  const MAX_TRANSACTIONS := MAX_BLOCK_SIZE / 60

  // ---------- the leaves of a node ----------

  function Lo(h: nat, pos: nat): nat { pos * Pow2(h) }

  // One past the last leaf.
  function Hi(n: nat, h: nat, pos: nat): nat { if (pos + 1) * Pow2(h) < n then (pos + 1) * Pow2(h) else n }

  // A node has a leaf; its children share its leaves, and if it has one child that one has them all.
  lemma ChildLeaves(n: nat, h: nat, pos: nat)
    requires pos < Width(n, h)
    ensures Lo(h, pos) < Hi(n, h, pos) <= n
    ensures h == 0 ==> Lo(h, pos) == pos && Hi(n, h, pos) == pos + 1
    ensures h > 0 ==> 2 * pos < Width(n, h - 1) && Lo(h - 1, 2 * pos) == Lo(h, pos)
    ensures h > 0 && 2 * pos + 1 < Width(n, h - 1) ==>
              && Hi(n, h - 1, 2 * pos) == Lo(h - 1, 2 * pos + 1)
              && Hi(n, h - 1, 2 * pos + 1) == Hi(n, h, pos)
    ensures h > 0 && 2 * pos + 1 >= Width(n, h - 1) ==> Hi(n, h - 1, 2 * pos) == Hi(n, h, pos)
  {
    WidthMeans(n, h, pos);
    MulNext(pos, pos + 1, Pow2(h));
    if h > 0 {
      var d := Pow2(h - 1);
      ChildrenInLevel(n, h, pos);
      WidthMeans(n, h - 1, 2 * pos + 1);
      MulTwo(pos, d);
      MulTwo(pos + 1, d);
      MulNext(2 * pos, 2 * pos + 1, d);
      MulNext(2 * pos + 1, 2 * (pos + 1), d);
    }
  }

  ghost predicate AnyMatch(vMatch: seq<bool>, lo: nat, hi: nat)
    requires hi <= |vMatch|
  {
    exists p :: lo <= p < hi && vMatch[p]
  }

  // The matched transactions among some leaves, in order.
  function Chosen(vTxid: seq<Digest>, vMatch: seq<bool>, lo: nat, hi: nat): seq<Digest>
    requires hi <= |vTxid| == |vMatch|
    decreases hi
  {
    if lo >= hi then []
    else Chosen(vTxid, vMatch, lo, hi - 1) + if vMatch[hi - 1] then [vTxid[hi - 1]] else []
  }

  lemma {:induction false} ChosenSplit(vTxid: seq<Digest>, vMatch: seq<bool>, lo: nat, mid: nat, hi: nat)
    requires lo <= mid <= hi <= |vTxid| == |vMatch|
    ensures Chosen(vTxid, vMatch, lo, hi) == Chosen(vTxid, vMatch, lo, mid) + Chosen(vTxid, vMatch, mid, hi)
    decreases hi
  {
    if mid < hi { ChosenSplit(vTxid, vMatch, lo, mid, hi - 1); }
  }

  lemma {:induction false} ChosenNone(vTxid: seq<Digest>, vMatch: seq<bool>, lo: nat, hi: nat)
    requires hi <= |vTxid| == |vMatch|
    ensures AnyMatch(vMatch, lo, hi) <==> |Chosen(vTxid, vMatch, lo, hi)| > 0
    decreases hi
  {
    if lo < hi {
      ChosenNone(vTxid, vMatch, lo, hi - 1);
      assert AnyMatch(vMatch, lo, hi) <==> AnyMatch(vMatch, lo, hi - 1) || vMatch[hi - 1];
    }
  }

  // The entries of a, in order, with others between them.
  predicate Subsequence(a: seq<Digest>, s: seq<Digest>)
    decreases |s|
  {
    if a == [] then true
    else if s == [] then false
    else
      var sFront := s[..|s| - 1];
      (a[|a| - 1] == s[|s| - 1] && Subsequence(a[..|a| - 1], sFront)) || Subsequence(a, sFront)
  }

  lemma {:induction false} SubsequenceJoin(a: seq<Digest>, s: seq<Digest>, b: seq<Digest>, t: seq<Digest>)
    requires Subsequence(a, s) && Subsequence(b, t)
    ensures Subsequence(a + b, s + t)
    decreases |t|
  {
    if t == [] {
      assert a + b == a && s + t == s;
    } else {
      var tFront := t[..|t| - 1];
      assert (s + t)[..|s + t| - 1] == s + tFront;
      if b != [] && b[|b| - 1] == t[|t| - 1] && Subsequence(b[..|b| - 1], tFront) {
        SubsequenceJoin(a, s, b[..|b| - 1], tFront);
        assert (a + b)[..|a + b| - 1] == a + b[..|b| - 1];
      } else {
        assert Subsequence(b, tFront);
        SubsequenceJoin(a, s, b, tFront);
      }
    }
  }

  lemma SubsequenceOne(x: Digest)
    ensures Subsequence([x], [x])
  {
    assert [x][..0] == [];
  }

  lemma SubsequenceAcross(a: seq<Digest>, b: seq<Digest>, s: seq<Digest>, lo: nat, mid: nat, hi: nat)
    requires lo <= mid <= hi <= |s| && Subsequence(a, s[lo..mid]) && Subsequence(b, s[mid..hi])
    ensures Subsequence(a + b, s[lo..hi])
  {
    SubsequenceJoin(a, s[lo..mid], b, s[mid..hi]);
    assert s[lo..mid] + s[mid..hi] == s[lo..hi];
  }

  // ---------- building ----------

  datatype Part = Part(bits: seq<bool>, hashes: seq<Digest>)

  ghost function Built(vTxid: seq<Digest>, vMatch: seq<bool>, h: nat, pos: nat): Part
    requires |vTxid| == |vMatch| && pos < Width(|vTxid|, h)
    decreases h
  {
    ChildLeaves(|vTxid|, h, pos);
    var parent := AnyMatch(vMatch, Lo(h, pos), Hi(|vTxid|, h, pos));
    if h == 0 || !parent then Part([parent], [CalcHash(vTxid, h, pos)])
    else
      var left := Built(vTxid, vMatch, h - 1, pos * 2);
      if pos * 2 + 1 < Width(|vTxid|, h - 1) then
        var right := Built(vTxid, vMatch, h - 1, pos * 2 + 1);
        Part([true] + left.bits + right.bits, left.hashes + right.hashes)
      else Part([true] + left.bits, left.hashes)
  }

  // At least a bit for every hash, and at most a hash for every leaf.
  lemma {:induction false} BuiltSize(vTxid: seq<Digest>, vMatch: seq<bool>, h: nat, pos: nat)
    requires |vTxid| == |vMatch| && pos < Width(|vTxid|, h)
    ensures var b := Built(vTxid, vMatch, h, pos);
            1 <= |b.hashes| <= |b.bits| && |b.hashes| <= Hi(|vTxid|, h, pos) - Lo(h, pos)
    decreases h
  {
    var n, lo, hi := |vTxid|, Lo(h, pos), Hi(|vTxid|, h, pos);
    ChildLeaves(n, h, pos);
    hide Lo, Hi, Width, CalcHash;
    if h > 0 && AnyMatch(vMatch, lo, hi) {
      BuiltSize(vTxid, vMatch, h - 1, pos * 2);
      if pos * 2 + 1 < Width(n, h - 1) { BuiltSize(vTxid, vMatch, h - 1, pos * 2 + 1); }
    }
  }

  lemma OneMore(a: nat, b: nat, h: nat)
    requires a + b > 0 && h > 0
    ensures (1 + a * (h - 1)) + (1 + b * (h - 1)) <= 1 + (a + b) * h
    ensures 1 + a * (h - 1) <= 1 + a * h
  {
    assert a * h == a * (h - 1) + a && b * h == b * (h - 1) + b && (a + b) * h == a * h + b * h;
  }

  // At most one hash more than there are matched transactions times the height.
  lemma {:induction false} BuiltBound(vTxid: seq<Digest>, vMatch: seq<bool>, h: nat, pos: nat)
    requires |vTxid| == |vMatch| && pos < Width(|vTxid|, h) && Hi(|vTxid|, h, pos) <= |vTxid|
    ensures |Built(vTxid, vMatch, h, pos).hashes| <= 1 + |Chosen(vTxid, vMatch, Lo(h, pos), Hi(|vTxid|, h, pos))| * h
    decreases h
  {
    var n, lo, hi := |vTxid|, Lo(h, pos), Hi(|vTxid|, h, pos);
    ChildLeaves(n, h, pos);
    ChosenNone(vTxid, vMatch, lo, hi);
    if h > 0 && AnyMatch(vMatch, lo, hi) {
      BuiltBound(vTxid, vMatch, h - 1, pos * 2);
      var mid := Hi(n, h - 1, 2 * pos);
      if pos * 2 + 1 < Width(n, h - 1) {
        BuiltBound(vTxid, vMatch, h - 1, pos * 2 + 1);
        hide Lo, Hi, Width, CalcHash, Chosen;
        ChosenSplit(vTxid, vMatch, lo, mid, hi);
        OneMore(|Chosen(vTxid, vMatch, lo, mid)|, |Chosen(vTxid, vMatch, mid, hi)|, h);
      } else {
        hide Lo, Hi, Width, CalcHash, Chosen;
        OneMore(|Chosen(vTxid, vMatch, lo, hi)|, 0, h);
      }
    }
  }

  // ---------- extracting ----------

  datatype Walk = Walk(hash: Digest, nBitsUsed: nat, nHashUsed: nat, found: seq<Digest>, bad: bool)

  function Extracted(n: nat, vBits: seq<bool>, vHash: seq<Digest>, h: nat, pos: nat, nBitsUsed: nat, nHashUsed: nat): Walk
    decreases h
  {
    if nBitsUsed >= |vBits| then Walk(Zero, nBitsUsed, nHashUsed, [], true)
    else if h == 0 || !vBits[nBitsUsed] then
      if nHashUsed >= |vHash| then Walk(Zero, nBitsUsed + 1, nHashUsed, [], true)
      else
        var hash := vHash[nHashUsed];
        Walk(hash, nBitsUsed + 1, nHashUsed + 1, if h == 0 && vBits[nBitsUsed] then [hash] else [], false)
    else
      var left := Extracted(n, vBits, vHash, h - 1, pos * 2, nBitsUsed + 1, nHashUsed);
      if pos * 2 + 1 < Width(n, h - 1) then
        var right := Extracted(n, vBits, vHash, h - 1, pos * 2 + 1, left.nBitsUsed, left.nHashUsed);
        Walk(Pair(left.hash, right.hash), right.nBitsUsed, right.nHashUsed, left.found + right.found, left.bad || right.bad)
      else left.(hash := Pair(left.hash, left.hash))
  }

  lemma WalkPair(n: nat, vBits: seq<bool>, vHash: seq<Digest>, h: nat, pos: nat, nb: nat, nh: nat)
    requires h > 0 && nb < |vBits| && vBits[nb]
    ensures var w := Extracted(n, vBits, vHash, h, pos, nb, nh);
            var left := Extracted(n, vBits, vHash, h - 1, pos * 2, nb + 1, nh);
            var right := Extracted(n, vBits, vHash, h - 1, pos * 2 + 1, left.nBitsUsed, left.nHashUsed);
            if pos * 2 + 1 < Width(n, h - 1) then
              w == Walk(Pair(left.hash, right.hash), right.nBitsUsed, right.nHashUsed, left.found + right.found, left.bad || right.bad)
            else w == left.(hash := Pair(left.hash, left.hash))
  {}

  lemma HashPair(vTxid: seq<Digest>, h: nat, pos: nat)
    requires h > 0 && pos < Width(|vTxid|, h)
    ensures 2 * pos < Width(|vTxid|, h - 1)
    ensures CalcHash(vTxid, h, pos) == Pair(CalcHash(vTxid, h - 1, pos * 2),
              if pos * 2 + 1 < Width(|vTxid|, h - 1) then CalcHash(vTxid, h - 1, pos * 2 + 1) else CalcHash(vTxid, h - 1, pos * 2))
  {
    ChildrenInLevel(|vTxid|, h, pos);
  }

  lemma HashLeaf(vTxid: seq<Digest>, pos: nat)
    requires pos < Width(|vTxid|, 0)
    ensures CalcHash(vTxid, 0, pos) == vTxid[pos]
  {}

  // Transactions below the node, in their order.
  predicate FoundBelow(vTxid: seq<Digest>, h: nat, pos: nat, found: seq<Digest>) {
    Lo(h, pos) <= Hi(|vTxid|, h, pos) <= |vTxid| && Subsequence(found, vTxid[Lo(h, pos)..Hi(|vTxid|, h, pos)])
  }

  lemma FoundInLeaf(vTxid: seq<Digest>, h: nat, pos: nat)
    requires pos < Width(|vTxid|, h)
    ensures FoundBelow(vTxid, h, pos, []) && (h == 0 ==> FoundBelow(vTxid, h, pos, [CalcHash(vTxid, h, pos)]))
  {
    ChildLeaves(|vTxid|, h, pos);
    hide Lo, Hi;
    if h == 0 {
      HashLeaf(vTxid, pos);
      SubsequenceOne(vTxid[pos]);
      assert vTxid[pos..pos + 1] == [vTxid[pos]];
      hide Subsequence, CalcHash;
    }
  }

  lemma FoundInChildren(vTxid: seq<Digest>, h: nat, pos: nat, a: seq<Digest>, b: seq<Digest>)
    requires h > 0 && pos < Width(|vTxid|, h) && FoundBelow(vTxid, h - 1, pos * 2, a)
    requires if pos * 2 + 1 < Width(|vTxid|, h - 1) then FoundBelow(vTxid, h - 1, pos * 2 + 1, b) else b == []
    ensures FoundBelow(vTxid, h, pos, a + b)
  {
    ChildLeaves(|vTxid|, h, pos);
    hide Lo, Hi, Subsequence, Width;
    if pos * 2 + 1 < Width(|vTxid|, h - 1) {
      SubsequenceAcross(a, b, vTxid, Lo(h, pos), Hi(|vTxid|, h - 1, pos * 2), Hi(|vTxid|, h, pos));
    } else {
      assert a + b == a;
    }
  }

  // Whatever the bits and hashes: a walk that does not fail and arrives at the hash of the node found only
  // transactions below the node, in their order.
  lemma {:induction false} WalkIsSound(vTxid: seq<Digest>, vBits: seq<bool>, vHash: seq<Digest>, h: nat, pos: nat, nb: nat, nh: nat)
    requires pos < Width(|vTxid|, h)
    requires var w := Extracted(|vTxid|, vBits, vHash, h, pos, nb, nh); !w.bad && w.hash == CalcHash(vTxid, h, pos)
    ensures FoundBelow(vTxid, h, pos, Extracted(|vTxid|, vBits, vHash, h, pos, nb, nh).found)
    decreases h
  {
    var n := |vTxid|;
    hide FoundBelow, Width;
    if h == 0 || nb >= |vBits| || !vBits[nb] {
      FoundInLeaf(vTxid, h, pos);
    } else {
      WalkPair(n, vBits, vHash, h, pos, nb, nh);
      HashPair(vTxid, h, pos);
      hide Extracted, CalcHash;
      var left := Extracted(n, vBits, vHash, h - 1, pos * 2, nb + 1, nh);
      WalkIsSound(vTxid, vBits, vHash, h - 1, pos * 2, nb + 1, nh);
      if pos * 2 + 1 < Width(n, h - 1) {
        WalkIsSound(vTxid, vBits, vHash, h - 1, pos * 2 + 1, left.nBitsUsed, left.nHashUsed);
        FoundInChildren(vTxid, h, pos, left.found, Extracted(n, vBits, vHash, h - 1, pos * 2 + 1, left.nBitsUsed, left.nHashUsed).found);
      } else {
        FoundInChildren(vTxid, h, pos, left.found, []);
        assert left.found + [] == left.found;
      }
    }
  }

  // Part of a longer list.
  predicate Within<T(==)>(s: seq<T>, at: nat, part: seq<T>) { at + |part| <= |s| && s[at..at + |part|] == part }

  lemma WithinParts<T>(s: seq<T>, at: nat, a: seq<T>, b: seq<T>)
    requires Within(s, at, a + b)
    ensures Within(s, at, a) && Within(s, at + |a|, b)
  {
    assert s[at..at + |a|] == (a + b)[..|a|];
    assert s[at + |a|..at + |a| + |b|] == (a + b)[|a|..];
  }

  lemma WithinFirst<T>(s: seq<T>, at: nat, part: seq<T>)
    requires Within(s, at, part) && part != []
    ensures at < |s| && s[at] == part[0]
  {
    assert s[at..at + |part|][0] == part[0];
  }

  // The three ways a node is built.
  lemma BuiltCases(vTxid: seq<Digest>, vMatch: seq<bool>, h: nat, pos: nat)
    requires |vTxid| == |vMatch| && pos < Width(|vTxid|, h) && Hi(|vTxid|, h, pos) <= |vTxid|
    ensures var n := |vTxid|; var b := Built(vTxid, vMatch, h, pos);
            if h == 0 || !AnyMatch(vMatch, Lo(h, pos), Hi(n, h, pos)) then
              b == Part([AnyMatch(vMatch, Lo(h, pos), Hi(n, h, pos))], [CalcHash(vTxid, h, pos)])
            else
              && 2 * pos < Width(n, h - 1)
              && var left := Built(vTxid, vMatch, h - 1, pos * 2);
                 var right := if pos * 2 + 1 < Width(n, h - 1) then Built(vTxid, vMatch, h - 1, pos * 2 + 1) else Part([], []);
                 b == Part([true] + (left.bits + right.bits), left.hashes + right.hashes)
  {
    ChildLeaves(|vTxid|, h, pos);
    if h > 0 {
      var left := Built(vTxid, vMatch, h - 1, pos * 2);
      assert left.bits + [] == left.bits && left.hashes + [] == left.hashes;
      if pos * 2 + 1 < Width(|vTxid|, h - 1) {
        var right := Built(vTxid, vMatch, h - 1, pos * 2 + 1);
        assert [true] + left.bits + right.bits == [true] + (left.bits + right.bits);
      }
    }
  }

  // The walk of a node that is not descended into.
  lemma {:induction false} WalkLeaf(vTxid: seq<Digest>, vMatch: seq<bool>, vBits: seq<bool>, vHash: seq<Digest>, h: nat, pos: nat, nb: nat, nh: nat)
    requires |vTxid| == |vMatch| && pos < Width(|vTxid|, h) && Hi(|vTxid|, h, pos) <= |vTxid|
    requires h == 0 || !AnyMatch(vMatch, Lo(h, pos), Hi(|vTxid|, h, pos))
    requires var b := Built(vTxid, vMatch, h, pos); Within(vBits, nb, b.bits) && Within(vHash, nh, b.hashes)
    ensures Extracted(|vTxid|, vBits, vHash, h, pos, nb, nh) ==
            Walk(CalcHash(vTxid, h, pos), nb + 1, nh + 1, Chosen(vTxid, vMatch, Lo(h, pos), Hi(|vTxid|, h, pos)), false)
  {
    var lo, hi := Lo(h, pos), Hi(|vTxid|, h, pos);
    var b := Built(vTxid, vMatch, h, pos);
    BuiltCases(vTxid, vMatch, h, pos);
    ChildLeaves(|vTxid|, h, pos);
    WithinFirst(vBits, nb, b.bits);
    WithinFirst(vHash, nh, b.hashes);
    ChosenNone(vTxid, vMatch, lo, hi);
    hide Lo, Hi, Width, Built, Within, CalcHash;
    if h == 0 {
      assert CalcHash(vTxid, h, pos) == vTxid[pos] by { HashLeaf(vTxid, pos); }
      assert AnyMatch(vMatch, lo, hi) <==> vMatch[pos];
    }
  }

  // Walking what was built uses all of it and finds the matched transactions and the hash of the node.
  lemma {:induction false} WalkIsComplete(vTxid: seq<Digest>, vMatch: seq<bool>, vBits: seq<bool>, vHash: seq<Digest>,
                                          h: nat, pos: nat, nb: nat, nh: nat)
    requires |vTxid| == |vMatch| && pos < Width(|vTxid|, h) && Hi(|vTxid|, h, pos) <= |vTxid|
    requires var b := Built(vTxid, vMatch, h, pos); Within(vBits, nb, b.bits) && Within(vHash, nh, b.hashes)
    ensures var b := Built(vTxid, vMatch, h, pos);
            Extracted(|vTxid|, vBits, vHash, h, pos, nb, nh) ==
            Walk(CalcHash(vTxid, h, pos), nb + |b.bits|, nh + |b.hashes|,
                 Chosen(vTxid, vMatch, Lo(h, pos), Hi(|vTxid|, h, pos)), false)
    decreases h
  {
    hide Lo, Hi, Width, Chosen, Built, Within, Extracted, CalcHash, AnyMatch;
    var n, lo, hi := |vTxid|, Lo(h, pos), Hi(|vTxid|, h, pos);
    BuiltCases(vTxid, vMatch, h, pos);
    if h == 0 || !AnyMatch(vMatch, lo, hi) {
      WalkLeaf(vTxid, vMatch, vBits, vHash, h, pos, nb, nh);
    } else {
      ChildLeaves(n, h, pos);
      WithinFirst(vBits, nb, Built(vTxid, vMatch, h, pos).bits);
      WalkPair(n, vBits, vHash, h, pos, nb, nh);
      HashPair(vTxid, h, pos);
      var left := Built(vTxid, vMatch, h - 1, pos * 2);
      var right := if pos * 2 + 1 < Width(n, h - 1) then Built(vTxid, vMatch, h - 1, pos * 2 + 1) else Part([], []);
      WithinParts(vBits, nb, [true], left.bits + right.bits);
      WithinParts(vBits, nb + 1, left.bits, right.bits);
      WithinParts(vHash, nh, left.hashes, right.hashes);
      ChildLeaves(n, h - 1, 2 * pos);
      WalkIsComplete(vTxid, vMatch, vBits, vHash, h - 1, pos * 2, nb + 1, nh);
      if pos * 2 + 1 < Width(n, h - 1) {
        ChildLeaves(n, h - 1, 2 * pos + 1);
        WalkIsComplete(vTxid, vMatch, vBits, vHash, h - 1, pos * 2 + 1, nb + 1 + |left.bits|, nh + |left.hashes|);
        ChosenSplit(vTxid, vMatch, lo, Hi(n, h - 1, 2 * pos), hi);
      }
    }
  }

  // ---------- the class ----------

  function Outcome(n: nat, vBits: seq<bool>, vHash: seq<Digest>): Walk {
    Extracted(n, vBits, vHash, TreeHeight(n), 0, 0, 0)
  }

  // What extraction demands of a tree before it walks it, and after.
  predicate Plausible(n: nat, vBits: seq<bool>, vHash: seq<Digest>) {
    0 < n <= MAX_TRANSACTIONS && |vHash| <= n && |vHash| <= |vBits|
  }

  predicate AllUsed(w: Walk, vBits: seq<bool>, vHash: seq<Digest>) {
    !w.bad && (w.nBitsUsed + 7) / 8 == (|vBits| + 7) / 8 && w.nHashUsed == |vHash|
  }

  // ---------- bits and bytes ----------

  function Unpacked(vBytes: seq<bv8>): (r: seq<bool>)
    ensures |r| == |vBytes| * 8
  {
    seq(|vBytes| * 8, p requires 0 <= p < |vBytes| * 8 => vBytes[p / 8] & Mask(p % 8) != 0)
  }

  predicate Bit(vBytes: seq<bv8>, p: nat)
    requires p < |vBytes| * 8
  {
    vBytes[p / 8] & Mask(p % 8) != 0
  }

  lemma NextBit(vBytes: seq<bv8>, p: nat)
    requires p < |vBytes| * 8
    ensures Unpacked(vBytes)[..p + 1] == Unpacked(vBytes)[..p] + [vBytes[p / 8] & Mask(p % 8) != 0]
  {
    assert Unpacked(vBytes)[p] == (vBytes[p / 8] & Mask(p % 8) != 0);
  }

  lemma SetOneBit(vBytes: seq<bv8>, p: nat, v: bool, q: nat)
    requires p < |vBytes| * 8 && q < |vBytes| * 8
    ensures Bit(vBytes[p / 8 := vBytes[p / 8] | (if v then Mask(p % 8) else 0)], q) == ((q == p && v) || Bit(vBytes, q))
  {
    if v && p / 8 == q / 8 { OrMask(vBytes[p / 8], p % 8, q % 8); }
    if !v { OrNothing(vBytes[p / 8]); }
  }

  // ---------- what extraction returns ----------

  // The root and the matches, which are only to be trusted if the root is right; 0 stands for failure.
  function Result(n: nat, vBits: seq<bool>, vHash: seq<Digest>, fBad: bool): (Digest, seq<Digest>) {
    if !Plausible(n, vBits, vHash) then (Zero, [])
    else
      var w := Outcome(n, vBits, vHash);
      (if !fBad && AllUsed(w, vBits, vHash) then w.hash else Zero, w.found)
  }

  // A root that is right proves the matches, whoever made the tree.
  lemma {:induction false} ExtractIsSound(vTxid: seq<Digest>, vBits: seq<bool>, vHash: seq<Digest>, fBad: bool)
    requires vTxid != [] && Result(|vTxid|, vBits, vHash, fBad).0 == Root(vTxid) != Zero
    ensures Subsequence(Result(|vTxid|, vBits, vHash, fBad).1, vTxid)
  {
    var h := TreeHeight(|vTxid|);
    RootInLevel(|vTxid|);
    WalkIsSound(vTxid, vBits, vHash, h, 0, 0, 0);
    RootLeaves(|vTxid|);
    assert vTxid[0..|vTxid|] == vTxid;
  }

  // A walk that does not fail takes no notice of what comes after the bits and hashes it uses.
  lemma {:induction false} WalkIgnoresRest(n: nat, vBits: seq<bool>, vHash: seq<Digest>, bits: seq<bool>, hashes: seq<Digest>,
                                           h: nat, pos: nat, nb: nat, nh: nat)
    requires !Extracted(n, vBits, vHash, h, pos, nb, nh).bad
    ensures Extracted(n, vBits + bits, vHash + hashes, h, pos, nb, nh) == Extracted(n, vBits, vHash, h, pos, nb, nh)
    decreases h
  {
    if h > 0 && nb < |vBits| && vBits[nb] {
      WalkPair(n, vBits, vHash, h, pos, nb, nh);
      WalkPair(n, vBits + bits, vHash + hashes, h, pos, nb, nh);
      hide Extracted, Width;
      var left := Extracted(n, vBits, vHash, h - 1, pos * 2, nb + 1, nh);
      WalkIgnoresRest(n, vBits, vHash, bits, hashes, h - 1, pos * 2, nb + 1, nh);
      if pos * 2 + 1 < Width(n, h - 1) {
        WalkIgnoresRest(n, vBits, vHash, bits, hashes, h - 1, pos * 2 + 1, left.nBitsUsed, left.nHashUsed);
      }
    }
  }

  // A tree that is accepted is so with exactly its hashes and its bytes of bits: with a hash more, or with bits that
  // take another byte, it has the root 0. The same goes for hashes or bytes taken away from one that is accepted.
  lemma SurplusIsRefused(n: nat, vBits: seq<bool>, vHash: seq<Digest>, bits: seq<bool>, hashes: seq<Digest>, fBad: bool)
    requires Result(n, vBits, vHash, false).0 != Zero
    requires hashes != [] || (|vBits| + |bits| + 7) / 8 != (|vBits| + 7) / 8
    ensures Result(n, vBits + bits, vHash + hashes, fBad).0 == Zero
  {
    hide Extracted, TreeHeight;
    WalkIgnoresRest(n, vBits, vHash, bits, hashes, TreeHeight(n), 0, 0, 0);
  }

  // And nothing is extracted from a tree of no transactions, of more than fit a block of a million bytes at 60 bytes
  // each, or with more hashes than transactions or bits.
  lemma ImplausibleIsRefused(n: nat, vBits: seq<bool>, vHash: seq<Digest>, fBad: bool)
    requires n == 0 || n > 16_666 || |vHash| > n || |vHash| > |vBits|
    ensures Result(n, vBits, vHash, fBad) == (Zero, [])
  {}

  // The root has all transactions below it.
  lemma RootLeaves(n: nat)
    requires n > 0
    ensures Lo(TreeHeight(n), 0) == 0 && Hi(n, TreeHeight(n), 0) == n
  {
    RootInLevel(n);
    WidthMeans(n, TreeHeight(n), 1);
  }

  // ---------- without the true number of transactions ----------

  // x is d, or one of the digests d was hashed from.
  ghost predicate Inside(x: Digest, d: Digest) {
    x == d || (d.Pair? && (Inside(x, d.left) || Inside(x, d.right)))
  }

  lemma {:induction false} FoundInside(n: nat, vBits: seq<bool>, vHash: seq<Digest>, h: nat, pos: nat, nb: nat, nh: nat, x: Digest)
    requires var w := Extracted(n, vBits, vHash, h, pos, nb, nh); !w.bad && x in w.found
    ensures Inside(x, Extracted(n, vBits, vHash, h, pos, nb, nh).hash)
    decreases h
  {
    if h > 0 && nb < |vBits| && vBits[nb] {
      WalkPair(n, vBits, vHash, h, pos, nb, nh);
      hide Extracted, Width;
      var left := Extracted(n, vBits, vHash, h - 1, pos * 2, nb + 1, nh);
      if x in left.found {
        FoundInside(n, vBits, vHash, h - 1, pos * 2, nb + 1, nh, x);
      } else {
        FoundInside(n, vBits, vHash, h - 1, pos * 2 + 1, left.nBitsUsed, left.nHashUsed, x);
      }
    }
  }

  lemma {:induction false} InsideIsLeaf(vTxid: seq<Digest>, h: nat, pos: nat, x: Digest)
    requires pos < Width(|vTxid|, h) && Inside(x, CalcHash(vTxid, h, pos)) && !x.Pair?
    requires forall t :: t in vTxid ==> !t.Pair?
    ensures x in vTxid
    decreases h
  {
    if h == 0 {
      HashLeaf(vTxid, pos);
    } else {
      HashPair(vTxid, h, pos);
      hide CalcHash, Width;
      if Inside(x, CalcHash(vTxid, h - 1, pos * 2)) {
        InsideIsLeaf(vTxid, h - 1, pos * 2, x);
      } else {
        InsideIsLeaf(vTxid, h - 1, pos * 2 + 1, x);
      }
    }
  }

  // A right root for a wrong number of transactions: a match is a transaction of the block exactly if it is
  // not the hash of two others.
  lemma {:induction false} GenuineIff(vTxid: seq<Digest>, n: nat, vBits: seq<bool>, vHash: seq<Digest>, fBad: bool, x: Digest)
    requires vTxid != [] && Result(n, vBits, vHash, fBad).0 == Root(vTxid) != Zero && x in Result(n, vBits, vHash, fBad).1
    requires forall t :: t in vTxid ==> !t.Pair?
    ensures x in vTxid <==> !x.Pair?
  {
    RootInLevel(|vTxid|);
    hide Extracted, CalcHash, Width, Inside;
    if !x.Pair? {
      FoundInside(n, vBits, vHash, TreeHeight(n), 0, 0, 0, x);
      InsideIsLeaf(vTxid, TreeHeight(|vTxid|), 0, x);
    }
  }

  lemma WidthsOfTwo()
    ensures Width(2, 0) == 2 && Width(2, 1) == 1 && TreeHeight(2) == 1
  {
    hide TreeHeight;
    assert Pow2(0) == 1 && Pow2(1) == 2;
    HeightUnique(2, 1);
  }

  lemma RootOfTwo(vTxid: seq<Digest>)
    requires |vTxid| == 2
    ensures Root(vTxid) == Pair(vTxid[0], vTxid[1])
  {
    hide CalcHash, Width, TreeHeight, Pow2;
    WidthsOfTwo();
    HashPair(vTxid, 1, 0);
    HashLeaf(vTxid, 0);
    HashLeaf(vTxid, 1);
  }

  // The walk over a tree of one transaction.
  lemma OneLeaf(vBits: seq<bool>, x: Digest)
    requires vBits != [] && vBits[0]
    ensures Outcome(1, vBits, [x]) == Walk(x, 1, 1, [x], false)
  {
    assert Width(1, 0) == 1 && TreeHeight(1) == 0;
    hide TreeHeight, Width;
  }

  // And such matches there are: two transactions, and a proof that there is one.
  lemma InnerNodeIsFound(a: Digest, b: Digest)
    requires !a.Pair? && !b.Pair?
    ensures var vBits := [true, false, false, false, false, false, false, false];
            Result(1, vBits, [Pair(a, b)], false) == (Root([a, b]), [Pair(a, b)])
  {
    RootOfTwo([a, b]);
    OneLeaf([true, false, false, false, false, false, false, false], Pair(a, b));
    hide Root, Outcome, Extracted, CalcHash, TreeHeight, Width;
  }

  // A block whose root is 0 cannot be told from a failure: the one exception to soundness.
  lemma ZeroRootProvesNothing()
    ensures exists vTxid, vBits, vHash ::
              && vTxid != [] && Result(|vTxid|, vBits, vHash, false).0 == Root(vTxid)
              && !Subsequence(Result(|vTxid|, vBits, vHash, false).1, vTxid)
  {
    var vTxid := [Zero];
    var other := Digest.Digest(1);
    var vBits := [true, false, false, false, false, false, false, false, false];
    assert Width(1, 0) == 1;
    assert TreeHeight(1) == 0;
    var w := Outcome(1, vBits, [other]);
    assert w == Walk(other, 1, 1, [other], false);
    assert Root(vTxid) == Zero;
    assert [Zero][..0] == [];
    assert !Subsequence([other], vTxid);
    assert Result(|vTxid|, vBits, [other], false) == (Zero, [other]);
  }

  // Bits as built, padded to whole bytes, and the hashes as built: everything is used and found.
  lemma BuiltIsExtracted(vTxid: seq<Digest>, vMatch: seq<bool>, vBits: seq<bool>, vHash: seq<Digest>)
    requires |vTxid| == |vMatch| && 0 < |vTxid| <= 16_666 && 0 < Width(|vTxid|, TreeHeight(|vTxid|))
    requires var b := Built(vTxid, vMatch, TreeHeight(|vTxid|), 0);
             && vHash == b.hashes && |vBits| == (|b.bits| + 7) / 8 * 8 && b.bits == vBits[..|b.bits|]
    ensures Result(|vTxid|, vBits, vHash, false) == (Root(vTxid), Chosen(vTxid, vMatch, 0, |vTxid|))
    ensures |vHash| <= 1 + |Chosen(vTxid, vMatch, 0, |vTxid|)| * TreeHeight(|vTxid|)
  {
    var n := |vTxid|;
    var h := TreeHeight(n);
    var b := Built(vTxid, vMatch, h, 0);
    RootLeaves(n);
    BuiltSize(vTxid, vMatch, h, 0);
    BuiltBound(vTxid, vMatch, h, 0);
    hide Built, Lo, Hi, TreeHeight, Width, CalcHash, Extracted;
    assert vBits[0..|b.bits|] == b.bits && vHash[0..|b.hashes|] == b.hashes;
    WalkIsComplete(vTxid, vMatch, vBits, vHash, h, 0, 0, 0);
  }

  lemma Regroup<T>(a: seq<T>, b: seq<T>, c: seq<T>, d: seq<T>)
    ensures ((a + b) + c) + d == a + (b + (c + d)) && a + [] == a && [] + (c + d) == c + d && c + [] == c
  {}

  // Whether any leaf of the node is matched.
  method IsParentOfMatch(nTransactions: nat, vMatch: seq<bool>, height: nat, pos: nat) returns (fParentOfMatch: bool)
    requires |vMatch| == nTransactions && Lo(height, pos) <= Hi(nTransactions, height, pos) <= nTransactions
    ensures fParentOfMatch <==> AnyMatch(vMatch, Lo(height, pos), Hi(nTransactions, height, pos))
  {
    fParentOfMatch := false;
    var p, last := pos * Pow2(height), (pos + 1) * Pow2(height);
    while p < last && p < nTransactions
      invariant Lo(height, pos) <= p <= Hi(nTransactions, height, pos)
      invariant fParentOfMatch <==> AnyMatch(vMatch, Lo(height, pos), p)
    {
      assert AnyMatch(vMatch, Lo(height, pos), p + 1) <==> AnyMatch(vMatch, Lo(height, pos), p) || vMatch[p];
      fParentOfMatch := fParentOfMatch || vMatch[p];
      p := p + 1;
    }
  }

  class PartialMerkleTree {
    var nTransactions: nat
    var vBits: seq<bool>
    var vHash: seq<Digest>
    var fBad: bool

    constructor (vTxid: seq<Digest>, vMatch: seq<bool>)
      requires |vTxid| == |vMatch| > 0
      ensures nTransactions == |vTxid| && !fBad && 0 < Width(|vTxid|, TreeHeight(|vTxid|))
      ensures Part(vBits, vHash) == Built(vTxid, vMatch, TreeHeight(|vTxid|), 0)
    {
      nTransactions, vBits, vHash, fBad := |vTxid|, [], [], false;
      new;
      RootInLevel(|vTxid|);
      var nHeight := Height();
      TraverseAndBuild(nHeight, 0, vTxid, vMatch);
    }

    // What reading a tree from its serialization leaves.
    constructor FromBytes(nTransactions: nat, vHash: seq<Digest>, vBytes: seq<bv8>)
      ensures this.nTransactions == nTransactions && this.vHash == vHash && !fBad
      ensures vBits == Unpacked(vBytes)
    {
      this.nTransactions, this.vHash, fBad := nTransactions, vHash, false;
      var bits: seq<bool> := [];
      var p := 0;
      while p < |vBytes| * 8
        invariant 0 <= p <= |vBytes| * 8 && bits == Unpacked(vBytes)[..p]
      {
        NextBit(vBytes, p);
        bits := bits + [vBytes[p / 8] & Mask(p % 8) != 0];
        p := p + 1;
      }
      assert Unpacked(vBytes)[..p] == Unpacked(vBytes);
      vBits := bits;
    }

    method Height() returns (nHeight: nat)
      ensures nHeight == TreeHeight(nTransactions)
    {
      nHeight := 0;
      while Width(nTransactions, nHeight) > 1
        invariant forall k :: 0 <= k < nHeight ==> Width(nTransactions, k) > 1
        decreases Width(nTransactions, nHeight)
      {
        HalfWidth(nTransactions, nHeight);
        nHeight := nHeight + 1;
      }
      HeightUnique(nTransactions, nHeight);
    }

    method TraverseAndBuild(height: nat, pos: nat, vTxid: seq<Digest>, vMatch: seq<bool>)
      requires nTransactions == |vTxid| == |vMatch| && pos < Width(nTransactions, height)
      modifies this`vBits, this`vHash
      ensures vBits == old(vBits) + Built(vTxid, vMatch, height, pos).bits
      ensures vHash == old(vHash) + Built(vTxid, vMatch, height, pos).hashes
      decreases height, 1
    {
      ChildLeaves(nTransactions, height, pos);
      var fParentOfMatch := IsParentOfMatch(nTransactions, vMatch, height, pos);
      BuiltCases(vTxid, vMatch, height, pos);
      hide Built, AnyMatch, Lo, Hi, CalcHash, Width, Pow2;
      vBits := vBits + [fParentOfMatch];
      if height == 0 || !fParentOfMatch {
        vHash := vHash + [CalcHash(vTxid, height, pos)];
      } else {
        ghost var below := BuildChildren(height - 1, pos * 2, vTxid, vMatch);
        Regroup(old(vBits), [true], below.bits, []);
      }
    }

    method BuildChildren(height: nat, pos: nat, vTxid: seq<Digest>, vMatch: seq<bool>) returns (ghost below: Part)
      requires nTransactions == |vTxid| == |vMatch| && pos < Width(nTransactions, height)
      modifies this`vBits, this`vHash
      ensures var left := Built(vTxid, vMatch, height, pos);
              var right := if pos + 1 < Width(nTransactions, height) then Built(vTxid, vMatch, height, pos + 1) else Part([], []);
              below == Part(left.bits + right.bits, left.hashes + right.hashes)
      ensures vBits == old(vBits) + below.bits && vHash == old(vHash) + below.hashes
      decreases height + 1, 0
    {
      hide Built, Width, Pow2;
      ghost var left := Built(vTxid, vMatch, height, pos);
      ghost var right := Part([], []);
      TraverseAndBuild(height, pos, vTxid, vMatch);
      if pos + 1 < Width(nTransactions, height) {
        right := Built(vTxid, vMatch, height, pos + 1);
        TraverseAndBuild(height, pos + 1, vTxid, vMatch);
      }
      below := Part(left.bits + right.bits, left.hashes + right.hashes);
      Regroup(old(vBits), left.bits, right.bits, []);
      Regroup(old(vHash), left.hashes, right.hashes, []);
    }

    // A walk that runs out of bits or hashes marks the tree bad and goes on with the hash 0.
    method TraverseAndExtract(height: nat, pos: nat, bitsUsed: nat, hashUsed: nat)
      returns (hash: Digest, nBitsUsed: nat, nHashUsed: nat, vMatch: seq<Digest>)
      modifies this`fBad
      ensures var w := Extracted(nTransactions, vBits, vHash, height, pos, bitsUsed, hashUsed);
              && hash == w.hash && nBitsUsed == w.nBitsUsed && nHashUsed == w.nHashUsed && vMatch == w.found
              && fBad == (old(fBad) || w.bad)
      decreases height
    {
      nBitsUsed, nHashUsed, vMatch := bitsUsed, hashUsed, [];
      if nBitsUsed >= |vBits| {
        fBad := true;
        return Zero, nBitsUsed, nHashUsed, vMatch;
      }
      var fParentOfMatch := vBits[nBitsUsed];
      nBitsUsed := nBitsUsed + 1;
      if height == 0 || !fParentOfMatch {
        if nHashUsed >= |vHash| {
          fBad := true;
          return Zero, nBitsUsed, nHashUsed, vMatch;
        }
        hash := vHash[nHashUsed];
        nHashUsed := nHashUsed + 1;
        if height == 0 && fParentOfMatch { vMatch := [hash]; }
      } else {
        WalkPair(nTransactions, vBits, vHash, height, pos, bitsUsed, hashUsed);
        hide Extracted;
        var left, right, found;
        left, nBitsUsed, nHashUsed, vMatch := TraverseAndExtract(height - 1, pos * 2, nBitsUsed, nHashUsed);
        if pos * 2 + 1 < Width(nTransactions, height - 1) {
          right, nBitsUsed, nHashUsed, found := TraverseAndExtract(height - 1, pos * 2 + 1, nBitsUsed, nHashUsed);
          vMatch := vMatch + found;
        } else {
          right := left;
        }
        hash := Pair(left, right);
      }
    }

    method ExtractMatches() returns (root: Digest, vMatch: seq<Digest>)
      modifies this`fBad
      ensures (root, vMatch) == Result(nTransactions, vBits, vHash, old(fBad))
      ensures forall vTxid :: |vTxid| == nTransactions > 0 && root == Root(vTxid) && root != Zero ==> Subsequence(vMatch, vTxid)
    {
      forall vTxid | |vTxid| == nTransactions > 0 && Result(nTransactions, vBits, vHash, fBad).0 == Root(vTxid) && Root(vTxid) != Zero
        ensures Subsequence(Result(nTransactions, vBits, vHash, fBad).1, vTxid)
      {
        ExtractIsSound(vTxid, vBits, vHash, fBad);
      }
      vMatch := [];
      if nTransactions == 0 { return Zero, vMatch; }
      if nTransactions > MAX_BLOCK_SIZE / 60 { return Zero, vMatch; }
      if |vHash| > nTransactions { return Zero, vMatch; }
      if |vBits| < |vHash| { return Zero, vMatch; }
      var nHeight := Height();
      var hashMerkleRoot, nBitsUsed, nHashUsed;
      hashMerkleRoot, nBitsUsed, nHashUsed, vMatch := TraverseAndExtract(nHeight, 0, 0, 0);
      if fBad { return Zero, vMatch; }
      if (nBitsUsed + 7) / 8 != (|vBits| + 7) / 8 { return Zero, vMatch; }
      if nHashUsed != |vHash| { return Zero, vMatch; }
      return hashMerkleRoot, vMatch;
    }

    method ToBytes() returns (vBytes: seq<bv8>)
      ensures |vBytes| == (|vBits| + 7) / 8
      ensures forall p :: 0 <= p < |vBits| ==> Unpacked(vBytes)[p] == vBits[p]
    {
      vBytes := seq((|vBits| + 7) / 8, _ => 0);
      var p := 0;
      while p < |vBits|
        invariant 0 <= p <= |vBits| && |vBytes| == (|vBits| + 7) / 8
        invariant forall q :: 0 <= q < |vBytes| * 8 ==> Bit(vBytes, q) == (q < p && vBits[q])
      {
        ghost var before := vBytes;
        vBytes := vBytes[p / 8 := vBytes[p / 8] | (if vBits[p] then Mask(p % 8) else 0)];
        forall q | 0 <= q < |vBytes| * 8 ensures Bit(vBytes, q) == ((q == p && vBits[p]) || Bit(before, q)) {
          SetOneBit(before, p, vBits[p], q);
        }
        p := p + 1;
      }
    }
  }

  // Building a tree, writing it, reading it back and extracting gives the root and the matched transactions.
  method Transmit(vTxid: seq<Digest>, vMatch: seq<bool>) returns (root: Digest, found: seq<Digest>, nHashes: nat)
    requires |vTxid| == |vMatch| && 0 < |vTxid| <= 16_666
    ensures root == Root(vTxid) && found == Chosen(vTxid, vMatch, 0, |vTxid|)
    ensures nHashes <= 1 + |found| * TreeHeight(|vTxid|)
  {
    var tree := new PartialMerkleTree(vTxid, vMatch);
    var vBytes := tree.ToBytes();
    var received := new PartialMerkleTree.FromBytes(tree.nTransactions, tree.vHash, vBytes);
    BuiltIsExtracted(vTxid, vMatch, received.vBits, received.vHash);
    hide Built, Result;
    root, found := received.ExtractMatches();
    nHashes := |tree.vHash|;
  }
}
