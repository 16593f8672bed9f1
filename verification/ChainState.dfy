/** The node's best chain: SetBestChain, the pnext links and FindBlockByHeight. */
module ChainState {
  import opened Basics
  import opened Ledger
  import opened Blocks
  import opened Versions
  import opened CoinsView
  import opened Connecting
  import opened BlockTree

  ghost predicate TreeOk(g: Hash, index: set<BlockIndex>) {
    && (forall b :: b in index ==> InTree(g, b) && (b.pprev != null ==> b.pprev in index))
    && (forall b, c :: b in index && c in index && b.block.hash == c.block.hash ==> b == c)
  }

  // Undo data and money supply, wherever a block of the index has been connected at some time.
  ghost predicate StoredOk(r: Rules, g: Hash, index: set<BlockIndex>)
    requires TreeOk(g, index)
    reads index`undo, index`mapMoneySupply
  {
    forall b :: b in index ==> EntryOk(r, g, b)
  }

  ghost predicate EntryOk(r: Rules, g: Hash, b: BlockIndex)
    requires InTree(g, b)
    reads b`undo, b`mapMoneySupply
  {
    && (b.undo.Some? ==> b.pprev != null && Replay(r, g, b).Some? && b.undo.value == StoredBlockUndo(Step(r, g, b).vtxundo)
                         && forall c :: IsValidUnit(c) ==> Amount(b.mapMoneySupply, c) == Supply(r, g, b, c))
    && (b.pprev == null ==> b.mapMoneySupply == map[])
  }

  // Every block of the chain ending in tip, above genesis, has its undo data.
  ghost predicate ChainConnected(g: Hash, index: set<BlockIndex>, tip: BlockIndex?)
    requires TreeOk(g, index) && (tip != null ==> tip in index)
    reads index`undo
  {
    forall b :: b in index && OnChain(g, b, tip) && b.pprev != null ==> b.undo.Some?
  }

  ghost predicate LinksOk(g: Hash, index: set<BlockIndex>, tip: BlockIndex?)
    requires TreeOk(g, index) && (tip != null ==> tip in index)
    reads index`pnext
  {
    forall b :: b in index ==> b.pnext == Next(g, tip, b)
  }

  // A view that is at tip and holds what replaying the chain to tip gives, but for versions.
  ghost predicate TipAt(r: Rules, g: Hash, view: CoinsViewCache, tip: BlockIndex?)
    requires view.Layered() && (tip != null ==> InTree(g, tip))
    reads view.Repr`cacheCoins, view.Repr`pindexTip, view.db`coins, view.db`best
  {
    view.Ok() && view.Best() == tip && Replay(r, g, tip).Some? && Faded(view.Coins(), Replay(r, g, tip).value)
  }

  // The same, for a view that has its best block at hand.
  ghost predicate ViewAt(r: Rules, g: Hash, view: CoinsViewCache, tip: BlockIndex?)
    requires view.Layered() && (tip != null ==> InTree(g, tip))
    reads view`pindexTip, view.Repr`cacheCoins, view.Repr`pindexTip, view.db`coins, view.db`best
  {
    TipAt(r, g, view, tip) && view.pindexTip == tip
  }

  lemma AncestorInIndex(g: Hash, index: set<BlockIndex>, b: BlockIndex?, h: int)
    requires TreeOk(g, index) && (b != null ==> b in index) && h <= Height(b)
    ensures var a := Ancestor(g, b, h); a != null ==> a in index
    decreases Height(b) + 1
  {
    if h >= 0 && b.nHeight != h { AncestorInIndex(g, index, b.pprev, h); }
  }

  // Above height k the chains of a and b have nothing in common.
  ghost predicate ApartAbove(g: Hash, a: BlockIndex?, b: BlockIndex?, k: int)
    requires (a != null ==> InTree(g, a)) && (b != null ==> InTree(g, b))
  {
    forall h :: k < h <= Height(a) && h <= Height(b) ==> Ancestor(g, a, h) != Ancestor(g, b, h)
  }

  lemma ParentOnChain(g: Hash, x: BlockIndex, b: BlockIndex?)
    requires (b != null ==> InTree(g, b)) && OnChain(g, x, b)
    ensures InTree(g, x) && OnChain(g, x.pprev, b) && Height(x.pprev) == x.nHeight - 1
  {
    AncestorHeight(g, b, x.nHeight);
  }

  // Stepping back from the higher of two different blocks keeps what is known of the fork.
  lemma ApartStep(g: Hash, a: BlockIndex?, b: BlockIndex, x: BlockIndex, y: BlockIndex)
    requires (a != null ==> InTree(g, a)) && InTree(g, b)
    requires OnChain(g, x, a) && OnChain(g, y, b) && x != y && y.nHeight <= x.nHeight
    requires ApartAbove(g, a, b, y.nHeight)
    ensures ApartAbove(g, a, b, if x.nHeight - 1 < y.nHeight then x.nHeight - 1 else y.nHeight)
  {}

  // The inner loop: from plonger down to height h.
  method StepBack(g: Hash, ghost pindexNew: BlockIndex, plonger: BlockIndex, h: nat) returns (r: BlockIndex)
    requires InTree(g, pindexNew) && OnChain(g, plonger, pindexNew)
    ensures OnChain(g, r, pindexNew) && r.nHeight == if plonger.nHeight > h then h else plonger.nHeight
  {
    r := plonger;
    while r.nHeight > h
      invariant OnChain(g, r, pindexNew) && (r.nHeight >= h || r == plonger)
      decreases r.nHeight
    {
      ParentOnChain(g, r, pindexNew);
      r := r.pprev;
    }
  }

  lemma SameGenesis(g: Hash, index: set<BlockIndex>, a: BlockIndex, b: BlockIndex)
    requires TreeOk(g, index) && a in index && b in index
    ensures Ancestor(g, a, 0) == Ancestor(g, b, 0)
  {
    AncestorInIndex(g, index, a, 0);
    AncestorInIndex(g, index, b, 0);
    AncestorHeight(g, a, 0);
    AncestorHeight(g, b, 0);
  }

  // The loop that finds the fork: the highest block that both chains contain.
  method FindFork(g: Hash, ghost index: set<BlockIndex>, best: BlockIndex?, pindexNew: BlockIndex)
      returns (pfork: BlockIndex?)
    requires TreeOk(g, index) && pindexNew in index && (best != null ==> best in index)
    ensures (pfork != null ==> pfork in index) && OnChain(g, pfork, best) && OnChain(g, pfork, pindexNew)
    ensures ApartAbove(g, best, pindexNew, Height(pfork)) && (pfork == null ==> best == null)
  {
    pfork := best;
    var plonger := pindexNew;
    while pfork != null && pfork != plonger
      invariant OnChain(g, pfork, best) && OnChain(g, plonger, pindexNew)
      invariant pfork == null ==> best == null
      invariant ApartAbove(g, best, pindexNew, if Height(pfork) < plonger.nHeight then Height(pfork) else plonger.nHeight)
      decreases Height(pfork) + 1
    {
      plonger := StepBack(g, pindexNew, plonger, pfork.nHeight);
      if pfork == plonger { break; }
      ParentOnChain(g, pfork, best);
      if pfork.pprev == null {
        SameGenesis(g, index, best, pindexNew);
        assert false;
      }
      ApartStep(g, best, pindexNew, pfork, plonger);
      pfork := pfork.pprev;
    }
    AncestorInIndex(g, index, best, Height(pfork));
  }

  // ApartAbove says that the fork is the lowest common ancestor.
  lemma ForkIsLowest(g: Hash, a: BlockIndex?, b: BlockIndex?, pfork: BlockIndex?, x: BlockIndex)
    requires (a != null ==> InTree(g, a)) && (b != null ==> InTree(g, b))
    requires ApartAbove(g, a, b, Height(pfork))
    requires OnChain(g, x, a) && OnChain(g, x, b)
    ensures x.nHeight <= Height(pfork)
  {
    assert Ancestor(g, a, x.nHeight) == x == Ancestor(g, b, x.nHeight);
  }

  // The blocks from tip back to, but not including, fork; and the same in chain order.
  ghost predicate IsPathBack(g: Hash, tip: BlockIndex?, fork: BlockIndex?, v: seq<BlockIndex>)
    requires tip != null ==> InTree(g, tip)
  {
    && |v| == Height(tip) - Height(fork)
    && forall k :: 0 <= k < |v| ==> v[k] == Ancestor(g, tip, Height(tip) - k)
  }

  ghost predicate IsPath(g: Hash, tip: BlockIndex?, fork: BlockIndex?, v: seq<BlockIndex>)
    requires tip != null ==> InTree(g, tip)
  {
    && |v| == Height(tip) - Height(fork)
    && forall k :: 0 <= k < |v| ==> v[k] == Ancestor(g, tip, Height(fork) + 1 + k)
  }

  lemma PathBackAt(g: Hash, tip: BlockIndex?, fork: BlockIndex?, v: seq<BlockIndex>, k: nat, b: BlockIndex?)
    requires (tip != null ==> InTree(g, tip)) && IsPathBack(g, tip, fork, v) && k < |v|
    requires OnChain(g, b, tip) && Height(b) == Height(tip) - k
    ensures v[k] == b
  {}

  lemma PathAt(g: Hash, index: set<BlockIndex>, tip: BlockIndex, fork: BlockIndex?, v: seq<BlockIndex>, k: nat, b: BlockIndex?)
    requires TreeOk(g, index) && tip in index && IsPath(g, tip, fork, v) && k < |v|
    requires OnChain(g, b, tip) && Height(b) == Height(fork) + k
    ensures v[k] in index && v[k].pprev == b && v[k].nHeight == Height(b) + 1 && OnChain(g, v[k], tip)
  {
    AncestorInIndex(g, index, tip, Height(fork) + 1 + k);
    AncestorHeight(g, tip, Height(fork) + 1 + k);
  }

  method PathBack(g: Hash, tip: BlockIndex?, fork: BlockIndex?) returns (v: seq<BlockIndex>)
    requires (tip != null ==> InTree(g, tip)) && OnChain(g, fork, tip)
    ensures IsPathBack(g, tip, fork, v)
  {
    v := [];
    var pindex := tip;
    while pindex != fork
      invariant OnChain(g, pindex, tip) && Height(fork) <= Height(pindex)
      invariant |v| == Height(tip) - Height(pindex)
      invariant forall k :: 0 <= k < |v| ==> v[k] == Ancestor(g, tip, Height(tip) - k)
      decreases Height(pindex) + 1
    {
      if pindex == null { assert false; }
      ParentOnChain(g, pindex, tip);
      v := v + [pindex];
      pindex := pindex.pprev;
    }
  }

  function Reversed(v: seq<BlockIndex>): (r: seq<BlockIndex>)
    ensures |r| == |v| && forall k :: 0 <= k < |v| ==> r[k] == v[|v| - 1 - k]
  {
    if v == [] then [] else Reversed(v[1..]) + [v[0]]
  }

  lemma ReversedPath(g: Hash, tip: BlockIndex?, fork: BlockIndex?, v: seq<BlockIndex>)
    requires (tip != null ==> InTree(g, tip)) && IsPathBack(g, tip, fork, v)
    ensures IsPath(g, tip, fork, Reversed(v))
  {
    var w := Reversed(v);
    forall k | 0 <= k < |w| ensures w[k] == Ancestor(g, tip, Height(fork) + 1 + k) {
      var j := |v| - 1 - k;
      assert w[k] == v[j] && Height(tip) - j == Height(fork) + 1 + k;
    }
  }

  // Disconnecting the block the view is at.
  method DisconnectTip(r: Rules, g: Hash, b: BlockIndex, view: CoinsViewCache) returns (ok: bool)
    requires InTree(g, b) && b.pprev != null && EntryOk(r, g, b) && b.undo.Some? && Reversible(r, g, b)
    requires view.Layered() && ViewAt(r, g, view, b)
    modifies view.Repr`cacheCoins, view.Repr`pindexTip
    ensures ok && ViewAt(r, g, view, b.pprev) && view.Below() == old(view.Below())
  {
    StepUndone(r, g, b, view.Coins());
    ok := Connecting.DisconnectBlock(b, view);
  }

  // What is known of a block above the fork on the node's chain.
  lemma {:induction false} BranchEntry(r: Rules, g: Hash, index: set<BlockIndex>, best: BlockIndex?, fork: BlockIndex?, b: BlockIndex)
    requires TreeOk(g, index) && StoredOk(r, g, index) && (best != null ==> best in index)
    requires ChainConnected(g, index, best) && (fork == null ==> best == null)
    requires b in index && OnChain(g, b, best) && Height(fork) < b.nHeight
    ensures EntryOk(r, g, b) && b.pprev != null && b.undo.Some? && b.pprev in index
    ensures OnChain(g, b.pprev, best) && Height(b.pprev) == b.nHeight - 1
  {
    ParentOnChain(g, b, best);
  }

  // Disconnecting the branch the node is on never fails and leaves what replaying to the fork gives.
  method DisconnectBranch(r: Rules, g: Hash, ghost index: set<BlockIndex>, view: CoinsViewCache,
                          ghost best: BlockIndex?, ghost fork: BlockIndex?, vDisconnect: seq<BlockIndex>)
      returns (ok: bool)
    requires TreeOk(g, index) && StoredOk(r, g, index) && (best != null ==> best in index)
    requires forall b :: b in index ==> Reversible(r, g, b)
    requires view.Layered() && ViewAt(r, g, view, best) && ChainConnected(g, index, best)
    requires (fork != null ==> fork in index) && (fork == null ==> best == null)
    requires OnChain(g, fork, best) && IsPathBack(g, best, fork, vDisconnect)
    modifies view.Repr`cacheCoins, view.Repr`pindexTip
    ensures ok && ViewAt(r, g, view, fork) && view.Below() == old(view.Below())
    ensures StoredOk(r, g, index) && ChainConnected(g, index, best) && WithUndo(index) == old(WithUndo(index))
  {
    hide Replay, Reversible, InTree;
    ghost var tip := best;
    ok := true;
    for k := 0 to |vDisconnect|
      invariant OnChain(g, tip, best) && Height(tip) == Height(best) - k && (tip != null ==> tip in index)
      invariant ok && ViewAt(r, g, view, tip) && view.Below() == old(view.Below())
      invariant StoredOk(r, g, index) && ChainConnected(g, index, best) && WithUndo(index) == old(WithUndo(index))
    {
      var b := vDisconnect[k];
      PathBackAt(g, best, fork, vDisconnect, k, tip);
      BranchEntry(r, g, index, best, fork, b);
      ok := DisconnectTip(r, g, b, view);
      if !ok { return; }
      tip := b.pprev;
    }
  }

  lemma SupplyStep(r: Rules, g: Hash, b: BlockIndex, prev: Amounts, now: Amounts)
    requires InTree(g, b) && b.pprev != null && Replay(r, g, b).Some?
    requires forall c :: IsValidUnit(c) ==> Amount(prev, c) == Supply(r, g, b.pprev, c)
    requires SupplyMoved(now, prev, Step(r, g, b).valueIn, Step(r, g, b).valueOut)
    ensures forall c :: IsValidUnit(c) ==> Amount(now, c) == Supply(r, g, b, c)
  {}

  // Connecting one more block after its ancestors.
  method ConnectNext(r: Rules, g: Hash, b: BlockIndex, view: CoinsViewCache) returns (ok: bool)
    requires InTree(g, b) && view.Layered() && ViewAt(r, g, view, b.pprev) && EntryOk(r, g, b)
    requires b.pprev != null ==> EntryOk(r, g, b.pprev) && (b.pprev.pprev != null ==> b.pprev.undo.Some?)
    modifies view.Repr`cacheCoins, view.Repr`pindexTip, b`undo, b`mapMoneySupply
    ensures view.Below() == old(view.Below())
    ensures EntryOk(r, g, b) && (old(b.undo).Some? ==> b.undo.Some?)
    ensures ok <==> Replay(r, g, b).Some?
    ensures ok ==> ViewAt(r, g, view, b) && (b.pprev != null ==> b.undo.Some?)
  {
    ghost var prev := if b.pprev == null then map[] else b.pprev.mapMoneySupply;
    if b.pprev != null { ConnectBlockFades(r, b.Ctx(), view.Coins(), Replay(r, g, b.pprev).value, b.block); }
    ok := Connecting.ConnectBlock(r, g, b, view);
    if ok && b.pprev != null { SupplyStep(r, g, b, prev, b.mapMoneySupply); }
  }

  ghost function WithUndo(index: set<BlockIndex>): set<BlockIndex>
    reads index`undo
  {
    set b | b in index && b.undo.Some?
  }

  lemma OnChainStep(g: Hash, x: BlockIndex, b: BlockIndex)
    requires InTree(g, b)
    ensures OnChain(g, x, b) <==> x == b || OnChain(g, x, b.pprev)
  {}

  // The same, keeping what is known of every entry of the index.
  method ConnectTip(r: Rules, g: Hash, ghost index: set<BlockIndex>, b: BlockIndex, view: CoinsViewCache)
      returns (ok: bool)
    requires TreeOk(g, index) && StoredOk(r, g, index) && b in index
    requires view.Layered() && ViewAt(r, g, view, b.pprev) && ChainConnected(g, index, b.pprev)
    modifies view.Repr`cacheCoins, view.Repr`pindexTip, b`undo, b`mapMoneySupply
    ensures view.Below() == old(view.Below()) && StoredOk(r, g, index)
    ensures old(WithUndo(index)) <= WithUndo(index)
    ensures ok <==> Replay(r, g, b).Some?
    ensures ok ==> ViewAt(r, g, view, b) && ChainConnected(g, index, b)
  {
    hide Replay, TipAt, CoinsViewCache.View, CoinsViewCache.Best, CoinsViewCache.Below;
    assert EntryOk(r, g, b) && (b.pprev != null ==> EntryOk(r, g, b.pprev));
    ok := ConnectNext(r, g, b, view);
    forall x | x in index ensures EntryOk(r, g, x) {
      assert old(EntryOk(r, g, x));
    }
    forall x | x in index && OnChain(g, x, b) && x.pprev != null ensures ok ==> x.undo.Some? {
      OnChainStep(g, x, b);
    }
  }

  method ConnectBranch(r: Rules, g: Hash, ghost index: set<BlockIndex>, view: CoinsViewCache,
                       ghost pindexNew: BlockIndex, ghost fork: BlockIndex?, vConnect: seq<BlockIndex>)
      returns (ok: bool)
    requires TreeOk(g, index) && StoredOk(r, g, index) && pindexNew in index && (fork != null ==> fork in index)
    requires OnChain(g, fork, pindexNew) && IsPath(g, pindexNew, fork, vConnect)
    requires view.Layered() && ViewAt(r, g, view, fork) && ChainConnected(g, index, fork)
    modifies view.Repr`cacheCoins, view.Repr`pindexTip, index`undo, index`mapMoneySupply
    ensures view.Below() == old(view.Below()) && StoredOk(r, g, index)
    ensures old(WithUndo(index)) <= WithUndo(index)
    ensures ok <==> Replay(r, g, pindexNew).Some?
    ensures ok ==> ViewAt(r, g, view, pindexNew) && ChainConnected(g, index, pindexNew)
  {
    ghost var tip := fork;
    ok := true;
    for k := 0 to |vConnect|
      invariant ok && OnChain(g, tip, pindexNew) && Height(tip) == Height(fork) + k && (tip != null ==> tip in index)
      invariant ViewAt(r, g, view, tip) && ChainConnected(g, index, tip)
      invariant view.Below() == old(view.Below()) && StoredOk(r, g, index)
      invariant old(WithUndo(index)) <= WithUndo(index)
    {
      var b := vConnect[k];
      PathAt(g, index, pindexNew, fork, vConnect, k, tip);
      ok := ConnectTip(r, g, index, b, view);
      if !ok {
        if Replay(r, g, pindexNew).Some? { ReplayOfAncestor(r, g, pindexNew, b.nHeight); }
        return;
      }
      tip := b;
    }
  }

  // ---------- relinking pnext ----------

  method Unlink(g: Hash, ghost index: set<BlockIndex>, ghost best: BlockIndex?, ghost fork: BlockIndex?,
                vDisconnect: seq<BlockIndex>)
    requires TreeOk(g, index) && (best != null ==> best in index) && (fork != null ==> fork in index)
    requires OnChain(g, fork, best) && IsPathBack(g, best, fork, vDisconnect)
    requires LinksOk(g, index, best)
    modifies index`pnext
    ensures LinksOk(g, index, fork)
  {
    hide Next, InTree;
    ghost var tip := best;
    for k := 0 to |vDisconnect|
      invariant OnChain(g, tip, best) && Height(tip) == Height(best) - k && (tip != null ==> tip in index)
      invariant LinksOk(g, index, tip)
    {
      var pindex := vDisconnect[k];
      PathBackAt(g, best, fork, vDisconnect, k, tip);
      ParentOnChain(g, pindex, best);
      forall b | b in index ensures Next(g, pindex, b) == (if b == pindex.pprev then pindex else Next(g, pindex.pprev, b))
                                 && (pindex.pprev != null ==> Next(g, pindex.pprev, pindex.pprev) == null) {
        NextStep(g, pindex, b);
      }
      if pindex.pprev != null { pindex.pprev.pnext := null; }
      tip := pindex.pprev;
    }
  }

  method Link(g: Hash, ghost index: set<BlockIndex>, ghost pindexNew: BlockIndex, ghost fork: BlockIndex?,
              vConnect: seq<BlockIndex>)
    requires TreeOk(g, index) && pindexNew in index && (fork != null ==> fork in index)
    requires OnChain(g, fork, pindexNew) && IsPath(g, pindexNew, fork, vConnect)
    requires LinksOk(g, index, fork)
    modifies index`pnext
    ensures LinksOk(g, index, pindexNew)
  {
    hide Next, InTree;
    ghost var tip := fork;
    for k := 0 to |vConnect|
      invariant OnChain(g, tip, pindexNew) && Height(tip) == Height(fork) + k && (tip != null ==> tip in index)
      invariant LinksOk(g, index, tip)
    {
      var pindex := vConnect[k];
      PathAt(g, index, pindexNew, fork, vConnect, k, tip);
      forall b | b in index ensures Next(g, pindex, b) == if b == pindex.pprev then pindex else Next(g, pindex.pprev, b) {
        NextStep(g, pindex, b);
      }
      if pindex.pprev != null { pindex.pprev.pnext := pindex; }
      tip := pindex;
    }
  }

  method Relink(g: Hash, ghost index: set<BlockIndex>, ghost best: BlockIndex?, ghost pindexNew: BlockIndex,
                ghost fork: BlockIndex?, vDisconnect: seq<BlockIndex>, vConnect: seq<BlockIndex>)
    requires TreeOk(g, index) && pindexNew in index
    requires (best != null ==> best in index) && (fork != null ==> fork in index)
    requires OnChain(g, fork, best) && IsPathBack(g, best, fork, vDisconnect)
    requires OnChain(g, fork, pindexNew) && IsPath(g, pindexNew, fork, vConnect)
    requires LinksOk(g, index, best)
    modifies index`pnext
    ensures LinksOk(g, index, pindexNew)
  {
    Unlink(g, index, best, fork, vDisconnect);
    Link(g, index, pindexNew, fork, vConnect);
  }

  // ---------- the node ----------

  // The lists of what to disconnect and what to connect.
  method FindBranches(g: Hash, ghost index: set<BlockIndex>, view: CoinsViewCache, ghost best: BlockIndex?, pindexNew: BlockIndex)
      returns (pbest: BlockIndex?, pfork: BlockIndex?, vDisconnect: seq<BlockIndex>, vConnect: seq<BlockIndex>)
    requires TreeOk(g, index) && pindexNew in index && (best != null ==> best in index)
    requires view.Layered() && view.Best() == best
    modifies view.Repr`pindexTip
    ensures view.View() == old(view.View()) && view.Best() == best == view.pindexTip && view.Below() == old(view.Below())
    ensures pbest == best && (pfork != null ==> pfork in index) && (pfork == null ==> best == null)
    ensures OnChain(g, pfork, best) && OnChain(g, pfork, pindexNew) && ApartAbove(g, best, pindexNew, Height(pfork))
    ensures IsPathBack(g, best, pfork, vDisconnect) && IsPath(g, pindexNew, pfork, vConnect)
  {
    hide InTree, CoinsViewCache.View, CoinsViewCache.Best, CoinsViewCache.Below, ApartAbove;
    pbest := view.GetBestBlock();
    pfork := FindFork(g, index, pbest, pindexNew);
    vDisconnect := PathBack(g, pbest, pfork);
    var vBack := PathBack(g, pindexNew, pfork);
    vConnect := Reversed(vBack);
    ReversedPath(g, pindexNew, pfork, vBack);
  }

  // SetBestChain up to the flush: the fork, the two branches, and the view moved along them.
  method MoveView(r: Rules, g: Hash, ghost index: set<BlockIndex>, view: CoinsViewCache,
                  ghost best: BlockIndex?, pindexNew: BlockIndex)
      returns (ok: bool, pbest: BlockIndex?, pfork: BlockIndex?, vDisconnect: seq<BlockIndex>, vConnect: seq<BlockIndex>)
    requires TreeOk(g, index) && StoredOk(r, g, index) && pindexNew in index && (best != null ==> best in index)
    requires forall b :: b in index ==> Reversible(r, g, b)
    requires view.Layered() && TipAt(r, g, view, best) && ChainConnected(g, index, best)
    modifies view.Repr`cacheCoins, view.Repr`pindexTip, index`undo, index`mapMoneySupply
    ensures view.Below() == old(view.Below()) && StoredOk(r, g, index) && old(WithUndo(index)) <= WithUndo(index)
    ensures ok <==> Replay(r, g, pindexNew).Some?
    ensures ok ==> ViewAt(r, g, view, pindexNew) && ChainConnected(g, index, pindexNew)
    ensures ChainConnected(g, index, best)
    ensures pbest == best && (pfork != null ==> pfork in index)
    ensures OnChain(g, pfork, best) && OnChain(g, pfork, pindexNew) && ApartAbove(g, best, pindexNew, Height(pfork))
    ensures IsPathBack(g, best, pfork, vDisconnect) && IsPath(g, pindexNew, pfork, vConnect)
  {
    hide Replay, Reversible, InTree, StoredOk, IsPath, IsPathBack, ApartAbove, ViewOk, Canon,
         CoinsViewCache.View, CoinsViewCache.Best, CoinsViewCache.Below;
    pbest, pfork, vDisconnect, vConnect := FindBranches(g, index, view, best, pindexNew);
    ghost var before := WithUndo(index);
    ok := DisconnectBranch(r, g, index, view, pbest, pfork, vDisconnect);
    if !ok { return; }
    ForkConnected(g, index, pbest, pfork);
    ok := ConnectBranch(r, g, index, view, pindexNew, pfork, vConnect);
    forall b | b in index && OnChain(g, b, best) && b.pprev != null ensures b.undo.Some? {
      assert b in before;
    }
  }

  lemma ForkConnected(g: Hash, index: set<BlockIndex>, best: BlockIndex?, fork: BlockIndex?)
    requires TreeOk(g, index) && (best != null ==> best in index) && (fork != null ==> fork in index)
    requires OnChain(g, fork, best) && ChainConnected(g, index, best)
    ensures ChainConnected(g, index, fork)
  {
    forall b | b in index && OnChain(g, b, fork) && b.pprev != null ensures b.undo.Some? {
      AncestorOfAncestor(g, best, Height(fork), b.nHeight);
    }
  }

  // The flushes of SetBestChain: the second one, to the database, is not always made.
  method Commit(r: Rules, g: Hash, view: CoinsViewCache, tip: CoinsViewCache, pindexNew: BlockIndex, fFlush: bool)
    requires InTree(g, pindexNew) && view.Layered() && ViewAt(r, g, view, pindexNew)
    requires view.base == tip && tip.base == null && Written(view.db.coins)
    modifies view.Repr`cacheCoins, view.Repr`pindexTip, view.db`coins, view.db`best
    ensures TipAt(r, g, tip, pindexNew) && Written(view.db.coins)
    ensures fFlush ==> tip.Coins() == StoredUtxo(Replay(r, g, pindexNew).value)
  {
    hide Replay, Faded, Written, StoredUtxo, ViewOk, Canon, CoinsViewCache.View, CoinsViewCache.Best, CoinsViewCache.Below;
    view.Flush();
    if fFlush {
      ghost var v := tip.Coins();
      tip.Flush();
      FadedAgain(tip.Coins(), v, Replay(r, g, pindexNew).value);
      StoredSame(v, Replay(r, g, pindexNew).value);
    }
  }

  // The second half of SetBestChain: the coins are handed down, then the links are changed.
  method Finish(r: Rules, g: Hash, ghost index: set<BlockIndex>, view: CoinsViewCache, tip: CoinsViewCache,
                ghost best: BlockIndex?, pindexNew: BlockIndex, ghost pfork: BlockIndex?,
                vDisconnect: seq<BlockIndex>, vConnect: seq<BlockIndex>, fFlush: bool)
    requires TreeOk(g, index) && StoredOk(r, g, index) && pindexNew in index
    requires (best != null ==> best in index) && (pfork != null ==> pfork in index)
    requires view.Layered() && view.base == tip && ViewAt(r, g, view, pindexNew)
    requires tip.base == null && Written(view.db.coins)
    requires ChainConnected(g, index, pindexNew) && LinksOk(g, index, best)
    requires OnChain(g, pfork, best) && IsPathBack(g, best, pfork, vDisconnect)
    requires OnChain(g, pfork, pindexNew) && IsPath(g, pindexNew, pfork, vConnect)
    modifies view.Repr`cacheCoins, view.Repr`pindexTip, view.db`coins, view.db`best, index`pnext
    ensures TipAt(r, g, tip, pindexNew) && LinksOk(g, index, pindexNew) && Written(view.db.coins)
    ensures fFlush ==> tip.Coins() == StoredUtxo(Replay(r, g, pindexNew).value)
    ensures StoredOk(r, g, index) && ChainConnected(g, index, pindexNew)
  {
    hide Replay, InTree, StoredOk, ChainConnected, LinksOk, OnChain, IsPath, IsPathBack;
    Commit(r, g, view, tip, pindexNew, fFlush);
    assert StoredOk(r, g, index) && ChainConnected(g, index, pindexNew) && LinksOk(g, index, best);
    ghost var coins := tip.Coins();
    Relink(g, index, best, pindexNew, pfork, vDisconnect, vConnect);
  }

  lemma {:induction false} GenesisConnected(r: Rules, g: Hash, index: set<BlockIndex>, best: BlockIndex?, pindexNew: BlockIndex,
                         fork: BlockIndex?, v: seq<BlockIndex>)
    requires TreeOk(g, index) && pindexNew in index && (best != null ==> best in index)
    requires OnChain(g, fork, pindexNew) && IsPath(g, pindexNew, fork, v) && OnChain(g, fork, best)
    ensures v != [] && v[0].pprev == null ==> v[0] == Ancestor(g, pindexNew, 0)
    ensures best == null ==> v != [] && v[0].pprev == null
    ensures v != [] && v[0].pprev == null && Replay(r, g, pindexNew).Some? ==> CheckBlock(r, v[0].block)
  {
    if v != [] {
      AncestorHeight(g, pindexNew, Height(fork) + 1);
      if v[0].pprev == null && Replay(r, g, pindexNew).Some? { ReplayOfAncestor(r, g, pindexNew, 0); }
    }
  }

  // SetBestChain, but for the node's own fields. The second result is what ConnectBlock stores as
  // the genesis block, when it was among the blocks connected.
  method Advance(r: Rules, g: Hash, ghost index: set<BlockIndex>, tip: CoinsViewCache, ghost best: BlockIndex?,
                 pindexNew: BlockIndex, fFlush: bool)
      returns (ok: bool, genesis: BlockIndex?)
    requires TreeOk(g, index) && StoredOk(r, g, index) && pindexNew in index && (best != null ==> best in index)
    requires forall b :: b in index ==> Reversible(r, g, b)
    requires tip.Layered() && TipAt(r, g, tip, best) && ChainConnected(g, index, best) && LinksOk(g, index, best)
    requires tip.base == null && Written(tip.db.coins)
    modifies tip.Repr`cacheCoins, tip.Repr`pindexTip, tip.db`coins, tip.db`best, index`undo, index`mapMoneySupply, index`pnext
    ensures StoredOk(r, g, index)
    ensures ok <==> Replay(r, g, pindexNew).Some?
    ensures var now := if ok then pindexNew else best;
            TipAt(r, g, tip, now) && ChainConnected(g, index, now) && LinksOk(g, index, now)
    ensures Written(tip.db.coins) && (ok && fFlush ==> tip.Coins() == StoredUtxo(Replay(r, g, pindexNew).value))
    ensures !ok ==> tip.View() == old(tip.View()) && forall b :: b in index ==> b.pnext == old(b.pnext)
    ensures genesis != null ==> genesis == Ancestor(g, pindexNew, 0)
    ensures ok && best == null ==> genesis == Ancestor(g, pindexNew, 0)
  {
    hide Replay, Reversible, InTree, StoredOk, ChainConnected, LinksOk;
    var view := new CoinsViewCache.Over(tip);
    var pbest, pfork, vDisconnect, vConnect;
    ok, pbest, pfork, vDisconnect, vConnect := MoveView(r, g, index, view, best, pindexNew);
    GenesisConnected(r, g, index, best, pindexNew, pfork, vConnect);
    genesis := null;
    if |vConnect| > 0 && vConnect[0].pprev == null && CheckBlock(r, vConnect[0].block) { genesis := vConnect[0]; }
    if !ok { return; }
    Finish(r, g, index, view, tip, pbest, pindexNew, pfork, vDisconnect, vConnect, fFlush);
  }

  class Node {
    const r: Rules
    const g: Hash                          // hashGenesisBlock
    const pcoinsTip: CoinsViewCache
    var pindexBest: BlockIndex?
    var pindexGenesisBlock: BlockIndex?
    var nBestHeight: int
    var pblockindexFBBHLast: BlockIndex?
    ghost var index: set<BlockIndex>       // mapBlockIndex

    ghost predicate Valid()
      reads this, index`undo, index`mapMoneySupply, index`pnext
      reads pcoinsTip.Repr`cacheCoins, pcoinsTip.Repr`pindexTip, pcoinsTip.db`coins, pcoinsTip.db`best
    {
      && TreeOk(g, index) && StoredOk(r, g, index)
      && (forall b :: b in index ==> Reversible(r, g, b))
      && (pindexBest != null ==> pindexBest in index)
      && pcoinsTip.Layered() && pcoinsTip.base == null && Written(pcoinsTip.db.coins) && TipAt(r, g, pcoinsTip, pindexBest)
      && ChainConnected(g, index, pindexBest) && LinksOk(g, index, pindexBest)
      && nBestHeight == Height(pindexBest)
      && (pindexBest != null ==> pindexGenesisBlock == Ancestor(g, pindexBest, 0))
      && OnChain(g, pblockindexFBBHLast, pindexBest)
    }

    // A node that has connected nothing yet, over an empty database.
    constructor (r: Rules, g: Hash, db: CoinsViewDB)
      requires db.coins == map[] && db.best == null
      ensures Valid() && index == {} && pindexBest == null && fresh(pcoinsTip.Repr) && pcoinsTip.db == db
    {
      this.r, this.g := r, g;
      pindexBest, pindexGenesisBlock, nBestHeight, pblockindexFBBHLast := null, null, -1, null;
      index := {};
      var tip := new CoinsViewCache.OverDB(db);
      pcoinsTip := tip;
    }

    // SetBestChain. It succeeds exactly when replaying the chain of pindexNew from genesis does. It then leaves
    // what that replay gives, where a record that has been through the disk has its stored version; after a flush
    // to the database that is every record. When it fails, nothing the node answers has changed.
    method SetBestChain(pindexNew: BlockIndex, fFlush: bool) returns (ok: bool)
      requires Valid() && pindexNew in index
      modifies this`pindexBest, this`pindexGenesisBlock, this`nBestHeight, this`pblockindexFBBHLast
      modifies pcoinsTip.Repr`cacheCoins, pcoinsTip.Repr`pindexTip, pcoinsTip.db`coins, pcoinsTip.db`best
      modifies index`undo, index`mapMoneySupply, index`pnext
      ensures Valid() && index == old(index)
      ensures ok <==> Replay(r, g, pindexNew).Some?
      ensures ok ==> pindexBest == pindexNew && HoldsFor(pcoinsTip.Coins(), Replay(r, g, pindexNew).value, fFlush)
      ensures !ok ==> && pindexBest == old(pindexBest)
                      && pcoinsTip.View() == old(pcoinsTip.View()) && pcoinsTip.Best() == old(pcoinsTip.Best())
                      && forall b :: b in index ==> b.pnext == old(b.pnext)
    {
      hide Replay, Reversible, InTree, StoredOk, ChainConnected, LinksOk, ViewOk, Canon, Written, HoldsFor, Faded, StoredUtxo,
           CoinsViewCache.View, CoinsViewCache.Best, CoinsViewCache.Below;
      if pindexBest != null { SameGenesis(g, index, pindexBest, pindexNew); }
      AncestorHeight(g, pindexNew, 0);
      var genesis;
      ok, genesis := Advance(r, g, index, pcoinsTip, pindexBest, pindexNew, fFlush);
      if genesis != null { pindexGenesisBlock := genesis; }
      if !ok { return; }
      pindexBest := pindexNew;
      pblockindexFBBHLast := null;
      nBestHeight := pindexNew.nHeight;
      HoldsIfFaded(pcoinsTip.Coins(), Replay(r, g, pindexNew).value, fFlush);
    }

    // A block joins the index, under a parent that is in it. One that is let off BIP 30 is admitted if it
    // replaces nothing when it is connected after its ancestors.
    method AddToBlockIndex(b: BlockIndex)
      requires Valid() && b !in index && InTree(g, b) && (b.pprev != null ==> b.pprev in index)
      requires (b.pprev != null && EnforceBIP30(b.Ctx())) || Reversible(r, g, b)
      requires forall x :: x in index ==> x.block.hash != b.block.hash
      requires b.pnext == null && b.undo == None && b.mapMoneySupply == map[]
      modifies this`index
      ensures Valid() && index == old(index) + {b} && pindexBest == old(pindexBest)
    {
      hide Replay, Reversible, TipAt, InTree, EntryOk;
      if b.pprev == null || EnforceBIP30(b.Ctx()) { BIP30IsReversible(r, g, b); }
      IndexGrows(r, g, index, pindexBest, b);
      index := index + {b};
    }

    // So asking for pnext asks whether b is an ancestor of the best block, or that block; and pnext
    // links exactly the neighbours on the best chain.
    lemma InMainChainIsOnChain(b: BlockIndex, c: BlockIndex)
      requires Valid() && b in index
      ensures b.IsInMainChain(pindexBest) <==> OnChain(g, b, pindexBest)
      ensures b.pnext == c <==> OnChain(g, c, pindexBest) && c.pprev == b
    {
      hide Replay, StoredOk, ChainConnected, Reversible, TipAt, LinksOk, OnChain, BlockIndex.IsInMainChain;
      InMainChainIff(g, index, pindexBest, b);
      LinkIff(g, index, pindexBest, b, c);
    }

    // FindBlockByHeight: whatever block it starts from, the one block of the best chain at that height.
    method FindBlockByHeight(nHeight: nat) returns (b: BlockIndex)
      requires Valid() && nHeight <= nBestHeight
      modifies this`pblockindexFBBHLast
      ensures Valid() && b == Ancestor(g, pindexBest, nHeight) && b.nHeight == nHeight
    {
      hide Replay, StoredOk, ChainConnected, Reversible, TipAt;
      AncestorHeight(g, pindexBest, 0);
      var start := if nHeight < nBestHeight / 2 then pindexGenesisBlock else pindexBest;
      if pblockindexFBBHLast != null && Abs(nHeight - start.nHeight) > Abs(nHeight - pblockindexFBBHLast.nHeight) {
        start := pblockindexFBBHLast;
      }
      b := WalkTo(g, index, pindexBest, start, nHeight);
      pblockindexFBBHLast := b;
    }
  }

  lemma InMainChainIff(g: Hash, index: set<BlockIndex>, tip: BlockIndex?, b: BlockIndex)
    requires TreeOk(g, index) && (tip != null ==> tip in index) && LinksOk(g, index, tip) && b in index
    ensures b.IsInMainChain(tip) <==> OnChain(g, b, tip)
  {
    assert b.pnext == Next(g, tip, b);
    if tip != null && OnChain(g, b, tip) && b.nHeight < tip.nHeight { AncestorHeight(g, tip, b.nHeight + 1); }
  }

  lemma LinkIff(g: Hash, index: set<BlockIndex>, tip: BlockIndex?, b: BlockIndex, c: BlockIndex)
    requires TreeOk(g, index) && (tip != null ==> tip in index) && LinksOk(g, index, tip) && b in index
    ensures b.pnext == c <==> OnChain(g, c, tip) && c.pprev == b
  {
    assert b.pnext == Next(g, tip, b);
    if tip != null { NextLinks(g, tip, b, c); }
  }

  lemma {:induction false} IndexGrows(r: Rules, g: Hash, index: set<BlockIndex>, tip: BlockIndex?, b: BlockIndex)
    requires TreeOk(g, index) && (tip != null ==> tip in index) && b !in index && InTree(g, b)
    requires b.pprev != null ==> b.pprev in index
    requires forall x :: x in index ==> x.block.hash != b.block.hash
    requires StoredOk(r, g, index) && ChainConnected(g, index, tip) && LinksOk(g, index, tip)
    requires b.pnext == null && b.undo == None && b.mapMoneySupply == map[]
    ensures TreeOk(g, index + {b})
    ensures StoredOk(r, g, index + {b}) && ChainConnected(g, index + {b}, tip) && LinksOk(g, index + {b}, tip)
  {
    hide Replay, InTree;
    NotOnChain(g, index, tip, b);
    assert TreeOk(g, index + {b});
  }

  lemma NotOnChain(g: Hash, index: set<BlockIndex>, tip: BlockIndex?, b: BlockIndex)
    requires TreeOk(g, index) && (tip != null ==> tip in index) && b !in index
    ensures !OnChain(g, b, tip) && Next(g, tip, b) == null
  {
    if OnChain(g, b, tip) { AncestorInIndex(g, index, tip, b.nHeight); }
  }

  lemma ChildOnChain(g: Hash, index: set<BlockIndex>, tip: BlockIndex, b: BlockIndex)
    requires TreeOk(g, index) && tip in index && LinksOk(g, index, tip)
    requires OnChain(g, b, tip) && b.nHeight < tip.nHeight
    ensures b.pnext != null && OnChain(g, b.pnext, tip) && b.pnext.nHeight == b.nHeight + 1
  {
    AncestorInIndex(g, index, tip, b.nHeight);
    AncestorHeight(g, tip, b.nHeight + 1);
    assert b.pnext == Next(g, tip, b);
  }

  // The two loops of FindBlockByHeight: down along pprev, then up along pnext.
  method WalkTo(g: Hash, ghost index: set<BlockIndex>, ghost tip: BlockIndex, start: BlockIndex, nHeight: nat)
      returns (b: BlockIndex)
    requires TreeOk(g, index) && tip in index && LinksOk(g, index, tip)
    requires OnChain(g, start, tip) && nHeight <= tip.nHeight
    ensures b == Ancestor(g, tip, nHeight) && b.nHeight == nHeight
  {
    hide InTree, LinksOk;
    b := start;
    while b.nHeight > nHeight
      invariant OnChain(g, b, tip)
      decreases b.nHeight
    {
      ParentOnChain(g, b, tip);
      b := b.pprev;
    }
    while b.nHeight < nHeight
      invariant OnChain(g, b, tip) && b.nHeight <= nHeight
      decreases nHeight - b.nHeight
    {
      ChildOnChain(g, index, tip, b);
      b := b.pnext;
    }
  }
}
