/** The tree of block index entries, and what replaying a chain from genesis gives. */
module BlockTree {
  import opened Ledger
  import opened Blocks
  import opened Versions
  import opened CoinsView
  import opened Connecting

  // Entries as AcceptBlock makes them, down to a genesis block at height 0.
  ghost predicate InTree(hashGenesis: Hash, b: BlockIndex)
    decreases b.nHeight
  {
    && Placed(hashGenesis, b)
    && (b.pprev == null ==> b.nHeight == 0)
    && (b.pprev != null ==> b.pprev.nHeight == b.nHeight - 1 && InTree(hashGenesis, b.pprev))
  }

  ghost function Height(b: BlockIndex?): int { if b == null then -1 else b.nHeight }

  // The ancestor of b (or b itself) at height h; null below genesis.
  ghost function Ancestor(g: Hash, b: BlockIndex?, h: int): BlockIndex?
    requires b != null ==> InTree(g, b)
    requires h <= Height(b)
    decreases Height(b) + 1
  {
    if h < 0 then null
    else if b.nHeight == h then b
    else Ancestor(g, b.pprev, h)
  }

  lemma {:induction false} AncestorHeight(g: Hash, b: BlockIndex?, h: int)
    requires b != null ==> InTree(g, b)
    requires h <= Height(b)
    ensures h < 0 ==> Ancestor(g, b, h) == null
    ensures h >= 0 ==> var a := Ancestor(g, b, h); a != null && a.nHeight == h && InTree(g, a)
    ensures h >= 0 ==> Ancestor(g, b, h - 1) == Ancestor(g, b, h).pprev
    decreases Height(b) + 1
  {
    if h >= 0 {
      if b.nHeight != h { AncestorHeight(g, b.pprev, h); }
      else if h > 0 { assert Ancestor(g, b, h - 1) == Ancestor(g, b.pprev, h - 1); }
    }
  }

  ghost predicate OnChain(g: Hash, a: BlockIndex?, b: BlockIndex?)
    requires b != null ==> InTree(g, b)
  {
    Height(a) <= Height(b) && Ancestor(g, b, Height(a)) == a
  }

  lemma {:induction false} AncestorOfAncestor(g: Hash, b: BlockIndex?, h: int, k: int)
    requires b != null ==> InTree(g, b)
    requires k <= h <= Height(b)
    ensures var a := Ancestor(g, b, h);
            && (a != null ==> InTree(g, a)) && Height(a) >= k
            && Ancestor(g, a, k) == Ancestor(g, b, k)
    decreases Height(b) + 1
  {
    AncestorHeight(g, b, h);
    if h >= 0 && b.nHeight != h { AncestorOfAncestor(g, b.pprev, h, k); }
    if h < -1 { assert k < 0; }
  }

  // The coins after connecting every block from genesis to b, in order.
  ghost function Replay(r: Rules, g: Hash, b: BlockIndex?): Option<Utxo>
    requires b != null ==> InTree(g, b)
    decreases Height(b) + 1
  {
    if b == null then Some(map[])
    else if !CheckBlock(r, b.block) then None
    else if b.pprev == null then Some(map[])
    else
      match Replay(r, g, b.pprev)
      case None => None
      case Some(u) =>
        match Blocks.ConnectBlock(r, b.Ctx(), u, b.block)
        case None => None
        case Some(c) => Some(c.utxo)
  }

  // What connecting b after its ancestors produces, for a b above genesis that replays.
  ghost function Step(r: Rules, g: Hash, b: BlockIndex): Connected
    requires InTree(g, b) && b.pprev != null && Replay(r, g, b).Some?
  {
    Blocks.ConnectBlock(r, b.Ctx(), Replay(r, g, b.pprev).value, b.block).value
  }

  lemma {:induction false} ReplayIsCanonical(r: Rules, g: Hash, b: BlockIndex?)
    requires b != null ==> InTree(g, b)
    requires Replay(r, g, b).Some?
    ensures Canonical(Replay(r, g, b).value)
    decreases Height(b) + 1
  {
    if b != null && b.pprev != null {
      ReplayIsCanonical(r, g, b.pprev);
      CheckBlockIsProper(r, b.block);
      ConnectTxsKeeps(r, b.Ctx(), b.block.nTime, Replay(r, g, b.pprev).value, b.block.vtx);
    }
  }

  lemma {:induction false} ReplayOfAncestor(r: Rules, g: Hash, b: BlockIndex?, h: int)
    requires b != null ==> InTree(g, b)
    requires Replay(r, g, b).Some? && h <= Height(b)
    ensures var a := Ancestor(g, b, h); (a != null ==> InTree(g, a)) && Replay(r, g, a).Some?
    decreases Height(b) + 1
  {
    AncestorHeight(g, b, h);
    if h >= 0 && b.nHeight != h { ReplayOfAncestor(r, g, b.pprev, h); }
  }

  // Connecting b after its ancestors loses nothing: always so under BIP 30.
  ghost predicate Reversible(r: Rules, g: Hash, b: BlockIndex)
    requires InTree(g, b)
  {
    b.pprev != null && Replay(r, g, b).Some? ==>
      ReplacesNothing(r, b.Ctx(), b.block.nTime, Replay(r, g, b.pprev).value, b.block.vtx)
  }

  lemma {:induction false} BIP30IsReversible(r: Rules, g: Hash, b: BlockIndex)
    requires InTree(g, b) && (b.pprev != null ==> EnforceBIP30(b.Ctx()))
    ensures Reversible(r, g, b)
  {
    if b.pprev != null && Replay(r, g, b).Some? {
      ReplayIsCanonical(r, g, b.pprev);
      CheckBlockIsProper(r, b.block);
      NoOverwriteReplacesNothing(r, b.Ctx(), b.block.nTime, Replay(r, g, b.pprev).value, b.block.vtx);
    }
  }

  // The undo data of a replayed block is well formed and undoes exactly that block, but for versions, in any
  // view that holds the replay but for versions.
  lemma {:induction false} StepUndone(r: Rules, g: Hash, b: BlockIndex, v: Utxo)
    requires InTree(g, b) && b.pprev != null && Replay(r, g, b).Some? && Reversible(r, g, b)
    requires Faded(v, Replay(r, g, b).value)
    ensures ProperTxs(b.block.vtx)
    ensures var vtxundo := StoredBlockUndo(Step(r, g, b).vtxundo);
            && (forall i :: 0 <= i < |vtxundo| ==> RealOutputs(vtxundo[i]))
            && var back := Blocks.DisconnectBlock(v, b.block, b.nHeight, vtxundo);
            back.Some? && back.value.clean && Faded(back.value.utxo, Replay(r, g, b.pprev).value)
  {
    ReplayIsCanonical(r, g, b.pprev);
    CheckBlockIsProper(r, b.block);
    var u := Replay(r, g, b.pprev).value;
    hide Canonical, Faded, ConnectTxs, ReplacesNothing, CheckBlock, ProperTxs, Blocks.DisconnectBlock, InTree;
    ConnectTxsUndoReal(r, b.Ctx(), b.block.nTime, u, b.block.vtx);
    DisconnectFaded(r, b.Ctx(), u, b.block, v);
  }

  lemma {:induction false} SpendAllUndoReal(u: Utxo, vin: seq<TxIn>)
    requires SpendAll(u, vin).Some?
    ensures RealOutputs(SpendAll(u, vin).value.1)
  {
    if vin != [] { SpendAllUndoReal(u, vin[..|vin| - 1]); }
  }

  lemma {:induction false} ConnectTxsUndoReal(r: Rules, ctx: Context, nTime: nat, u: Utxo, vtx: seq<Tx>)
    requires ctx.nHeight > 0 && ConnectTxs(r, ctx, nTime, u, vtx).Some?
    ensures var undo := ConnectTxs(r, ctx, nTime, u, vtx).value.vtxundo;
            forall i :: 0 <= i < |undo| ==> RealOutputs(undo[i])
  {
    if vtx != [] {
      var n := |vtx| - 1;
      ConnectTxsUndoReal(r, ctx, nTime, u, vtx[..n]);
      var acc := ConnectTxs(r, ctx, nTime, u, vtx[..n]).value;
      if vtx[n].Spends() && SpendAll(acc.utxo, vtx[n].vin).Some? { SpendAllUndoReal(acc.utxo, vtx[n].vin); }
    }
  }

  // The supply of unit c after b: every block above genesis adds its outputs and takes its inputs.
  ghost function Supply(r: Rules, g: Hash, b: BlockIndex?, c: char): int
    requires b != null ==> InTree(g, b)
    requires Replay(r, g, b).Some?
    decreases Height(b) + 1
  {
    if b == null || b.pprev == null then 0
    else
      var step := Step(r, g, b);
      Supply(r, g, b.pprev, c) + Amount(step.valueOut, c) - Amount(step.valueIn, c)
  }

  // The successor of b on the chain ending in tip; null when b is the tip or not on that chain.
  ghost function Next(g: Hash, tip: BlockIndex?, b: BlockIndex): BlockIndex?
    requires tip != null ==> InTree(g, tip)
  {
    if OnChain(g, b, tip) && b.nHeight < Height(tip) then Ancestor(g, tip, b.nHeight + 1) else null
  }

  lemma NextStep(g: Hash, tip: BlockIndex, b: BlockIndex)
    requires InTree(g, tip)
    ensures Next(g, tip, b) == if b == tip.pprev then tip else Next(g, tip.pprev, b)
    ensures tip.pprev != null ==> Next(g, tip.pprev, tip.pprev) == null
  {
    if b.nHeight < tip.nHeight {
      assert Ancestor(g, tip, b.nHeight) == Ancestor(g, tip.pprev, b.nHeight);
      if b.nHeight + 1 < tip.nHeight {
        assert Ancestor(g, tip, b.nHeight + 1) == Ancestor(g, tip.pprev, b.nHeight + 1);
      }
    }
  }

  // pnext means what its name says: it links exactly the neighbours on the chain.
  lemma NextLinks(g: Hash, tip: BlockIndex, b: BlockIndex, c: BlockIndex)
    requires InTree(g, tip)
    ensures Next(g, tip, b) == c <==> OnChain(g, c, tip) && c.pprev == b
  {
    if b.nHeight < tip.nHeight { AncestorHeight(g, tip, b.nHeight + 1); }
    if OnChain(g, c, tip) { AncestorHeight(g, tip, c.nHeight); }
  }
}
