/** ConnectBlock and DisconnectBlock as they run on a coin view, proved against Blocks. */
module Connecting {
  import opened Ledger
  import opened Blocks
  import opened Versions
  import opened CoinsView

  lemma {:induction false} SpendAllPrefix(u: Utxo, vin: seq<TxIn>, k: nat)
    requires k <= |vin| && SpendAll(u, vin).Some?
    ensures SpendAll(u, vin[..k]).Some?
    decreases |vin|
  {
    if k == |vin| {
      assert vin[..k] == vin;
    } else {
      SpendAllPrefix(u, vin[..|vin| - 1], k);
      assert vin[..|vin| - 1][..k] == vin[..k];
    }
  }

  // Spending in a view that may hold pruned records is spending in what the view means.
  lemma SpendInView(view: map<Hash, Coins>, o: OutPoint)
    requires ViewOk(view) && SpendOne(Canon(view), o).Some?
    ensures o.hash in view && view[o.hash].IsAvailable(o.n)
    ensures var c := view[o.hash];
            var d := Spent(c, o.n);
            && ViewOk(view[o.hash := d])
            && SpendOne(Canon(view), o).value
               == (Canon(view[o.hash := d]), if d.vout == [] then LastUndo(c.vout[o.n], c) else PlainUndo(c.vout[o.n]))
  {
    var c := view[o.hash];
    UnspendInvertsSpendVout(c.vout, o.n);
    CanonUpdate(view, o.hash, Spent(c, o.n));
  }

  lemma AddOutputsInView(view: map<Hash, Coins>, tx: Tx, nHeight: nat)
    requires ViewOk(view) && ProperOutputs(tx) && nHeight > 0
    ensures var now := view[tx.hash := CoinsOf(tx, nHeight)];
            ViewOk(now) && Canon(now) == Canon(view)[tx.hash := CoinsOf(tx, nHeight)]
  {
    CanonUpdate(view, tx.hash, CoinsOf(tx, nHeight));
  }

  // One turn of the input loop of UpdateCoins, which asserts that the output is there.
  method SpendInput(view: CoinsViewCache, o: OutPoint) returns (undo: TxInUndo)
    requires view.Layered() && o.hash in view.View() && view.View()[o.hash].IsAvailable(o.n)
    modifies view.Repr`cacheCoins
    ensures var c := old(view.View())[o.hash];
            var d := Spent(c, o.n);
            && view.View() == old(view.View())[o.hash := d]
            && undo == if d.vout == [] then LastUndo(c.vout[o.n], c) else PlainUndo(c.vout[o.n])
    ensures view.Best() == old(view.Best()) && view.Below() == old(view.Below())
  {
    hide CoinsViewCache.View, CoinsViewCache.Best, CoinsViewCache.Below;
    var found, coins := view.GetCoins(o.hash);
    var ok, d;
    ok, d, undo := Spend(coins, o.n);
    view.SetCoins(o.hash, d);
  }

  method UpdateCoins(view: CoinsViewCache, tx: Tx, nHeight: nat) returns (undos: seq<TxInUndo>)
    requires view.Layered() && view.Ok() && nHeight > 0 && ProperOutputs(tx)
    requires Ledger.UpdateCoins(view.Coins(), tx, nHeight).Some?
    modifies view.Repr`cacheCoins
    ensures view.Ok() && Ledger.UpdateCoins(old(view.Coins()), tx, nHeight) == Some((view.Coins(), undos))
    ensures view.Best() == old(view.Best()) && view.Below() == old(view.Below())
  {
    hide CoinsViewCache.View, CoinsViewCache.Best, CoinsViewCache.Below, SpendOne;
    undos := [];
    ghost var u := view.Coins();
    if tx.Spends() {
      for i := 0 to |tx.vin|
        invariant view.Ok() && SpendAll(u, tx.vin[..i]) == Some((view.Coins(), undos))
        invariant view.Best() == old(view.Best()) && view.Below() == old(view.Below())
      {
        SpendAllPrefix(u, tx.vin, i + 1);
        assert tx.vin[..i + 1][..i] == tx.vin[..i];
        SpendInView(view.View(), tx.vin[i].prevout);
        var undo := SpendInput(view, tx.vin[i].prevout);
        undos := undos + [undo];
      }
      assert tx.vin[..|tx.vin|] == tx.vin;
    }
    AddOutputsInView(view.View(), tx, nHeight);
    view.SetCoins(tx.hash, CoinsOf(tx, nHeight));
  }

  method HaveInputs(view: CoinsViewCache, vin: seq<TxIn>) returns (ok: bool)
    requires view.Layered() && view.Ok()
    modifies view.Repr`cacheCoins
    ensures view.View() == old(view.View()) && view.Best() == old(view.Best()) && view.Below() == old(view.Below())
    ensures ok <==> Ledger.HaveInputs(view.Coins(), vin)
  {
    hide CoinsViewCache.View, CoinsViewCache.Best, CoinsViewCache.Below;
    for i := 0 to |vin|
      invariant view.View() == old(view.View()) && view.Best() == old(view.Best()) && view.Below() == old(view.Below())
      invariant forall j :: 0 <= j < i ==> vin[j].prevout.hash in view.View()
    {
      var found := view.HaveCoins(vin[i].prevout.hash);
      if !found { return false; }
    }
    for i := 0 to |vin|
      invariant view.View() == old(view.View()) && view.Best() == old(view.Best()) && view.Below() == old(view.Below())
      invariant forall j :: 0 <= j < |vin| ==> vin[j].prevout.hash in view.View()
      invariant forall j :: 0 <= j < i ==> Unspent(view.Coins(), vin[j].prevout)
    {
      var found, coins := view.GetCoins(vin[i].prevout.hash);
      if !coins.IsAvailable(vin[i].prevout.n) { return false; }
    }
    ok := true;
  }

  // The reference GetCoins returns, for an input that is known to be there.
  method PrevCoins(view: CoinsViewCache, o: OutPoint) returns (coins: Coins)
    requires view.Layered() && view.Ok() && Unspent(view.Coins(), o)
    modifies view.Repr`cacheCoins
    ensures view.View() == old(view.View()) && view.Best() == old(view.Best()) && view.Below() == old(view.Below())
    ensures coins == view.Coins()[o.hash]
  {
    hide CoinsViewCache.View, CoinsViewCache.Best, CoinsViewCache.Below;
    var found;
    found, coins := view.GetCoins(o.hash);
  }

  method GetValueIn(view: CoinsViewCache, vin: seq<TxIn>) returns (n: int)
    requires view.Layered() && view.Ok() && Ledger.HaveInputs(view.Coins(), vin)
    modifies view.Repr`cacheCoins
    ensures view.View() == old(view.View()) && view.Best() == old(view.Best()) && view.Below() == old(view.Below())
    ensures n == SumIn(view.Coins(), vin)
  {
    hide CoinsViewCache.View, CoinsViewCache.Best, CoinsViewCache.Below;
    n := 0;
    for i := 0 to |vin|
      invariant view.View() == old(view.View()) && view.Best() == old(view.Best()) && view.Below() == old(view.Below())
      invariant Ledger.HaveInputs(view.Coins(), vin[..i]) && n == SumIn(view.Coins(), vin[..i])
    {
      var coins := PrevCoins(view, vin[i].prevout);
      n := n + coins.vout[vin[i].prevout.n].nValue;
      assert Ledger.HaveInputs(view.Coins(), vin[..i + 1]);
      assert vin[..i + 1][..i] == vin[..i];
    }
    assert vin[..|vin|] == vin;
  }

  method GetP2SHSigOpCount(r: Rules, view: CoinsViewCache, tx: Tx) returns (n: nat)
    requires view.Layered() && view.Ok() && Ledger.HaveInputs(view.Coins(), tx.vin)
    modifies view.Repr`cacheCoins
    ensures view.View() == old(view.View()) && view.Best() == old(view.Best()) && view.Below() == old(view.Below())
    ensures n == P2SHSigOps(r, view.Coins(), tx, |tx.vin|)
  {
    hide CoinsViewCache.View, CoinsViewCache.Best, CoinsViewCache.Below;
    n := 0;
    for i := 0 to |tx.vin|
      invariant view.View() == old(view.View()) && view.Best() == old(view.Best()) && view.Below() == old(view.Below())
      invariant n == P2SHSigOps(r, view.Coins(), tx, i)
    {
      var coins := PrevCoins(view, tx.vin[i].prevout);
      n := n + r.p2shSigOps(coins.vout[tx.vin[i].prevout.n].scriptPubKey, tx, i);
    }
  }

  // The first loop of CheckInputs.
  method CheckEachInput(r: Rules, prevHeight: nat, view: CoinsViewCache, tx: Tx) returns (ok: bool, nValueIn: int)
    requires view.Layered() && view.Ok() && Ledger.HaveInputs(view.Coins(), tx.vin)
    modifies view.Repr`cacheCoins
    ensures view.View() == old(view.View()) && view.Best() == old(view.Best()) && view.Below() == old(view.Below())
    ensures ok <==> forall i :: 0 <= i < |tx.vin| ==> CheckInput(r, prevHeight, view.Coins(), tx, i)
    ensures ok ==> nValueIn == SumIn(view.Coins(), tx.vin)
  {
    hide CoinsViewCache.View, CoinsViewCache.Best, CoinsViewCache.Below;
    nValueIn := 0;
    for i := 0 to |tx.vin|
      invariant view.View() == old(view.View()) && view.Best() == old(view.Best()) && view.Below() == old(view.Below())
      invariant Ledger.HaveInputs(view.Coins(), tx.vin[..i]) && nValueIn == SumIn(view.Coins(), tx.vin[..i])
      invariant forall j :: 0 <= j < i ==> CheckInput(r, prevHeight, view.Coins(), tx, j)
    {
      var o := tx.vin[i].prevout;
      var coins := PrevCoins(view, o);
      ghost var u := view.Coins();
      nValueIn := nValueIn + coins.vout[o.n].nValue;
      assert Ledger.HaveInputs(u, tx.vin[..i + 1]);
      assert nValueIn == SumIn(u, tx.vin[..i + 1]) by { assert tx.vin[..i + 1][..i] == tx.vin[..i]; }
      ok := true;
      if coins.fCoinBase || coins.fCoinStake {
        ok := prevHeight + 1 - coins.nHeight >= (if coins.fCoinStake then r.coinstakeMaturity else r.coinbaseMaturity);
      }
      ok := ok && coins.nTime <= tx.nTime && MoneyRange(coins.vout[o.n].nValue) && MoneyRange(nValueIn);
      assert ok <==> CheckInput(r, prevHeight, u, tx, i);
      if !ok { return; }
    }
    assert tx.vin[..|tx.vin|] == tx.vin;
    ok := true;
  }

  // The loop over the signatures.
  method CheckScripts(r: Rules, view: CoinsViewCache, tx: Tx) returns (ok: bool)
    requires view.Layered() && view.Ok() && Ledger.HaveInputs(view.Coins(), tx.vin)
    modifies view.Repr`cacheCoins
    ensures view.View() == old(view.View()) && view.Best() == old(view.Best()) && view.Below() == old(view.Below())
    ensures ok <==> forall i :: 0 <= i < |tx.vin| ==>
                      r.verifyScript(PrevOut(view.Coins(), tx.vin[i].prevout).scriptPubKey, tx, i)
  {
    hide CoinsViewCache.View, CoinsViewCache.Best, CoinsViewCache.Below;
    for i := 0 to |tx.vin|
      invariant view.View() == old(view.View()) && view.Best() == old(view.Best()) && view.Below() == old(view.Below())
      invariant forall j :: 0 <= j < i ==> r.verifyScript(PrevOut(view.Coins(), tx.vin[j].prevout).scriptPubKey, tx, j)
    {
      var coins := PrevCoins(view, tx.vin[i].prevout);
      if !r.verifyScript(coins.vout[tx.vin[i].prevout.n].scriptPubKey, tx, i) { return false; }
    }
    ok := true;
  }

  method CheckUnpark(r: Rules, hashPrev: Hash, prevHeight: nat, view: CoinsViewCache, tx: Tx) returns (ok: bool)
    requires view.Layered() && view.Ok() && Ledger.HaveInputs(view.Coins(), tx.vin) && IsUnpark(r, tx)
    modifies view.Repr`cacheCoins
    ensures view.View() == old(view.View()) && view.Best() == old(view.Best()) && view.Below() == old(view.Below())
    ensures ok <==> Blocks.CheckUnpark(r, hashPrev, prevHeight, view.Coins(), tx)
  {
    hide CoinsViewCache.View, CoinsViewCache.Best, CoinsViewCache.Below;
    var o := tx.vin[0].prevout;
    var coins := PrevCoins(view, o);
    var txo := coins.vout[o.n];
    if !r.isPark(txo.scriptPubKey) { return false; }
    var park := r.extractPark(txo.scriptPubKey);
    if park.None? { return false; }
    var (nDuration, unparkDestination) := park.value;
    if prevHeight + 1 - coins.nHeight < nDuration { return false; }
    var premium := r.premium(hashPrev, coins.nHeight, txo.nValue, nDuration, tx.cUnit);
    if premium.None? || !MoneyRange(premium.value) { return false; }
    var nExpectedValueOut := txo.nValue + premium.value;
    if !MoneyRange(nExpectedValueOut) { return false; }
    if tx.ValueOut() != nExpectedValueOut { return false; }
    ok := UnparksTo(r, unparkDestination, coins.cUnit, tx);
  }

  method CheckInputs(r: Rules, hashPrev: Hash, prevHeight: nat, view: CoinsViewCache, tx: Tx, fScriptChecks: bool)
      returns (ok: bool)
    requires view.Layered() && view.Ok()
    modifies view.Repr`cacheCoins
    ensures view.View() == old(view.View()) && view.Best() == old(view.Best()) && view.Below() == old(view.Below())
    ensures ok <==> Blocks.CheckInputs(r, hashPrev, prevHeight, view.Coins(), tx, fScriptChecks)
  {
    hide CoinsViewCache.View, CoinsViewCache.Best, CoinsViewCache.Below;
    if !tx.Spends() { return true; }
    ok := HaveInputs(view, tx.vin);
    if !ok { return; }
    var nValueIn;
    ok, nValueIn := CheckEachInput(r, prevHeight, view, tx);
    if !ok { return; }
    if IsUnpark(r, tx) {
      ok := CheckUnpark(r, hashPrev, prevHeight, view, tx);
      if !ok { return; }
    }
    if !CheckFee(r, hashPrev, tx, nValueIn) { return false; }
    if fScriptChecks && !IsUnpark(r, tx) {
      ok := CheckScripts(r, view, tx);
    }
  }

  // ---------- ConnectBlock ----------

  method CountSigOps(r: Rules, nTime: nat, view: CoinsViewCache, nSigOps: nat, tx: Tx) returns (ok: bool, n: nat)
    requires view.Layered() && view.Ok()
    modifies view.Repr`cacheCoins
    ensures view.View() == old(view.View()) && view.Best() == old(view.Best()) && view.Below() == old(view.Below())
    ensures SigOpsWith(r, nTime, view.Coins(), nSigOps, tx) == if ok then Some(n) else None
  {
    hide CoinsViewCache.View, CoinsViewCache.Best, CoinsViewCache.Below;
    ok, n := false, nSigOps + r.legacySigOps(tx);
    if n > MAX_BLOCK_SIGOPS { return; }
    if tx.Spends() {
      ok := HaveInputs(view, tx.vin);
      if !ok { return; }
      if nTime >= BIP16_SWITCH_TIME {
        var p2sh := GetP2SHSigOpCount(r, view, tx);
        n := n + p2sh;
        if n > MAX_BLOCK_SIGOPS { ok := false; return; }
      }
    }
    ok := true;
  }

  // One turn of the transaction loop of ConnectBlock.
  method ConnectTx(r: Rules, ctx: Context, nTime: nat, view: CoinsViewCache, tx: Tx, ghost acc: Connected,
                   vtxundo: seq<seq<TxInUndo>>, nSigOps: nat, valueIn: Amounts, valueOut: Amounts)
      returns (ok: bool, vtxundo': seq<seq<TxInUndo>>, nSigOps': nat, valueIn': Amounts, valueOut': Amounts)
    requires view.Layered() && view.Ok() && ctx.nHeight > 0 && ProperOutputs(tx) && DistinctInputs(tx.vin)
    requires acc == Connected(view.Coins(), vtxundo, nSigOps, valueIn, valueOut)
    modifies view.Repr`cacheCoins
    ensures ok <==> Blocks.ConnectTx(r, ctx, nTime, acc, tx).Some?
    ensures ok ==> view.Ok() && Blocks.ConnectTx(r, ctx, nTime, acc, tx).value
                                == Connected(view.Coins(), vtxundo', nSigOps', valueIn', valueOut')
    ensures view.Best() == old(view.Best()) && view.Below() == old(view.Below())
  {
    hide CoinsViewCache.View, CoinsViewCache.Best, CoinsViewCache.Below;
    vtxundo', valueIn', valueOut' := vtxundo, valueIn, AddAmount(valueOut, tx.cUnit, tx.ValueOut());
    ok, nSigOps' := CountSigOps(r, nTime, view, nSigOps, tx);
    if !ok { return; }
    if tx.Spends() {
      var nTxValueIn := GetValueIn(view, tx.vin);
      valueIn' := AddAmount(valueIn, tx.cUnit, nTxValueIn);
      HaveInputsSuffices(acc.utxo, tx.vin);
    }
    ok := CheckInputs(r, ctx.hashPrev, ctx.nHeight - 1, view, tx, ctx.nHeight >= r.checkpointHeight);
    assert view.Coins() == acc.utxo;
    assert ok <==> Blocks.ConnectTx(r, ctx, nTime, acc, tx).Some?;
    if !ok { return; }
    var undos := UpdateCoins(view, tx, ctx.nHeight);
    if !tx.IsCoinBase() { vtxundo' := vtxundo + [undos]; }
  }

  lemma {:induction false} ConnectTxsPrefix(r: Rules, ctx: Context, nTime: nat, u: Utxo, vtx: seq<Tx>, k: nat)
    requires ctx.nHeight > 0 && k <= |vtx| && ConnectTxs(r, ctx, nTime, u, vtx).Some?
    ensures ConnectTxs(r, ctx, nTime, u, vtx[..k]).Some?
    decreases |vtx|
  {
    if k == |vtx| {
      assert vtx[..k] == vtx;
    } else {
      ConnectTxsPrefix(r, ctx, nTime, u, vtx[..|vtx| - 1], k);
      assert vtx[..|vtx| - 1][..k] == vtx[..k];
    }
  }

  method CheckBIP30(view: CoinsViewCache, vtx: seq<Tx>) returns (ok: bool)
    requires view.Layered() && view.Ok()
    modifies view.Repr`cacheCoins
    ensures view.View() == old(view.View()) && view.Best() == old(view.Best()) && view.Below() == old(view.Below())
    ensures ok <==> !Overwrites(view.Coins(), vtx)
  {
    hide CoinsViewCache.View, CoinsViewCache.Best, CoinsViewCache.Below;
    for i := 0 to |vtx|
      invariant view.View() == old(view.View()) && view.Best() == old(view.Best()) && view.Below() == old(view.Below())
      invariant forall j :: 0 <= j < i ==> vtx[j].hash !in view.Coins()
    {
      var found, coins := view.GetCoins(vtx[i].hash);
      if found {
        PrunedIsEmpty(coins);
        if !coins.IsPruned() { return false; }
      }
    }
    ok := true;
  }

  // The transaction loop of ConnectBlock.
  method ConnectLoop(r: Rules, ctx: Context, nTime: nat, view: CoinsViewCache, vtx: seq<Tx>)
      returns (ok: bool, vtxundo: seq<seq<TxInUndo>>, nSigOps: nat, valueIn: Amounts, valueOut: Amounts)
    requires view.Layered() && view.Ok() && ctx.nHeight > 0
    requires forall i :: 0 <= i < |vtx| ==> ProperOutputs(vtx[i]) && DistinctInputs(vtx[i].vin)
    modifies view.Repr`cacheCoins
    ensures ok <==> ConnectTxs(r, ctx, nTime, old(view.Coins()), vtx).Some?
    ensures ok ==> view.Ok() && ConnectTxs(r, ctx, nTime, old(view.Coins()), vtx).value
                                == Connected(view.Coins(), vtxundo, nSigOps, valueIn, valueOut)
    ensures view.Best() == old(view.Best()) && view.Below() == old(view.Below())
  {
    hide Blocks.ConnectTx, ViewOk, Canon, CoinsViewCache.View, CoinsViewCache.Best, CoinsViewCache.Below;
    ok, vtxundo, nSigOps, valueIn, valueOut := true, [], 0, map[], map[];
    ghost var u := view.Coins();
    for i := 0 to |vtx|
      invariant view.Ok() && ConnectTxs(r, ctx, nTime, u, vtx[..i])
                             == Some(Connected(view.Coins(), vtxundo, nSigOps, valueIn, valueOut))
      invariant view.Best() == old(view.Best()) && view.Below() == old(view.Below())
    {
      assert vtx[..i + 1][..i] == vtx[..i];
      ghost var acc := Connected(view.Coins(), vtxundo, nSigOps, valueIn, valueOut);
      ok, vtxundo, nSigOps, valueIn, valueOut :=
        ConnectTx(r, ctx, nTime, view, vtx[i], acc, vtxundo, nSigOps, valueIn, valueOut);
      if !ok {
        if ConnectTxs(r, ctx, nTime, u, vtx).Some? { ConnectTxsPrefix(r, ctx, nTime, u, vtx, i + 1); }
        return;
      }
    }
    assert vtx[..|vtx|] == vtx;
    ok := true;
  }

  // An index entry whose place in the tree is as AcceptBlock made it.
  ghost predicate Placed(hashGenesis: Hash, pindex: BlockIndex) {
    && (pindex.pprev == null <==> pindex.block.hash == hashGenesis)
    && (pindex.pprev != null ==> pindex.nHeight == pindex.pprev.nHeight + 1)
  }

  ghost predicate SupplyMoved(now: Amounts, prev: Amounts, valueIn: Amounts, valueOut: Amounts) {
    forall c :: IsValidUnit(c) ==> Amount(now, c) == Amount(prev, c) + Amount(valueOut, c) - Amount(valueIn, c)
  }

  // The loop over sAvailableUnits.
  method UpdateSupply(supply: Amounts, prev: Amounts, valueIn: Amounts, valueOut: Amounts) returns (r: Amounts)
    ensures SupplyMoved(r, prev, valueIn, valueOut)
  {
    r := supply;
    var units := "SB";
    for i := 0 to |units|
      invariant forall j :: 0 <= j < i ==>
                  Amount(r, units[j]) == Amount(prev, units[j]) + Amount(valueOut, units[j]) - Amount(valueIn, units[j])
    {
      var c := units[i];
      r := r[c := Amount(prev, c) + Amount(valueOut, c) - Amount(valueIn, c)];
    }
    assert units[0] == 'S' && units[1] == 'B';
  }

  // ConnectBlock up to the point where the block has been accepted.
  method ConnectAbove(r: Rules, pindex: BlockIndex, view: CoinsViewCache)
      returns (ok: bool, vtxundo: seq<seq<TxInUndo>>, valueIn: Amounts, valueOut: Amounts)
    requires view.Layered() && view.Ok() && pindex.pprev != null && pindex.nHeight > 0
    modifies view.Repr`cacheCoins
    ensures view.Best() == old(view.Best()) && view.Below() == old(view.Below())
    ensures var res := Blocks.ConnectBlock(r, pindex.Ctx(), old(view.Coins()), pindex.block);
            && (ok <==> res.Some?)
            && (ok ==> view.Ok() && res.value.utxo == view.Coins() && res.value.vtxundo == vtxundo
                       && res.value.valueIn == valueIn && res.value.valueOut == valueOut)
  {
    hide CoinsViewCache.View, CoinsViewCache.Best, CoinsViewCache.Below;
    vtxundo, valueIn, valueOut := [], map[], map[];
    if !CheckBlock(r, pindex.block) { return false, vtxundo, valueIn, valueOut; }
    var ctx := pindex.Ctx();
    if EnforceBIP30(ctx) {
      ok := CheckBIP30(view, pindex.block.vtx);
      if !ok { return; }
    }
    CheckBlockIsProper(r, pindex.block);
    var nSigOps;
    ok, vtxundo, nSigOps, valueIn, valueOut := ConnectLoop(r, ctx, pindex.block.nTime, view, pindex.block.vtx);
  }

  // ConnectBlock. The genesis transactions are skipped. Undo data is written once, the first time
  // the block is connected, and kept as it will be read.
  method ConnectBlock(r: Rules, hashGenesis: Hash, pindex: BlockIndex, view: CoinsViewCache) returns (ok: bool)
    requires view.Layered() && view.Ok() && view.Best() == pindex.pprev && Placed(hashGenesis, pindex)
    modifies view.Repr`cacheCoins, view.Repr`pindexTip, pindex`undo, pindex`mapMoneySupply
    ensures view.Below() == old(view.Below())
    ensures ok ==> view.Ok() && view.Best() == pindex == view.pindexTip
    ensures !ok ==> pindex.undo == old(pindex.undo) && pindex.mapMoneySupply == old(pindex.mapMoneySupply)
    ensures pindex.pprev == null ==>
              && (ok <==> CheckBlock(r, pindex.block)) && view.Coins() == old(view.Coins())
              && pindex.undo == old(pindex.undo) && pindex.mapMoneySupply == old(pindex.mapMoneySupply)
    ensures pindex.pprev != null ==>
              var res := Blocks.ConnectBlock(r, pindex.Ctx(), old(view.Coins()), pindex.block);
              && (ok <==> res.Some?)
              && (ok ==> view.Coins() == res.value.utxo
                         && pindex.undo == (if old(pindex.undo).None? then Some(StoredBlockUndo(res.value.vtxundo)) else old(pindex.undo))
                         && SupplyMoved(pindex.mapMoneySupply, pindex.pprev.mapMoneySupply,
                                        res.value.valueIn, res.value.valueOut))
  {
    hide Blocks.ConnectBlock, CheckBlock, SupplyMoved, StoredBlockUndo, ViewOk, Canon, CoinsViewCache.View, CoinsViewCache.Best, CoinsViewCache.Below;
    if pindex.block.hash == hashGenesis {
      ok := CheckBlock(r, pindex.block);
      if ok { view.SetBestBlock(pindex); }
      return;
    }
    var vtxundo, valueIn, valueOut;
    ok, vtxundo, valueIn, valueOut := ConnectAbove(r, pindex, view);
    if !ok { return; }
    var supply := UpdateSupply(pindex.mapMoneySupply, pindex.pprev.mapMoneySupply, valueIn, valueOut);
    view.SetBestBlock(pindex);
    ghost var below, coins, best := view.Below(), view.Coins(), view.Best();
    pindex.mapMoneySupply, pindex.undo := supply, if pindex.undo.None? then Some(StoredBlockUndo(vtxundo)) else pindex.undo;
    assert view.Below() == below && view.Coins() == coins && view.Best() == best;
  }

  // ---------- DisconnectBlock ----------

  lemma PadTrimmed(vout: seq<TxOut>, n: nat, txout: TxOut)
    requires Trimmed(vout) && !txout.IsNull()
    ensures Trimmed(Pad(vout, n + 1)[n := txout]) && Pad(vout, n + 1)[n := txout] != []
  {}

  lemma RestoredIsOk(c0: Coins, n: nat, undo: TxInUndo)
    requires Trimmed(c0.vout) && !undo.txout.IsNull() && (undo.nHeight != 0 || c0.nHeight > 0)
    ensures var d := Restored(c0, n, undo); Trimmed(d.vout) && d.vout != [] && d.nHeight > 0
  {
    PadTrimmed(RestoreBase(c0, undo).vout, n, undo.txout);
  }

  lemma {:induction false} RestoreInView(view: map<Hash, Coins>, o: OutPoint, undo: TxInUndo)
    requires ViewOk(view) && !undo.txout.IsNull()
    ensures var c0 := if o.hash in view then view[o.hash] else NoCoins;
            var one := UnspendOne(Canon(view), o, undo);
            && (one.clean <==> (undo.nHeight != 0 <==> c0.IsPruned()) && !RestoreBase(c0, undo).IsAvailable(o.n))
            && (one.clean ==> ViewOk(view[o.hash := Restored(c0, o.n, undo)])
                              && Canon(view[o.hash := Restored(c0, o.n, undo)]) == one.utxo)
  {
    var c0 := if o.hash in view then view[o.hash] else NoCoins;
    PrunedIsEmpty(c0);
    assert o.hash in Canon(view) <==> !c0.IsPruned();
    var d := Restored(c0, o.n, undo);
    CanonUpdate(view, o.hash, d);
    if undo.nHeight != 0 <==> c0.IsPruned() {
      RestoredIsOk(c0, o.n, undo);
      if undo.nHeight != 0 { assert d == Restored(NoCoins, o.n, undo); }
    }
  }

  // Comparing the record of a transaction and erasing it, in a view that may hold pruned records.
  lemma EraseInView(view: map<Hash, Coins>, tx: Tx, nHeight: nat)
    requires ViewOk(view) && ProperOutputs(tx)
    ensures var outs := if tx.hash in view then view[tx.hash] else NoCoins;
            WithVersion(outs, tx.nVersion) == CoinsOf(tx, nHeight)
            <==> tx.hash in Canon(view) && WithVersion(Canon(view)[tx.hash], tx.nVersion) == CoinsOf(tx, nHeight)
    ensures ViewOk(view[tx.hash := NoCoins]) && Canon(view[tx.hash := NoCoins]) == Canon(view) - {tx.hash}
  {
    CanonUpdate(view, tx.hash, NoCoins);
  }

  // One turn of the input loop of DisconnectBlock.
  method RestoreInput(view: CoinsViewCache, o: OutPoint, undo: TxInUndo) returns (clean: bool)
    requires view.Layered()
    modifies view.Repr`cacheCoins
    ensures var c0 := if o.hash in old(view.View()) then old(view.View())[o.hash] else NoCoins;
            && view.View() == old(view.View())[o.hash := Restored(c0, o.n, undo)]
            && (clean <==> (undo.nHeight != 0 <==> c0.IsPruned()) && !RestoreBase(c0, undo).IsAvailable(o.n))
    ensures view.Best() == old(view.Best()) && view.Below() == old(view.Below())
  {
    hide CoinsViewCache.View, CoinsViewCache.Best, CoinsViewCache.Below;
    var found, coins := view.GetCoins(o.hash);
    clean := true;
    if undo.nHeight != 0 {
      if !coins.IsPruned() { clean := false; }
      coins := NoCoins;
      coins := coins.(fCoinBase := undo.fCoinBase, nHeight := undo.nHeight, nVersion := undo.nVersion,
                      fCoinStake := undo.fCoinStake, nTime := undo.nTime, cUnit := undo.cUnit);
    } else {
      if coins.IsPruned() { clean := false; }
    }
    if coins.IsAvailable(o.n) { clean := false; }
    var vout := Pad(coins.vout, o.n + 1);
    view.SetCoins(o.hash, coins.(vout := vout[o.n := undo.txout]));
  }

  // Undo data as ConnectBlock writes it never restores a null output.
  ghost predicate RealOutputs(undos: seq<TxInUndo>) {
    forall i :: 0 <= i < |undos| ==> !undos[i].txout.IsNull()
  }

  // The input loop of DisconnectBlock.
  method RestoreInputs(view: CoinsViewCache, vin: seq<TxIn>, undos: seq<TxInUndo>) returns (clean: bool)
    requires view.Layered() && |vin| == |undos| && RealOutputs(undos)
    modifies view.Repr`cacheCoins
    ensures old(view.Ok()) ==> (clean <==> UnspendAll(old(view.Coins()), vin, undos).clean)
    ensures old(view.Ok()) && clean ==> view.Ok() && view.Coins() == UnspendAll(old(view.Coins()), vin, undos).utxo
    ensures view.Best() == old(view.Best()) && view.Below() == old(view.Below())
  {
    hide UnspendOne, ViewOk, Canon, CoinsViewCache.View, CoinsViewCache.Best, CoinsViewCache.Below;
    clean := true;
    ghost var ok, all := view.Ok(), UnspendAll(view.Coins(), vin, undos);
    var j := |vin|;
    assert vin[..j] == vin && undos[..j] == undos;
    while j > 0
      invariant 0 <= j <= |vin|
      invariant ok && clean ==> view.Ok() && all == UnspendAll(view.Coins(), vin[..j], undos[..j])
      invariant ok && !clean ==> !all.clean
      invariant view.Best() == old(view.Best()) && view.Below() == old(view.Below())
    {
      j := j - 1;
      assert vin[..j + 1][..j] == vin[..j] && undos[..j + 1][..j] == undos[..j];
      if ok && clean { RestoreInView(view.View(), vin[j].prevout, undos[j]); }
      var one := RestoreInput(view, vin[j].prevout, undos[j]);
      clean := clean && one;
    }
  }

  // The outputs of the transaction are compared with what it should have left, then removed.
  method EraseOutputs(view: CoinsViewCache, tx: Tx, nHeight: nat) returns (clean: bool)
    requires view.Layered() && ProperOutputs(tx)
    modifies view.Repr`cacheCoins
    ensures old(view.Ok()) ==>
              && view.Ok() && view.Coins() == old(view.Coins()) - {tx.hash}
              && (clean <==> tx.hash in old(view.Coins())
                             && WithVersion(old(view.Coins())[tx.hash], tx.nVersion) == CoinsOf(tx, nHeight))
    ensures view.Best() == old(view.Best()) && view.Below() == old(view.Below())
  {
    hide CoinsViewCache.View, CoinsViewCache.Best, CoinsViewCache.Below;
    clean := true;
    if view.Ok() { EraseInView(view.View(), tx, nHeight); }
    var found, outs := view.GetCoins(tx.hash);
    if !found { clean := false; }
    var outsBlock := CoinsOf(tx, nHeight);
    if outsBlock.nVersion < 0 { outs := outs.(nVersion := outsBlock.nVersion); }
    if outs != outsBlock { clean := false; }
    view.SetCoins(tx.hash, NoCoins);
  }

  // One turn of the transaction loop of DisconnectBlock.
  method DisconnectTx(view: CoinsViewCache, tx: Tx, nHeight: nat, restore: bool, undos: seq<TxInUndo>)
      returns (ok: bool, clean: bool)
    requires view.Layered() && ProperOutputs(tx) && RealOutputs(undos)
    modifies view.Repr`cacheCoins
    ensures old(view.Ok()) ==> (ok <==> UndoTx(old(view.Coins()), tx, nHeight, restore, undos).Some?)
    ensures old(view.Ok()) && ok ==> (clean <==> UndoTx(old(view.Coins()), tx, nHeight, restore, undos).value.clean)
    ensures old(view.Ok()) && ok && clean ==>
              view.Ok() && view.Coins() == UndoTx(old(view.Coins()), tx, nHeight, restore, undos).value.utxo
    ensures view.Best() == old(view.Best()) && view.Below() == old(view.Below())
  {
    hide CoinsViewCache.View, CoinsViewCache.Best, CoinsViewCache.Below;
    ok := true;
    clean := EraseOutputs(view, tx, nHeight);
    if restore {
      if |undos| != |tx.vin| { ok := false; return; }
      var rest := RestoreInputs(view, tx.vin, undos);
      clean := clean && rest;
    }
  }

  // DisconnectBlock. It succeeds exactly when the stored undo data fits and nothing inconsistent
  // is found on the way; the view is then at the parent block.
  method DisconnectBlock(pindex: BlockIndex, view: CoinsViewCache) returns (ok: bool)
    requires view.Layered() && view.Ok() && view.Best() == pindex && pindex.pprev != null
    requires ProperTxs(pindex.block.vtx)
    requires pindex.undo.Some? ==> forall i :: 0 <= i < |pindex.undo.value| ==> RealOutputs(pindex.undo.value[i])
    modifies view.Repr`cacheCoins, view.Repr`pindexTip
    ensures view.Below() == old(view.Below())
    ensures ok <==> pindex.undo.Some?
                    && var res := Blocks.DisconnectBlock(old(view.Coins()), pindex.block, pindex.nHeight, pindex.undo.value);
                       res.Some? && res.value.clean
    ensures ok ==> && view.Ok() && view.Best() == pindex.pprev == view.pindexTip
                   && view.Coins() == Blocks.DisconnectBlock(old(view.Coins()), pindex.block, pindex.nHeight,
                                                             pindex.undo.value).value.utxo
  {
    hide CoinsViewCache.View, CoinsViewCache.Best, CoinsViewCache.Below;
    if pindex.undo.None? { return false; }
    var vtxundo, vtx := pindex.undo.value, pindex.block.vtx;
    if |vtxundo| + 1 != |vtx| { return false; }
    ok := DisconnectLoop(view, vtx, pindex.nHeight, vtxundo);
    if ok { view.SetBestBlock(pindex.pprev); }
  }

  // The transaction loop of DisconnectBlock, with fClean and the early errors in one result.
  method DisconnectLoop(view: CoinsViewCache, vtx: seq<Tx>, nHeight: nat, vtxundo: seq<seq<TxInUndo>>)
      returns (ok: bool)
    requires view.Layered() && view.Ok() && ProperTxs(vtx) && |vtxundo| + 1 == |vtx|
    requires forall i :: 0 <= i < |vtxundo| ==> RealOutputs(vtxundo[i])
    modifies view.Repr`cacheCoins
    ensures var res := UndoTxs(old(view.Coins()), vtx, nHeight, vtxundo);
            && (ok <==> res.Some? && res.value.clean)
            && (ok ==> view.Ok() && view.Coins() == res.value.utxo)
    ensures view.Best() == old(view.Best()) && view.Below() == old(view.Below())
  {
    hide CoinsViewCache.View, CoinsViewCache.Best, CoinsViewCache.Below;
    var fClean := true;
    ghost var all := UndoTxs(view.Coins(), vtx, nHeight, vtxundo);
    var i := |vtx|;
    assert vtx[..i] == vtx && vtxundo[..i - 1] == vtxundo;
    while i > 0
      invariant 0 <= i <= |vtx|
      invariant fClean ==> view.Ok()
                           && all == UndoTxs(view.Coins(), vtx[..i], nHeight, if i > 0 then vtxundo[..i - 1] else [])
      invariant !fClean ==> all.None? || !all.value.clean
      invariant view.Best() == old(view.Best()) && view.Below() == old(view.Below())
    {
      i := i - 1;
      assert vtx[..i + 1][..i] == vtx[..i];
      if i > 0 { assert vtxundo[..i][..i - 1] == vtxundo[..i - 1]; }
      var one;
      ok, one := DisconnectTx(view, vtx[i], nHeight, i > 0 && !vtx[i].IsCustodianGrant(),
                              if i > 0 then vtxundo[i - 1] else []);
      if !ok { return; }
      fClean := fClean && one;
    }
    ok := fClean;
  }
}
