/** What happens to transaction versions on their way through the disk. A version below zero is stored as a
    number from 0 to 127, so a view, and undo data, may hold either. Nothing else depends on the version. */
module Versions {
  import opened Ledger
  import opened Blocks

  // v is u, where some records have been written to disk and read back.
  ghost predicate Faded(v: Utxo, u: Utxo) {
    v.Keys == u.Keys && forall h {:trigger v[h]} {:trigger u[h]} :: h in u ==> FadedCoins(v[h], u[h])
  }

  predicate FadedCoins(d: Coins, c: Coins) { d == c || d == StoredCoins(c) }

  // All of u, written and read back.
  function StoredUtxo(u: Utxo): Utxo { map h | h in u :: StoredCoins(u[h]) }

  function StoredUndos(undos: seq<TxInUndo>): (s: seq<TxInUndo>)
    ensures |s| == |undos| && forall j :: 0 <= j < |undos| ==> s[j] == StoredUndo(undos[j])
  {
    seq(|undos|, j requires 0 <= j < |undos| => StoredUndo(undos[j]))
  }

  function StoredBlockUndo(vtxundo: seq<seq<TxInUndo>>): (s: seq<seq<TxInUndo>>)
    ensures |s| == |vtxundo| && forall i :: 0 <= i < |vtxundo| ==> s[i] == StoredUndos(vtxundo[i])
  {
    seq(|vtxundo|, i requires 0 <= i < |vtxundo| => StoredUndos(vtxundo[i]))
  }

  ghost predicate NoNegative(u: Utxo) { forall h {:trigger u[h]} :: h in u ==> u[h].nVersion >= 0 }

  lemma FadedAgain(w: Utxo, v: Utxo, u: Utxo)
    requires Faded(w, v) && Faded(v, u)
    ensures Faded(w, u)
  {}

  lemma FadedSame(u: Utxo)
    ensures Faded(u, u) && Faded(StoredUtxo(u), u)
  {}

  lemma StoredSame(v: Utxo, u: Utxo)
    requires Faded(v, u)
    ensures StoredUtxo(v) == StoredUtxo(u)
  {}

  // v holds u: exactly, if no version is negative; and if it has all been written to disk only then exactly,
  // and otherwise with the stored versions.
  ghost predicate HoldsFor(v: Utxo, u: Utxo, written: bool) {
    && Faded(v, u) && (NoNegative(u) ==> v == u)
    && (written ==> v == StoredUtxo(u) && (v == u <==> NoNegative(u)))
  }

  lemma HoldsIfFaded(v: Utxo, u: Utxo, written: bool)
    requires Faded(v, u) && (written ==> v == StoredUtxo(u))
    ensures HoldsFor(v, u, written)
  {
    StoredIff(u);
  }

  lemma StoredIff(u: Utxo)
    ensures StoredUtxo(u) == u <==> NoNegative(u)
  {
    forall h | h in u ensures StoredUtxo(u)[h] == u[h] <==> u[h].nVersion >= 0 {}
  }

  // When everything has been through the disk exactly the stored versions are left, and those are the
  // right ones if and only if none is negative.
  lemma AllStored(v: Utxo, u: Utxo)
    requires Faded(v, u) && NoNegative(v)
    ensures v == StoredUtxo(u) && (v == u <==> NoNegative(u))
  {
    forall h | h in u ensures v[h] == StoredCoins(u[h]) && (v[h] == u[h] <==> u[h].nVersion >= 0) {}
  }

  // ---------- connecting ----------

  lemma SpentFades(d: Coins, c: Coins, n: nat)
    requires FadedCoins(d, c)
    ensures d.IsAvailable(n) <==> c.IsAvailable(n)
    ensures c.IsAvailable(n) ==> FadedCoins(Spent(d, n), Spent(c, n)) && StoredUndo(UndoFor(d, n)) == StoredUndo(UndoFor(c, n))
  {}

  lemma SpendOneFades(v: Utxo, u: Utxo, o: OutPoint)
    requires Faded(v, u)
    ensures Unspent(v, o) <==> Unspent(u, o)
    ensures Unspent(u, o) ==>
              && SpendOne(u, o).Some? && SpendOne(v, o).Some?
              && Faded(SpendOne(v, o).value.0, SpendOne(u, o).value.0)
              && StoredUndo(SpendOne(v, o).value.1) == StoredUndo(SpendOne(u, o).value.1)
  {
    if o.hash in u { SpentFades(v[o.hash], u[o.hash], o.n); }
  }

  lemma {:induction false} SpendAllFades(v: Utxo, u: Utxo, vin: seq<TxIn>)
    requires Faded(v, u)
    ensures SpendAll(v, vin).Some? <==> SpendAll(u, vin).Some?
    ensures SpendAll(u, vin).Some? ==>
              && Faded(SpendAll(v, vin).value.0, SpendAll(u, vin).value.0)
              && StoredUndos(SpendAll(v, vin).value.1) == StoredUndos(SpendAll(u, vin).value.1)
  {
    hide Faded, Unspent;
    if vin != [] {
      var n := |vin| - 1;
      SpendAllFades(v, u, vin[..n]);
      if SpendAll(u, vin[..n]).Some? {
        var (v1, dv) := SpendAll(v, vin[..n]).value;
        var (u1, du) := SpendAll(u, vin[..n]).value;
        SpendOneFades(v1, u1, vin[n].prevout);
        StoredUndosNext(dv, du, vin[n].prevout, v1, u1);
      }
    }
  }

  lemma StoredUndosNext(dv: seq<TxInUndo>, du: seq<TxInUndo>, o: OutPoint, v: Utxo, u: Utxo)
    requires StoredUndos(dv) == StoredUndos(du)
    ensures SpendOne(v, o).Some? && SpendOne(u, o).Some? && StoredUndo(SpendOne(v, o).value.1) == StoredUndo(SpendOne(u, o).value.1) ==>
              StoredUndos(dv + [SpendOne(v, o).value.1]) == StoredUndos(du + [SpendOne(u, o).value.1])
  {
    hide SpendOne, StoredUndo;
    if SpendOne(v, o).Some? && SpendOne(u, o).Some? {
      var a, b := dv + [SpendOne(v, o).value.1], du + [SpendOne(u, o).value.1];
      assert forall j :: 0 <= j < |dv| ==> StoredUndos(a)[j] == StoredUndos(dv)[j] && StoredUndos(b)[j] == StoredUndos(du)[j];
    }
  }

  lemma UpdateCoinsFades(v: Utxo, u: Utxo, tx: Tx, nHeight: nat)
    requires Faded(v, u)
    ensures UpdateCoins(v, tx, nHeight).Some? <==> UpdateCoins(u, tx, nHeight).Some?
    ensures UpdateCoins(u, tx, nHeight).Some? ==>
              && Faded(UpdateCoins(v, tx, nHeight).value.0, UpdateCoins(u, tx, nHeight).value.0)
              && StoredUndos(UpdateCoins(v, tx, nHeight).value.1) == StoredUndos(UpdateCoins(u, tx, nHeight).value.1)
  {
    if tx.Spends() { SpendAllFades(v, u, tx.vin); }
  }

  // What the rules read of an input.
  lemma SameOutputs(v: Utxo, u: Utxo, vin: seq<TxIn>)
    requires Faded(v, u)
    ensures HaveInputs(v, vin) <==> HaveInputs(u, vin)
    ensures forall i :: 0 <= i < |vin| && Unspent(u, vin[i].prevout) ==>
              PrevOut(v, vin[i].prevout) == PrevOut(u, vin[i].prevout)
  {
    assert forall i :: 0 <= i < |vin| ==> (Unspent(v, vin[i].prevout) <==> Unspent(u, vin[i].prevout));
  }

  lemma {:induction false} SameSumIn(v: Utxo, u: Utxo, vin: seq<TxIn>)
    requires Faded(v, u) && HaveInputs(u, vin)
    ensures HaveInputs(v, vin) && SumIn(v, vin) == SumIn(u, vin)
  {
    SameOutputs(v, u, vin);
    if vin != [] { SameSumIn(v, u, vin[..|vin| - 1]); }
  }

  lemma {:induction false} SameP2SHSigOps(r: Rules, v: Utxo, u: Utxo, tx: Tx, k: nat)
    requires Faded(v, u) && k <= |tx.vin| && HaveInputs(u, tx.vin)
    ensures HaveInputs(v, tx.vin) && P2SHSigOps(r, v, tx, k) == P2SHSigOps(r, u, tx, k)
  {
    SameOutputs(v, u, tx.vin);
    if k > 0 { SameP2SHSigOps(r, v, u, tx, k - 1); }
  }

  lemma SameCheckInput(r: Rules, prevHeight: nat, v: Utxo, u: Utxo, tx: Tx, i: nat)
    requires Faded(v, u) && i < |tx.vin| && HaveInputs(u, tx.vin)
    ensures HaveInputs(v, tx.vin) && (CheckInput(r, prevHeight, v, tx, i) <==> CheckInput(r, prevHeight, u, tx, i))
  {
    SameOutputs(v, u, tx.vin);
    assert HaveInputs(u, tx.vin[..i + 1]);
    SameSumIn(v, u, tx.vin[..i + 1]);
    hide SumIn;
  }

  lemma SameCheckInputs(r: Rules, hashPrev: Hash, prevHeight: nat, v: Utxo, u: Utxo, tx: Tx, fScriptChecks: bool)
    requires Faded(v, u)
    ensures CheckInputs(r, hashPrev, prevHeight, v, tx, fScriptChecks) <==> CheckInputs(r, hashPrev, prevHeight, u, tx, fScriptChecks)
  {
    SameOutputs(v, u, tx.vin);
    if HaveInputs(u, tx.vin) {
      SameSumIn(v, u, tx.vin);
      forall i | 0 <= i < |tx.vin|
        ensures CheckInput(r, prevHeight, v, tx, i) <==> CheckInput(r, prevHeight, u, tx, i)
      {
        SameCheckInput(r, prevHeight, v, u, tx, i);
      }
      if IsUnpark(r, tx) { assert CheckUnpark(r, hashPrev, prevHeight, v, tx) <==> CheckUnpark(r, hashPrev, prevHeight, u, tx); }
      hide Faded, CheckInput, CheckUnpark, CheckFee, SumIn;
    }
  }

  // The outcome of connecting, but for versions.
  ghost predicate FadedConnected(d: Connected, c: Connected) {
    && Faded(d.utxo, c.utxo) && StoredBlockUndo(d.vtxundo) == StoredBlockUndo(c.vtxundo)
    && d.nSigOps == c.nSigOps && d.valueIn == c.valueIn && d.valueOut == c.valueOut
  }

  lemma SameSigOps(r: Rules, nTime: nat, v: Utxo, u: Utxo, nSigOps: nat, tx: Tx)
    requires Faded(v, u)
    ensures SigOpsWith(r, nTime, v, nSigOps, tx) == SigOpsWith(r, nTime, u, nSigOps, tx)
    ensures SigOpsWith(r, nTime, u, nSigOps, tx).Some? && tx.Spends() ==> HaveInputs(u, tx.vin)
  {
    SameOutputs(v, u, tx.vin);
    if HaveInputs(u, tx.vin) { SameP2SHSigOps(r, v, u, tx, |tx.vin|); }
  }

  lemma BlockUndoNext(a: seq<seq<TxInUndo>>, b: seq<seq<TxInUndo>>, x: seq<TxInUndo>, y: seq<TxInUndo>)
    requires StoredBlockUndo(a) == StoredBlockUndo(b) && StoredUndos(x) == StoredUndos(y)
    ensures StoredBlockUndo(a + [x]) == StoredBlockUndo(b + [y])
  {
    hide StoredUndos;
    assert |a| == |b|;
    forall i | 0 <= i < |a| + 1 ensures StoredBlockUndo(a + [x])[i] == StoredBlockUndo(b + [y])[i] {
      if i < |a| { assert StoredBlockUndo(a)[i] == StoredBlockUndo(b)[i]; }
    }
  }

  lemma ConnectTxFades(r: Rules, ctx: Context, nTime: nat, d: Connected, c: Connected, tx: Tx)
    requires ctx.nHeight > 0 && FadedConnected(d, c)
    ensures ConnectTx(r, ctx, nTime, d, tx).Some? <==> ConnectTx(r, ctx, nTime, c, tx).Some?
    ensures ConnectTx(r, ctx, nTime, c, tx).Some? ==>
              FadedConnected(ConnectTx(r, ctx, nTime, d, tx).value, ConnectTx(r, ctx, nTime, c, tx).value)
  {
    hide SigOpsWith, CheckInputs, UpdateCoins, Faded, SumIn, StoredBlockUndo, StoredUndos, AddAmount, SumOut,
      Tx.Spends, Tx.IsCoinBase, Tx.IsCustodianGrant, HaveInputs;
    SameSigOps(r, nTime, d.utxo, c.utxo, c.nSigOps, tx);
    SameCheckInputs(r, ctx.hashPrev, ctx.nHeight - 1, d.utxo, c.utxo, tx, ctx.nHeight >= r.checkpointHeight);
    UpdateCoinsFades(d.utxo, c.utxo, tx, ctx.nHeight);
    if HaveInputs(c.utxo, tx.vin) { SameSumIn(d.utxo, c.utxo, tx.vin); } else { SameOutputs(d.utxo, c.utxo, tx.vin); }
    if ConnectTx(r, ctx, nTime, c, tx).Some? {
      BlockUndoNext(d.vtxundo, c.vtxundo, UpdateCoins(d.utxo, tx, ctx.nHeight).value.1, UpdateCoins(c.utxo, tx, ctx.nHeight).value.1);
    }
  }

  lemma {:induction false} ConnectTxsFade(r: Rules, ctx: Context, nTime: nat, v: Utxo, u: Utxo, vtx: seq<Tx>)
    requires ctx.nHeight > 0 && Faded(v, u)
    ensures ConnectTxs(r, ctx, nTime, v, vtx).Some? <==> ConnectTxs(r, ctx, nTime, u, vtx).Some?
    ensures ConnectTxs(r, ctx, nTime, u, vtx).Some? ==>
              FadedConnected(ConnectTxs(r, ctx, nTime, v, vtx).value, ConnectTxs(r, ctx, nTime, u, vtx).value)
  {
    hide ConnectTx, Faded;
    if vtx != [] {
      var n := |vtx| - 1;
      ConnectTxsFade(r, ctx, nTime, v, u, vtx[..n]);
      if ConnectTxs(r, ctx, nTime, u, vtx[..n]).Some? {
        ConnectTxFades(r, ctx, nTime, ConnectTxs(r, ctx, nTime, v, vtx[..n]).value, ConnectTxs(r, ctx, nTime, u, vtx[..n]).value, vtx[n]);
      }
    }
  }

  // A block connects to what has been through the disk exactly when it connects to the original, and
  // stores the same undo data.
  lemma ConnectBlockFades(r: Rules, ctx: Context, v: Utxo, u: Utxo, b: Block)
    requires ctx.nHeight > 0 && Faded(v, u)
    ensures ConnectBlock(r, ctx, v, b).Some? <==> ConnectBlock(r, ctx, u, b).Some?
    ensures ConnectBlock(r, ctx, u, b).Some? ==>
              FadedConnected(ConnectBlock(r, ctx, v, b).value, ConnectBlock(r, ctx, u, b).value)
  {
    ConnectTxsFade(r, ctx, b.nTime, v, u, b.vtx);
    hide ConnectTxs, CheckBlock;
  }

  // ---------- disconnecting ----------

  lemma UnspendOneFades(v: Utxo, u: Utxo, o: OutPoint, undo: TxInUndo)
    requires Faded(v, u) && UnspendOne(u, o, undo).clean
    ensures UnspendOne(v, o, StoredUndo(undo)).clean
    ensures Faded(UnspendOne(v, o, StoredUndo(undo)).utxo, UnspendOne(u, o, undo).utxo)
  {}

  lemma {:induction false} UnspendAllFades(v: Utxo, u: Utxo, vin: seq<TxIn>, undos: seq<TxInUndo>)
    requires Faded(v, u) && |vin| == |undos| && UnspendAll(u, vin, undos).clean
    ensures UnspendAll(v, vin, StoredUndos(undos)).clean
    ensures Faded(UnspendAll(v, vin, StoredUndos(undos)).utxo, UnspendAll(u, vin, undos).utxo)
    decreases |vin|
  {
    hide UnspendOne, Faded;
    if vin != [] {
      var n := |vin| - 1;
      UnspendOneFades(v, u, vin[n].prevout, undos[n]);
      UnspendAllFades(UnspendOne(v, vin[n].prevout, StoredUndo(undos[n])).utxo, UnspendOne(u, vin[n].prevout, undos[n]).utxo,
                      vin[..n], undos[..n]);
      assert StoredUndos(undos)[..n] == StoredUndos(undos[..n]);
    }
  }

  lemma UndoTxFades(v: Utxo, u: Utxo, tx: Tx, nHeight: nat, restore: bool, undos: seq<TxInUndo>)
    requires Faded(v, u) && UndoTx(u, tx, nHeight, restore, undos).Some? && UndoTx(u, tx, nHeight, restore, undos).value.clean
    ensures var back := UndoTx(v, tx, nHeight, restore, StoredUndos(undos));
            back.Some? && back.value.clean && Faded(back.value.utxo, UndoTx(u, tx, nHeight, restore, undos).value.utxo)
  {
    assert Faded(v - {tx.hash}, u - {tx.hash});
    if restore { UnspendAllFades(v - {tx.hash}, u - {tx.hash}, tx.vin, undos); }
    hide UnspendAll, StoredUndos;
  }

  // ---------- which versions come back ----------

  lemma {:induction false} SpendAllVersion(u: Utxo, vin: seq<TxIn>, h: Hash)
    requires SpendAll(u, vin).Some?
    ensures var u' := SpendAll(u, vin).value.0;
            h in u' ==> h in u && u'[h].nVersion == u[h].nVersion
  {
    if vin != [] { SpendAllVersion(u, vin[..|vin| - 1], h); }
  }

  // Restoring one output keeps the version of a record that is still there and takes that of the undo data
  // for one that is gone.
  lemma UnspendOneVersion(v: Utxo, u: Utxo, o: OutPoint, h: Hash)
    requires Canonical(u) && Unspent(u, o) && h in u
    requires SpendOne(u, o).Some? && Faded(v, SpendOne(u, o).value.0)
    ensures var (u', undo) := SpendOne(u, o).value;
            var one := UnspendOne(v, o, StoredUndo(undo));
            && Faded(one.utxo, u)
            && one.utxo[h].nVersion == if h in u' then v[h].nVersion else StoredVersion(u[h].nVersion)
  {
    UnspendInvertsSpend(u, o);
    var (u', undo) := SpendOne(u, o).value;
    UnspendOneFades(v, u', o, undo);
  }

  lemma {:induction false} UnspendAllVersion(v: Utxo, u: Utxo, vin: seq<TxIn>, h: Hash)
    requires Canonical(u) && SpendAll(u, vin).Some? && Faded(v, SpendAll(u, vin).value.0) && h in u
    ensures var (u', undos) := SpendAll(u, vin).value;
            && |undos| == |vin|
            && var w := UnspendAll(v, vin, StoredUndos(undos)).utxo;
            h in w && w[h].nVersion == if h in u' then v[h].nVersion else StoredVersion(u[h].nVersion)
    decreases |vin|
  {
    hide UnspendOne, SpendOne, Faded, Canonical, StoredUndo;
    if vin == [] {
      FadedKeys(v, u);
    } else {
      var n := |vin| - 1;
      var (u1, undos1) := SpendAll(u, vin[..n]).value;
      var undo := SpendOne(u1, vin[n].prevout).value.1;
      UnspendAllInvertsSpendAll(u, vin[..n]);
      SpendAllVersion(u, vin[..n], h);
      LastVersion(v, u1, vin[n].prevout, h);
      UnspendAllVersion(UnspendOne(v, vin[n].prevout, StoredUndo(undo)).utxo, u, vin[..n], h);
      assert (undos1 + [undo])[..n] == undos1;
      assert StoredUndos(undos1 + [undo])[..n] == StoredUndos(undos1);
    }
  }

  lemma FadedKeys(v: Utxo, u: Utxo)
    requires Faded(v, u)
    ensures v.Keys == u.Keys
  {}

  lemma LastVersion(v: Utxo, u: Utxo, o: OutPoint, h: Hash)
    requires Canonical(u) && SpendOne(u, o).Some? && Faded(v, SpendOne(u, o).value.0)
    ensures var (u', undo) := SpendOne(u, o).value;
            var one := UnspendOne(v, o, StoredUndo(undo)).utxo;
            && Faded(one, u) && (h !in u ==> h !in u') && (h in u' ==> h in v)
            && (h in u ==> h in one && one[h].nVersion == if h in u' then v[h].nVersion else StoredVersion(u[h].nVersion))
  {
    if h in u {
      UnspendOneVersion(v, u, o, h);
    } else {
      UnspendOneVersion(v, u, o, o.hash);
    }
  }

  // The version of h once everything is undone: as in v if the record was there all the time.
  function LaterVersion(stays: bool, v: Utxo, u: Utxo, h: Hash): int
    requires h in u && (stays ==> h in v)
  {
    if stays then v[h].nVersion else StoredVersion(u[h].nVersion)
  }

  lemma UndoTxVersion(v: Utxo, u: Utxo, tx: Tx, nHeight: nat, h: Hash)
    requires Canonical(u) && nHeight > 0 && ProperOutputs(tx) && UpdateCoins(u, tx, nHeight).Some?
    requires tx.hash !in SpendInputs(u, tx).value.0 && Faded(v, UpdateCoins(u, tx, nHeight).value.0)
    ensures var (u', undos) := UpdateCoins(u, tx, nHeight).value;
            var back := UndoTx(v, tx, nHeight, tx.Spends(), StoredUndos(undos));
            && back.Some? && back.value.clean && Faded(back.value.utxo, u) && (h in SpendInputs(u, tx).value.0 ==> h in v && h in u)
            && (h in u ==> back.value.utxo[h].nVersion == if h in SpendInputs(u, tx).value.0 then v[h].nVersion else StoredVersion(u[h].nVersion))
  {
    UndoInvertsUpdate(u, tx, nHeight);
    var (u', undos) := UpdateCoins(u, tx, nHeight).value;
    UndoTxFades(v, u', tx, nHeight, tx.Spends(), undos);
    if tx.Spends() && h in u {
      var spent := SpendAll(u, tx.vin).value.0;
      assert Faded(v - {tx.hash}, spent);
      UnspendAllVersion(v - {tx.hash}, u, tx.vin, h);
    }
  }

  // The record of h keeps an unspent output all the way through the block.
  ghost predicate Stays(r: Rules, ctx: Context, nTime: nat, u: Utxo, vtx: seq<Tx>, h: Hash)
    requires ctx.nHeight > 0 && ConnectTxs(r, ctx, nTime, u, vtx).Some?
  {
    vtx == [] ||
    (var n := |vtx| - 1;
     && Stays(r, ctx, nTime, u, vtx[..n], h)
     && h in SpendInputs(ConnectTxs(r, ctx, nTime, u, vtx[..n]).value.utxo, vtx[n]).value.0)
  }

  lemma ConnectedVersion(r: Rules, ctx: Context, nTime: nat, acc: Connected, tx: Tx, h: Hash)
    requires ctx.nHeight > 0 && ConnectTx(r, ctx, nTime, acc, tx).Some? && tx.hash !in SpendInputs(acc.utxo, tx).value.0
    requires h in SpendInputs(acc.utxo, tx).value.0
    ensures var u := ConnectTx(r, ctx, nTime, acc, tx).value.utxo;
            h in u && h in acc.utxo && u[h].nVersion == acc.utxo[h].nVersion
  {
    if tx.Spends() { SpendAllVersion(acc.utxo, tx.vin, h); }
  }

  lemma {:induction false} StaysVersion(r: Rules, ctx: Context, nTime: nat, u: Utxo, vtx: seq<Tx>, h: Hash)
    requires ctx.nHeight > 0 && ConnectTxs(r, ctx, nTime, u, vtx).Some? && ReplacesNothing(r, ctx, nTime, u, vtx)
    requires h in u && Stays(r, ctx, nTime, u, vtx, h)
    ensures var c := ConnectTxs(r, ctx, nTime, u, vtx).value; h in c.utxo && c.utxo[h].nVersion == u[h].nVersion
  {
    hide ConnectTx, SpendInputs;
    if vtx != [] {
      var n := |vtx| - 1;
      StaysVersion(r, ctx, nTime, u, vtx[..n], h);
      ConnectedVersion(r, ctx, nTime, ConnectTxs(r, ctx, nTime, u, vtx[..n]).value, vtx[n], h);
    }
  }

  // Undoing the last transaction of a connected prefix with undo data from the disk.
  lemma UndoLastVersion(r: Rules, ctx: Context, nTime: nat, acc: Connected, tx: Tx, first: bool, v: Utxo, h: Hash)
    requires ctx.nHeight > 0 && Canonical(acc.utxo) && ProperOutputs(tx) && (tx.IsCoinBase() <==> first)
    requires ConnectTx(r, ctx, nTime, acc, tx).Some? && tx.hash !in SpendInputs(acc.utxo, tx).value.0
    requires Faded(v, ConnectTx(r, ctx, nTime, acc, tx).value.utxo)
    ensures var c := ConnectTx(r, ctx, nTime, acc, tx).value;
            && (first ==> c.vtxundo == acc.vtxundo)
            && (!first ==> |c.vtxundo| == |acc.vtxundo| + 1 && c.vtxundo[..|acc.vtxundo|] == acc.vtxundo)
            && var back := UndoTx(v, tx, ctx.nHeight, !first && !tx.IsCustodianGrant(),
                                  StoredUndos(if first then [] else c.vtxundo[|acc.vtxundo|]));
            && back.Some? && back.value.clean && Faded(back.value.utxo, acc.utxo)
            && back.value.utxo.Keys == acc.utxo.Keys && (h in SpendInputs(acc.utxo, tx).value.0 ==> h in v)
            && (h in acc.utxo ==>
                  back.value.utxo[h].nVersion == LaterVersion(h in SpendInputs(acc.utxo, tx).value.0, v, acc.utxo, h))
  {
    hide ConnectTx, Canonical, Faded, StoredUndos;
    ConnectTxShape(r, ctx, nTime, acc, tx);
    UndoTxVersion(v, acc.utxo, tx, ctx.nHeight, h);
    var back := UndoTx(v, tx, ctx.nHeight, tx.Spends(), StoredUndos(UpdateCoins(acc.utxo, tx, ctx.nHeight).value.1));
    FadedKeys(back.value.utxo, acc.utxo);
  }

  // What replacing nothing, and keeping an output of h, come to for the last transaction, which leaves spent
  // of the set before its outputs are added.
  ghost predicate LastSpent(r: Rules, ctx: Context, nTime: nat, u: Utxo, vtx: seq<Tx>, spent: Utxo, h: Hash)
    requires ctx.nHeight > 0 && vtx != [] && ConnectTxs(r, ctx, nTime, u, vtx).Some? && ConnectTxs(r, ctx, nTime, u, vtx[..|vtx| - 1]).Some?
  {
    var n := |vtx| - 1;
    && (ReplacesNothing(r, ctx, nTime, u, vtx) <==> ReplacesNothing(r, ctx, nTime, u, vtx[..n]) && vtx[n].hash !in spent)
    && (Stays(r, ctx, nTime, u, vtx, h) <==> Stays(r, ctx, nTime, u, vtx[..n], h) && h in spent)
  }

  // What is known of a block's last transaction and of the block without it.
  lemma LastConnected(r: Rules, ctx: Context, nTime: nat, u: Utxo, vtx: seq<Tx>, h: Hash) returns (acc: Connected)
    requires ctx.nHeight > 0 && Canonical(u) && ProperTxs(vtx) && vtx != [] && ConnectTxs(r, ctx, nTime, u, vtx).Some?
    ensures var n := |vtx| - 1;
            && ConnectTxs(r, ctx, nTime, u, vtx[..n]) == Some(acc) && ProperTxs(vtx[..n])
            && ProperOutputs(vtx[n]) && (vtx[n].IsCoinBase() <==> n == 0)
            && Canonical(acc.utxo) && |acc.vtxundo| == (if n == 0 then 0 else n - 1)
            && ConnectTx(r, ctx, nTime, acc, vtx[n]) == ConnectTxs(r, ctx, nTime, u, vtx) && SpendInputs(acc.utxo, vtx[n]).Some?
            && LastSpent(r, ctx, nTime, u, vtx, SpendInputs(acc.utxo, vtx[n]).value.0, h)
  {
    hide ConnectTx, Canonical, SpendInputs, ProperOutputs, LastSpent, ReplacesNothing, Stays, Tx.IsCoinBase;
    var n := |vtx| - 1;
    acc := ConnectTxs(r, ctx, nTime, u, vtx[..n]).value;
    ConnectTxsKeeps(r, ctx, nTime, u, vtx[..n]);
    ConnectTxShape(r, ctx, nTime, acc, vtx[n]);
    LastSpentIs(r, ctx, nTime, u, vtx, h);
  }

  lemma LastSpentIs(r: Rules, ctx: Context, nTime: nat, u: Utxo, vtx: seq<Tx>, h: Hash)
    requires ctx.nHeight > 0 && vtx != [] && ConnectTxs(r, ctx, nTime, u, vtx).Some? && ConnectTxs(r, ctx, nTime, u, vtx[..|vtx| - 1]).Some?
    requires SpendInputs(ConnectTxs(r, ctx, nTime, u, vtx[..|vtx| - 1]).value.utxo, vtx[|vtx| - 1]).Some?
    ensures LastSpent(r, ctx, nTime, u, vtx, SpendInputs(ConnectTxs(r, ctx, nTime, u, vtx[..|vtx| - 1]).value.utxo, vtx[|vtx| - 1]).value.0, h)
  {
    hide ConnectTx, ConnectTxs, SpendInputs;
  }

  // The last transaction undone, then the rest.
  lemma UndoneLast(v: Utxo, vtx: seq<Tx>, nHeight: nat, vtxundo: seq<seq<TxInUndo>>, init: seq<seq<TxInUndo>>)
    requires vtx != [] && |vtxundo| + 1 == |vtx| && |init| + (if |vtx| > 1 then 1 else 0) == |vtxundo| && init == vtxundo[..|init|]
    ensures var n := |vtx| - 1;
            var one := UndoTx(v, vtx[n], nHeight, n > 0 && !vtx[n].IsCustodianGrant(), StoredUndos(if n == 0 then [] else vtxundo[n - 1]));
            one.Some? ==>
              && var rest := UndoTxs(one.value.utxo, vtx[..n], nHeight, StoredBlockUndo(init));
              var back := UndoTxs(v, vtx, nHeight, StoredBlockUndo(vtxundo));
              && (back.Some? <==> rest.Some?)
              && (rest.Some? ==> back.value.utxo == rest.value.utxo && (back.value.clean <==> one.value.clean && rest.value.clean))
  {
    StoredInit(vtxundo, init, |vtx| - 1);
    hide UndoTx, StoredUndos;
  }

  // A block that replaced nothing is undone up to versions, and each version is the one before, or that one
  // as stored if the record was spent to the end.
  lemma {:induction false} UndoTxsVersion(r: Rules, ctx: Context, nTime: nat, u: Utxo, vtx: seq<Tx>, v: Utxo, h: Hash)
    requires ctx.nHeight > 0 && Canonical(u) && ProperTxs(vtx) && ConnectTxs(r, ctx, nTime, u, vtx).Some?
    requires ReplacesNothing(r, ctx, nTime, u, vtx) && Faded(v, ConnectTxs(r, ctx, nTime, u, vtx).value.utxo)
    ensures var c := ConnectTxs(r, ctx, nTime, u, vtx).value;
            && (vtx != [] ==> |c.vtxundo| == |vtx| - 1)
            && var back := UndoTxs(v, vtx, ctx.nHeight, StoredBlockUndo(c.vtxundo));
            && back.Some? && back.value.clean && Faded(back.value.utxo, u)
            && back.value.utxo.Keys == u.Keys && (h in u && Stays(r, ctx, nTime, u, vtx, h) ==> h in v)
            && (h in u ==> back.value.utxo[h].nVersion == LaterVersion(Stays(r, ctx, nTime, u, vtx, h), v, u, h))
  {
    if vtx == [] {
      FadedKeys(v, u);
    } else {
      var acc := LastConnected(r, ctx, nTime, u, vtx, h);
      hide ConnectTxs, ConnectTx, ReplacesNothing, Stays, UndoTx, UndoTxs, SpendInputs, Canonical, ProperTxs, ProperOutputs,
        Tx.IsCustodianGrant, Tx.IsCoinBase, Faded, StoredUndos, StoredBlockUndo;
      var n := |vtx| - 1;
      var init := vtx[..n];
      var c := ConnectTxs(r, ctx, nTime, u, vtx).value;
      UndoLastVersion(r, ctx, nTime, acc, vtx[n], n == 0, v, h);
      UndoneLast(v, vtx, ctx.nHeight, c.vtxundo, acc.vtxundo);
      var one := UndoTx(v, vtx[n], ctx.nHeight, n > 0 && !vtx[n].IsCustodianGrant(), StoredUndos(if n == 0 then [] else c.vtxundo[n - 1]));
      UndoTxsVersion(r, ctx, nTime, u, init, one.value.utxo, h);
      if h in u && Stays(r, ctx, nTime, u, init, h) { StaysVersion(r, ctx, nTime, u, init, h); }
    }
  }

  lemma StoredInit(vtxundo: seq<seq<TxInUndo>>, init: seq<seq<TxInUndo>>, n: nat)
    requires |vtxundo| == n && (n > 0 ==> init == vtxundo[..n - 1]) && (n == 0 ==> init == [])
    ensures n > 0 ==> StoredBlockUndo(vtxundo)[..n - 1] == StoredBlockUndo(init) && StoredBlockUndo(vtxundo)[n - 1] == StoredUndos(vtxundo[n - 1])
    ensures n == 0 ==> StoredBlockUndo(init) == []
    ensures StoredUndos([]) == []
  {}

  lemma {:induction false} ReplacementIsLostOnDisk(r: Rules, ctx: Context, nTime: nat, u: Utxo, vtx: seq<Tx>, v: Utxo)
    requires ctx.nHeight > 0 && Canonical(u) && ProperTxs(vtx) && ConnectTxs(r, ctx, nTime, u, vtx).Some?
    requires vtx != [] && !ReplacesNothing(r, ctx, nTime, u, vtx) && Faded(v, ConnectTxs(r, ctx, nTime, u, vtx).value.utxo)
    ensures var c := ConnectTxs(r, ctx, nTime, u, vtx).value;
            && |c.vtxundo| == |vtx| - 1
            && var back := UndoTxs(v, vtx, ctx.nHeight, StoredBlockUndo(c.vtxundo));
               back.Some? ==> !Faded(back.value.utxo, u)
  {
    var acc := LastConnected(r, ctx, nTime, u, vtx, 0);
    var n := |vtx| - 1;
    var init := vtx[..n];
    var c := ConnectTxs(r, ctx, nTime, u, vtx).value;
    hide ConnectTxs, ConnectTx, ReplacesNothing, Stays, UndoTx, UndoTxs, SpendInputs, Canonical, ProperTxs, ProperOutputs,
      Tx.IsCustodianGrant, Tx.IsCoinBase, StoredUndos, StoredBlockUndo, Unspent;
    if vtx[n].hash in SpendInputs(acc.utxo, vtx[n]).value.0 {
      ConnectTxsKeeps(r, ctx, nTime, u, vtx);
      var o := LastReplacementIsLost(r, ctx, nTime, u, vtx);
      LostOutputStaysLost(v, vtx, ctx.nHeight, StoredBlockUndo(c.vtxundo), o);
      var back := UndoTxs(v, vtx, ctx.nHeight, StoredBlockUndo(c.vtxundo));
      if back.Some? && Faded(back.value.utxo, u) { SpendOneFades(back.value.utxo, u, o); }
    } else {
      hide Faded;
      UndoLastVersion(r, ctx, nTime, acc, vtx[n], n == 0, v, 0);
      UndoneLast(v, vtx, ctx.nHeight, c.vtxundo, acc.vtxundo);
      var one := UndoTx(v, vtx[n], ctx.nHeight, n > 0 && !vtx[n].IsCustodianGrant(), StoredUndos(if n == 0 then [] else c.vtxundo[n - 1]));
      ReplacementIsLostOnDisk(r, ctx, nTime, u, init, one.value.utxo);
    }
  }

  // Disconnecting a block with the undo data that the disk keeps. The earlier set comes back, but for
  // versions, if and only if no transaction replaced a record that still had unspent outputs. It comes back
  // exactly if and only if, besides, no record with a negative version was spent to its end.
  lemma {:induction false} DisconnectRestoresIff(r: Rules, ctx: Context, u: Utxo, b: Block)
    requires ctx.nHeight > 0 && Canonical(u) && ConnectBlock(r, ctx, u, b).Some?
    ensures var c := ConnectBlock(r, ctx, u, b).value;
            var back := DisconnectBlock(c.utxo, b, ctx.nHeight, StoredBlockUndo(c.vtxundo));
            && (ReplacesNothing(r, ctx, b.nTime, u, b.vtx) <==> back.Some? && Faded(back.value.utxo, u))
            && (ReplacesNothing(r, ctx, b.nTime, u, b.vtx) ==> back.value.clean)
            && (back.Some? && back.value.utxo == u <==>
                  && ReplacesNothing(r, ctx, b.nTime, u, b.vtx)
                  && forall h :: h in u ==> Stays(r, ctx, b.nTime, u, b.vtx, h) || u[h].nVersion >= 0)
  {
    CheckBlockIsProper(r, b);
    ConnectTxsKeeps(r, ctx, b.nTime, u, b.vtx);
    var c := ConnectBlock(r, ctx, u, b).value;
    FadedSame(c.utxo);
    FadedSame(u);
    hide Canonical, Faded, CheckBlock, ProperTxs, UndoTxs, ConnectTxs, Stays;
    if !ReplacesNothing(r, ctx, b.nTime, u, b.vtx) {
      ReplacementIsLostOnDisk(r, ctx, b.nTime, u, b.vtx, c.utxo);
    } else {
      forall h ensures BackAgain(r, ctx, b.nTime, u, b.vtx, h) { RecordComesBack(r, ctx, b.nTime, u, b.vtx, h); }
      AllComeBack(r, ctx, b.nTime, u, b.vtx);
    }
  }

  ghost predicate BackAgain(r: Rules, ctx: Context, nTime: nat, u: Utxo, vtx: seq<Tx>, h: Hash)
    requires ctx.nHeight > 0 && ConnectTxs(r, ctx, nTime, u, vtx).Some?
  {
    var c := ConnectTxs(r, ctx, nTime, u, vtx).value;
    && (vtx != [] ==> |c.vtxundo| == |vtx| - 1)
    && var back := UndoTxs(c.utxo, vtx, ctx.nHeight, StoredBlockUndo(c.vtxundo));
    && back.Some? && back.value.clean && Faded(back.value.utxo, u) && back.value.utxo.Keys == u.Keys
    && (h in u ==> (back.value.utxo[h] == u[h] <==> Stays(r, ctx, nTime, u, vtx, h) || u[h].nVersion >= 0))
  }

  lemma RecordComesBack(r: Rules, ctx: Context, nTime: nat, u: Utxo, vtx: seq<Tx>, h: Hash)
    requires ctx.nHeight > 0 && Canonical(u) && ProperTxs(vtx) && ConnectTxs(r, ctx, nTime, u, vtx).Some?
    requires ReplacesNothing(r, ctx, nTime, u, vtx)
    ensures BackAgain(r, ctx, nTime, u, vtx, h)
  {
    var c := ConnectTxs(r, ctx, nTime, u, vtx).value;
    FadedSame(c.utxo);
    hide Canonical, ProperTxs, UndoTxs, ConnectTxs, Stays, Faded;
    UndoTxsVersion(r, ctx, nTime, u, vtx, c.utxo, h);
    if h in u {
      if Stays(r, ctx, nTime, u, vtx, h) { StaysVersion(r, ctx, nTime, u, vtx, h); }
      SameRecord(UndoTxs(c.utxo, vtx, ctx.nHeight, StoredBlockUndo(c.vtxundo)).value.utxo, u, h);
    }
  }

  lemma AllComeBack(r: Rules, ctx: Context, nTime: nat, u: Utxo, vtx: seq<Tx>)
    requires ctx.nHeight > 0 && ConnectTxs(r, ctx, nTime, u, vtx).Some? && vtx != []
    requires forall h :: BackAgain(r, ctx, nTime, u, vtx, h)
    ensures var c := ConnectTxs(r, ctx, nTime, u, vtx).value;
            && |c.vtxundo| + 1 == |vtx|
            && var back := UndoTxs(c.utxo, vtx, ctx.nHeight, StoredBlockUndo(c.vtxundo));
            && back.Some? && back.value.clean && Faded(back.value.utxo, u)
            && (back.value.utxo == u <==> forall h :: h in u ==> Stays(r, ctx, nTime, u, vtx, h) || u[h].nVersion >= 0)
  {
    hide UndoTxs, ConnectTxs, Stays, Faded;
    assert BackAgain(r, ctx, nTime, u, vtx, 0);
    var back := UndoTxs(ConnectTxs(r, ctx, nTime, u, vtx).value.utxo, vtx, ctx.nHeight,
                        StoredBlockUndo(ConnectTxs(r, ctx, nTime, u, vtx).value.vtxundo)).value.utxo;
    forall h | h in u ensures back[h] == u[h] <==> Stays(r, ctx, nTime, u, vtx, h) || u[h].nVersion >= 0 {
      assert BackAgain(r, ctx, nTime, u, vtx, h);
    }
    hide BackAgain;
  }

  // The same, for any view that holds the connected set but for versions.
  lemma DisconnectFaded(r: Rules, ctx: Context, u: Utxo, b: Block, v: Utxo)
    requires ctx.nHeight > 0 && Canonical(u) && ConnectBlock(r, ctx, u, b).Some? && ReplacesNothing(r, ctx, b.nTime, u, b.vtx)
    requires Faded(v, ConnectBlock(r, ctx, u, b).value.utxo)
    ensures var back := DisconnectBlock(v, b, ctx.nHeight, StoredBlockUndo(ConnectBlock(r, ctx, u, b).value.vtxundo));
            back.Some? && back.value.clean && Faded(back.value.utxo, u)
  {
    CheckBlockIsProper(r, b);
    assert b.vtx != [];
    hide Canonical, Faded, ConnectTxs, ReplacesNothing, CheckBlock, ProperTxs, UndoTxs;
    UndoTxsVersion(r, ctx, b.nTime, u, b.vtx, v, 0);
  }

  lemma SameRecord(v: Utxo, u: Utxo, h: Hash)
    requires Faded(v, u) && h in u
    ensures v[h] == u[h] <==> v[h].nVersion == u[h].nVersion
  {}

  // For every block that connects under BIP 30.
  lemma {:induction false} DisconnectRestores(r: Rules, ctx: Context, u: Utxo, b: Block)
    requires ctx.nHeight > 0 && Canonical(u) && ConnectBlock(r, ctx, u, b).Some? && EnforceBIP30(ctx)
    ensures var c := ConnectBlock(r, ctx, u, b).value;
            var back := DisconnectBlock(c.utxo, b, ctx.nHeight, StoredBlockUndo(c.vtxundo));
            && back.Some? && back.value.clean && Faded(back.value.utxo, u)
            && (NoNegative(u) ==> back.value.utxo == u)
  {
    CheckBlockIsProper(r, b);
    NoOverwriteReplacesNothing(r, ctx, b.nTime, u, b.vtx);
    DisconnectRestoresIff(r, ctx, u, b);
    hide ConnectBlock, DisconnectBlock, Faded, Canonical;
  }
}
