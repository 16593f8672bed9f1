/** What a chain leaves in the database is read back as Ledger says: the records of a replay, and the undo data
    of each of its blocks. */
module Storage {
  import opened Ledger
  import opened Blocks
  import opened Versions
  import opened CoinsView
  import opened BlockTree
  import opened CoinsCodec

  ghost predicate AllStorable(u: Utxo) { forall h {:trigger u[h]} :: h in u ==> Storable(u[h]) }

  ghost predicate StorableUndo(undo: TxInUndo) { undo.txout.nValue >= 0 && undo.cUnit as int < 256 }

  ghost predicate StorableUndos(undos: seq<TxInUndo>) { forall i :: 0 <= i < |undos| ==> StorableUndo(undos[i]) }

  // ---------- what connecting keeps ----------

  lemma CheckedIsStorable(r: Rules, tx: Tx, nHeight: nat)
    requires CheckTransaction(r, tx)
    ensures Storable(CoinsOf(tx, nHeight))
  {
    CheckedIsProper(r, tx);
    forall i | 0 <= i < |tx.vout| ensures tx.vout[i].nValue >= 0 { assert CheckOutput(r, tx, tx.vout[i]); }
    assert !tx.vout[0].IsNull();
  }

  // A record that keeps an output is storable without another one.
  lemma SpentStorable(c: Coins, n: nat)
    requires Storable(c) && c.IsAvailable(n)
    ensures Spent(c, n).vout != [] ==> Storable(Spent(c, n))
    ensures StorableUndo(LastUndo(c.vout[n], c)) && StorableUndo(PlainUndo(c.vout[n]))
  {
    TrimShape(c.vout[n := NullOut]);
    var d := Spent(c, n);
    if d.vout != [] { assert !d.vout[|d.vout| - 1].IsNull(); }
  }

  lemma SpendOneStorable(u: Utxo, o: OutPoint)
    requires Canonical(u) && AllStorable(u) && SpendOne(u, o).Some?
    ensures AllStorable(SpendOne(u, o).value.0) && StorableUndo(SpendOne(u, o).value.1)
  {
    assert Storable(u[o.hash]);
    SpentStorable(u[o.hash], o.n);
    hide Storable, Spent, StorableUndo, Canonical;
  }

  lemma {:induction false} SpendAllStorable(u: Utxo, vin: seq<TxIn>)
    requires Canonical(u) && AllStorable(u) && SpendAll(u, vin).Some?
    ensures AllStorable(SpendAll(u, vin).value.0) && StorableUndos(SpendAll(u, vin).value.1)
  {
    hide Storable, SpendOne, Canonical, AllStorable;
    if vin != [] {
      var n := |vin| - 1;
      UnspendAllInvertsSpendAll(u, vin[..n]);
      SpendAllStorable(u, vin[..n]);
      SpendOneStorable(SpendAll(u, vin[..n]).value.0, vin[n].prevout);
    }
  }

  lemma UpdateCoinsStorable(r: Rules, u: Utxo, tx: Tx, nHeight: nat)
    requires Canonical(u) && AllStorable(u) && CheckTransaction(r, tx) && UpdateCoins(u, tx, nHeight).Some?
    ensures AllStorable(UpdateCoins(u, tx, nHeight).value.0) && StorableUndos(UpdateCoins(u, tx, nHeight).value.1)
  {
    CheckedIsStorable(r, tx, nHeight);
    hide Storable, SpendAll, Canonical, CheckTransaction;
    if tx.Spends() { SpendAllStorable(u, tx.vin); }
  }

  ghost predicate StorableConnected(c: Connected) {
    AllStorable(c.utxo) && forall i :: 0 <= i < |c.vtxundo| ==> StorableUndos(c.vtxundo[i])
  }

  lemma {:induction false} ConnectTxsStorable(r: Rules, ctx: Context, nTime: nat, u: Utxo, vtx: seq<Tx>)
    requires ctx.nHeight > 0 && Canonical(u) && AllStorable(u) && ProperTxs(vtx) && ConnectTxs(r, ctx, nTime, u, vtx).Some?
    requires forall i :: 0 <= i < |vtx| ==> CheckTransaction(r, vtx[i])
    ensures StorableConnected(ConnectTxs(r, ctx, nTime, u, vtx).value)
  {
    hide ConnectTx, CheckTransaction, AllStorable, StorableUndos, Canonical;
    if vtx != [] {
      var n := |vtx| - 1;
      ConnectTxsStorable(r, ctx, nTime, u, vtx[..n]);
      ConnectTxsKeeps(r, ctx, nTime, u, vtx[..n]);
      var acc := ConnectTxs(r, ctx, nTime, u, vtx[..n]).value;
      ConnectTxShape(r, ctx, nTime, acc, vtx[n]);
      UpdateCoinsStorable(r, acc.utxo, vtx[n], ctx.nHeight);
    }
  }

  lemma {:induction false} ReplayStorable(r: Rules, g: Hash, b: BlockIndex?)
    requires b != null ==> InTree(g, b)
    requires Replay(r, g, b).Some?
    ensures AllStorable(Replay(r, g, b).value)
    ensures b != null && b.pprev != null ==> StorableConnected(Step(r, g, b))
    decreases Height(b) + 1
  {
    hide AllStorable, StorableUndos, CheckTransaction, ConnectTxs, Canonical;
    if b != null && b.pprev != null {
      ReplayStorable(r, g, b.pprev);
      ReplayIsCanonical(r, g, b.pprev);
      CheckBlockIsProper(r, b.block);
      ConnectTxsStorable(r, b.Ctx(), b.block.nTime, Replay(r, g, b.pprev).value, b.block.vtx);
    } else {
      assert AllStorable(map[]) by { NothingStored(); }
    }
  }

  lemma NothingStored()
    ensures AllStorable(map[])
  {}

  // ---------- what is read back ----------

  // Every record of a view that holds the coins of a chain, but for versions, is written, and read back as the
  // record that the database is said to keep.
  lemma CoinsReadBack(r: Rules, g: Hash, b: BlockIndex?, v: Utxo, h: Hash, rest: seq<Token>)
    requires b != null ==> InTree(g, b)
    requires Replay(r, g, b).Some? && Faded(v, Replay(r, g, b).value) && h in v
    ensures Storable(v[h]) && HeaderCode(v[h]) >= 0 && Unserialized(Serialized(v[h]) + rest) == Some((StoredCoins(v[h]), rest))
  {
    ReplayStorable(r, g, b);
    ReplayIsCanonical(r, g, b);
    var u := Replay(r, g, b).value;
    hide Replay;
    assert Storable(u[h]) && Trimmed(u[h].vout);
    RoundTripTrimmed(v[h], rest);
  }

  // So is all undo data that connecting a block of the chain produces.
  lemma UndoReadBack(r: Rules, g: Hash, b: BlockIndex, i: nat, j: nat, rest: seq<Token>)
    requires InTree(g, b) && b.pprev != null && Replay(r, g, b).Some?
    requires i < |Step(r, g, b).vtxundo| && j < |Step(r, g, b).vtxundo[i]|
    ensures var undo := Step(r, g, b).vtxundo[i][j];
            StorableUndo(undo) && UnserializedUndo(SerializedUndo(undo) + rest) == Some((StoredUndo(undo), rest))
  {
    ReplayStorable(r, g, b);
    hide Replay, Step;
    assert StorableUndos(Step(r, g, b).vtxundo[i]);
    UndoRoundTrip(Step(r, g, b).vtxundo[i][j], rest);
  }
}
