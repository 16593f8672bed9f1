/** What mapMoneySupply adds up: the unspent outputs of each unit; and how much a proof-of-stake
    block can add. */
module MoneySupply {
  import opened Ledger
  import opened Blocks
  import opened CoinsView
  import opened BlockTree

  // ---------- the total of the unspent outputs of a unit ----------

  function Live(o: TxOut): int { if o.IsNull() then 0 else o.nValue }

  function SumLive(vout: seq<TxOut>): int {
    if vout == [] then 0 else SumLive(vout[..|vout| - 1]) + Live(vout[|vout| - 1])
  }

  function Share(c: Coins, unit: char): int { if c.cUnit == unit then SumLive(c.vout) else 0 }

  ghost function Total(u: Utxo, unit: char): int
    decreases |u|
  {
    if u == map[] then 0
    else
      var h :| h in u;
      assert |u - {h}| < |u| by { assert u.Keys == (u - {h}).Keys + {h}; }
      Share(u[h], unit) + Total(u - {h}, unit)
  }

  // The total does not depend on the order in which the records are added up.
  lemma {:induction false} TotalSplit(u: Utxo, unit: char, k: Hash)
    requires k in u
    ensures Total(u, unit) == Share(u[k], unit) + Total(u - {k}, unit)
    decreases |u|
  {
    var h :| h in u && Total(u, unit) == Share(u[h], unit) + Total(u - {h}, unit);
    if h != k {
      assert u.Keys == (u - {h}).Keys + {h} && u.Keys == (u - {k}).Keys + {k};
      TotalSplit(u - {h}, unit, k);
      TotalSplit(u - {k}, unit, h);
      assert (u - {h}) - {k} == (u - {k}) - {h};
    }
  }

  lemma TotalUpdate(u: Utxo, unit: char, k: Hash, c: Coins)
    ensures Total(u[k := c], unit)
         == Total(u, unit) + Share(c, unit) - (if k in u then Share(u[k], unit) else 0)
  {
    TotalSplit(u[k := c], unit, k);
    if k in u {
      TotalSplit(u, unit, k);
      assert u[k := c] - {k} == u - {k};
    } else {
      assert u[k := c] - {k} == u;
    }
  }

  lemma {:induction false} SumLiveUpdate(vout: seq<TxOut>, n: nat, o: TxOut)
    requires n < |vout|
    ensures SumLive(vout[n := o]) == SumLive(vout) - Live(vout[n]) + Live(o)
  {
    var k := |vout| - 1;
    if n < k {
      SumLiveUpdate(vout[..k], n, o);
      assert vout[n := o][..k] == vout[..k][n := o];
    } else {
      assert vout[n := o][..k] == vout[..k];
    }
  }

  lemma {:induction false} SumLiveTrim(vout: seq<TxOut>)
    ensures SumLive(Trim(vout)) == SumLive(vout)
  {
    if vout != [] && vout[|vout| - 1].IsNull() { SumLiveTrim(vout[..|vout| - 1]); }
  }

  lemma {:induction false} SumLiveOut(vout: seq<TxOut>)
    requires forall i :: 0 <= i < |vout| ==> !vout[i].IsNull()
    ensures SumLive(vout) == SumOut(vout)
  {
    if vout != [] { SumLiveOut(vout[..|vout| - 1]); }
  }

  // ---------- one transaction ----------

  // The value of the inputs whose record is of the given unit.
  function SumInUnit(u: Utxo, vin: seq<TxIn>, unit: char): int
    requires HaveInputs(u, vin)
  {
    if vin == [] then 0
    else
      var o := vin[|vin| - 1].prevout;
      assert HaveInputs(u, vin[..|vin| - 1]);
      SumInUnit(u, vin[..|vin| - 1], unit) + if u[o.hash].cUnit == unit then PrevOut(u, o).nValue else 0
  }

  lemma SpendOneTotal(u: Utxo, o: OutPoint, unit: char)
    requires Canonical(u) && Unspent(u, o)
    ensures Total(SpendOne(u, o).value.0, unit)
         == Total(u, unit) - if u[o.hash].cUnit == unit then PrevOut(u, o).nValue else 0
  {
    var c := u[o.hash];
    var d := Spent(c, o.n);
    SumLiveUpdate(c.vout, o.n, NullOut);
    SumLiveTrim(c.vout[o.n := NullOut]);
    assert Share(d, unit) == Share(c, unit) - if c.cUnit == unit then PrevOut(u, o).nValue else 0;
    if d.vout == [] {
      TotalSplit(u, unit, o.hash);
    } else {
      TotalUpdate(u, unit, o.hash, d);
    }
  }

  // Spending a list of distinct inputs takes exactly their value, read before any was spent.
  lemma {:induction false} SpendAllTotal(u: Utxo, vin: seq<TxIn>, unit: char)
    requires Canonical(u) && DistinctInputs(vin) && HaveInputs(u, vin)
    ensures SpendAll(u, vin).Some?
    ensures Total(SpendAll(u, vin).value.0, unit) == Total(u, unit) - SumInUnit(u, vin, unit)
  {
    HaveInputsSuffices(u, vin);
    if vin != [] {
      var n := |vin| - 1;
      var init := vin[..n];
      assert HaveInputs(u, init);
      SpendAllTotal(u, init, unit);
      var u1 := SpendAll(u, init).value.0;
      UnspendAllInvertsSpendAll(u, init);
      SpendAllMeaning(u, init, vin[n].prevout);
      SpendOneTotal(u1, vin[n].prevout, unit);
      assert Record(u1, vin[n].prevout) == Record(u, vin[n].prevout);
      assert u1[vin[n].prevout.hash].cUnit == u1[vin[n].prevout.hash].(vout := []).cUnit;
    }
  }

  // What a transaction does to the total of a unit, whatever units its inputs are of.
  lemma UpdateCoinsTotal(u: Utxo, tx: Tx, nHeight: nat, unit: char)
    requires Canonical(u) && ProperOutputs(tx) && DistinctInputs(tx.vin)
    requires tx.Spends() ==> HaveInputs(u, tx.vin)
    requires UpdateCoins(u, tx, nHeight).Some? && tx.hash !in SpendInputs(u, tx).value.0
    ensures Total(UpdateCoins(u, tx, nHeight).value.0, unit)
         == Total(u, unit) - (if tx.Spends() then SumInUnit(u, tx.vin, unit) else 0)
            + (if tx.cUnit == unit then tx.ValueOut() else 0)
  {
    if tx.Spends() { SpendAllTotal(u, tx.vin, unit); }
    TotalUpdate(SpendInputs(u, tx).value.0, unit, tx.hash, CoinsOf(tx, nHeight));
    SumLiveOut(tx.vout);
  }

  // AreInputsSameUnit
  predicate SameUnit(u: Utxo, tx: Tx) {
    forall i :: 0 <= i < |tx.vin| ==> tx.vin[i].prevout.hash in u && u[tx.vin[i].prevout.hash].cUnit == tx.cUnit
  }

  // Every input that has any value is of the transaction's unit.
  predicate ValueInUnit(u: Utxo, tx: Tx)
    requires HaveInputs(u, tx.vin)
  {
    forall i :: 0 <= i < |tx.vin| ==>
      u[tx.vin[i].prevout.hash].cUnit == tx.cUnit || PrevOut(u, tx.vin[i].prevout).nValue == 0
  }

  lemma {:induction false} SumInUnits(u: Utxo, tx: Tx, vin: seq<TxIn>)
    requires HaveInputs(u, vin)
    requires forall i :: 0 <= i < |vin| ==> PrevOut(u, vin[i].prevout).nValue >= 0
    ensures 0 <= SumInUnit(u, vin, tx.cUnit) <= SumIn(u, vin)
    ensures ValueInUnit(u, tx.(vin := vin)) <==> SumInUnit(u, vin, tx.cUnit) == SumIn(u, vin)
    ensures ValueInUnit(u, tx.(vin := vin)) ==> forall unit :: unit != tx.cUnit ==> SumInUnit(u, vin, unit) == 0
  {
    if vin != [] {
      var n := |vin| - 1;
      assert HaveInputs(u, vin[..n]);
      SumInUnits(u, tx, vin[..n]);
      var last := u[vin[n].prevout.hash].cUnit == tx.cUnit || PrevOut(u, vin[n].prevout).nValue == 0;
      assert ValueInUnit(u, tx.(vin := vin)) <==> ValueInUnit(u, tx.(vin := vin[..n])) && last;
    }
  }

  // The amounts ConnectBlock books for a spending transaction are what it does to the unspent
  // totals of every unit if and only if its inputs of other units carry no value: AreInputsSameUnit,
  // which ConnectBlock does not test, is what makes them agree.
  lemma BookedIsMoved(u: Utxo, tx: Tx, nHeight: nat)
    requires Canonical(u) && ProperOutputs(tx) && DistinctInputs(tx.vin) && tx.Spends()
    requires HaveInputs(u, tx.vin)
    requires forall i :: 0 <= i < |tx.vin| ==> PrevOut(u, tx.vin[i].prevout).nValue >= 0
    requires UpdateCoins(u, tx, nHeight).Some? && tx.hash !in SpendInputs(u, tx).value.0
    ensures (forall unit :: Total(UpdateCoins(u, tx, nHeight).value.0, unit)
                         == Total(u, unit) + if unit == tx.cUnit then tx.ValueOut() - SumIn(u, tx.vin) else 0)
            <==> ValueInUnit(u, tx)
    ensures SameUnit(u, tx) ==> ValueInUnit(u, tx)
  {
    var u' := UpdateCoins(u, tx, nHeight).value.0;
    forall unit ensures Total(u', unit)
                     == Total(u, unit) - SumInUnit(u, tx.vin, unit) + (if tx.cUnit == unit then tx.ValueOut() else 0) {
      UpdateCoinsTotal(u, tx, nHeight, unit);
    }
    SumInUnits(u, tx, tx.vin);
    assert tx.(vin := tx.vin) == tx;
    if !ValueInUnit(u, tx) {
      assert Total(u', tx.cUnit) != Total(u, tx.cUnit) + tx.ValueOut() - SumIn(u, tx.vin);
    }
  }

  // ---------- blocks and chains ----------

  // Every spending transaction, when its turn comes, has all its inputs of its own unit.
  ghost predicate SameUnitTxs(r: Rules, ctx: Context, nTime: nat, u: Utxo, vtx: seq<Tx>)
    requires ctx.nHeight > 0 && ConnectTxs(r, ctx, nTime, u, vtx).Some?
  {
    vtx == [] ||
    (var n := |vtx| - 1;
     && SameUnitTxs(r, ctx, nTime, u, vtx[..n])
     && (vtx[n].Spends() ==> SameUnit(ConnectTxs(r, ctx, nTime, u, vtx[..n]).value.utxo, vtx[n])))
  }

  ghost predicate SameUnitChain(r: Rules, g: Hash, b: BlockIndex?)
    requires b != null ==> InTree(g, b)
    requires Replay(r, g, b).Some?
    decreases Height(b) + 1
  {
    b != null && b.pprev != null ==>
      && SameUnitChain(r, g, b.pprev)
      && SameUnitTxs(r, b.Ctx(), b.block.nTime, Replay(r, g, b.pprev).value, b.block.vtx)
  }

  ghost predicate ReversibleChain(r: Rules, g: Hash, b: BlockIndex?)
    requires b != null ==> InTree(g, b)
    decreases Height(b) + 1
  {
    b != null ==> Reversible(r, g, b) && ReversibleChain(r, g, b.pprev)
  }

  // What ConnectBlock books for one transaction, and what its inputs passed.
  lemma ConnectTxFacts(r: Rules, ctx: Context, nTime: nat, acc: Connected, tx: Tx, unit: char)
    requires ctx.nHeight > 0 && ConnectTx(r, ctx, nTime, acc, tx).Some?
    ensures tx.Spends() ==> HaveInputs(acc.utxo, tx.vin)
    ensures CheckInputs(r, ctx.hashPrev, ctx.nHeight - 1, acc.utxo, tx, ctx.nHeight >= r.checkpointHeight)
    ensures var c := ConnectTx(r, ctx, nTime, acc, tx).value;
            Amount(c.valueOut, unit) - Amount(c.valueIn, unit)
            == Amount(acc.valueOut, unit) - Amount(acc.valueIn, unit)
               + if tx.cUnit != unit then 0 else if tx.Spends() then tx.ValueOut() - SumIn(acc.utxo, tx.vin) else tx.ValueOut()
  {}

  lemma InputsNotNegative(r: Rules, ctx: Context, u: Utxo, tx: Tx)
    requires ctx.nHeight > 0 && tx.Spends() && HaveInputs(u, tx.vin)
    requires CheckInputs(r, ctx.hashPrev, ctx.nHeight - 1, u, tx, ctx.nHeight >= r.checkpointHeight)
    ensures forall i :: 0 <= i < |tx.vin| ==> PrevOut(u, tx.vin[i].prevout).nValue >= 0
  {
    forall i | 0 <= i < |tx.vin| ensures PrevOut(u, tx.vin[i].prevout).nValue >= 0 {
      assert CheckInput(r, ctx.nHeight - 1, u, tx, i);
    }
  }

  lemma TxTotal(r: Rules, ctx: Context, nTime: nat, acc: Connected, tx: Tx, unit: char)
    requires ctx.nHeight > 0 && Canonical(acc.utxo) && ProperOutputs(tx) && DistinctInputs(tx.vin)
    requires ConnectTx(r, ctx, nTime, acc, tx).Some? && (tx.Spends() ==> SameUnit(acc.utxo, tx))
    requires tx.hash !in SpendInputs(acc.utxo, tx).value.0
    ensures var c := ConnectTx(r, ctx, nTime, acc, tx).value;
            Total(c.utxo, unit) - Total(acc.utxo, unit)
            == Amount(c.valueOut, unit) - Amount(c.valueIn, unit) - (Amount(acc.valueOut, unit) - Amount(acc.valueIn, unit))
  {
    hide ConnectTx, CheckInputs;
    ConnectTxShape(r, ctx, nTime, acc, tx);
    ConnectTxFacts(r, ctx, nTime, acc, tx, unit);
    if tx.Spends() {
      InputsNotNegative(r, ctx, acc.utxo, tx);
      BookedIsMoved(acc.utxo, tx, ctx.nHeight);
    } else {
      UpdateCoinsTotal(acc.utxo, tx, ctx.nHeight, unit);
    }
  }

  lemma {:induction false} TxsTotal(r: Rules, ctx: Context, nTime: nat, u: Utxo, vtx: seq<Tx>, unit: char)
    requires ctx.nHeight > 0 && Canonical(u) && ProperTxs(vtx) && ConnectTxs(r, ctx, nTime, u, vtx).Some?
    requires forall i :: 0 <= i < |vtx| ==> DistinctInputs(vtx[i].vin)
    requires ReplacesNothing(r, ctx, nTime, u, vtx) && SameUnitTxs(r, ctx, nTime, u, vtx)
    ensures var c := ConnectTxs(r, ctx, nTime, u, vtx).value;
            Total(c.utxo, unit) == Total(u, unit) + Amount(c.valueOut, unit) - Amount(c.valueIn, unit)
  {
    hide ConnectTx, SameUnit;
    if vtx != [] {
      var n := |vtx| - 1;
      TxsTotal(r, ctx, nTime, u, vtx[..n], unit);
      ConnectTxsKeeps(r, ctx, nTime, u, vtx[..n]);
      TxTotal(r, ctx, nTime, ConnectTxs(r, ctx, nTime, u, vtx[..n]).value, vtx[n], unit);
    }
  }

  // At every block of a chain whose transactions keep to one unit, the money supply of each unit is
  // the sum of the unspent outputs of that unit.
  lemma {:induction false} SupplyIsTotal(r: Rules, g: Hash, b: BlockIndex?, unit: char)
    requires b != null ==> InTree(g, b)
    requires Replay(r, g, b).Some? && SameUnitChain(r, g, b) && ReversibleChain(r, g, b)
    ensures Supply(r, g, b, unit) == Total(Replay(r, g, b).value, unit)
    decreases Height(b) + 1
  {
    if b != null && b.pprev != null {
      SupplyIsTotal(r, g, b.pprev, unit);
      var u := Replay(r, g, b.pprev).value;
      ReplayIsCanonical(r, g, b.pprev);
      CheckBlockIsProper(r, b.block);
      assert forall i :: 0 <= i < |b.block.vtx| ==> CheckTransaction(r, b.block.vtx[i]);
      TxsTotal(r, b.Ctx(), b.block.nTime, u, b.block.vtx, unit);
    }
  }

  // ---------- how much a proof-of-stake block adds ----------

  // No unspent output of shares is a parked one.
  ghost predicate NoParkedShares(r: Rules, u: Utxo) {
    forall o {:trigger Unspent(u, o)} :: Unspent(u, o) && u[o.hash].cUnit == 'S' ==> !r.isPark(PrevOut(u, o).scriptPubKey)
  }

  lemma NoParkedSharesTx(r: Rules, u: Utxo, tx: Tx, nHeight: nat)
    requires Canonical(u) && NoParkedShares(r, u) && CheckTransaction(r, tx) && ProperOutputs(tx)
    requires UpdateCoins(u, tx, nHeight).Some?
    ensures NoParkedShares(r, UpdateCoins(u, tx, nHeight).value.0)
  {
    var u' := UpdateCoins(u, tx, nHeight).value.0;
    forall o | Unspent(u', o) && u'[o.hash].cUnit == 'S' ensures !r.isPark(PrevOut(u', o).scriptPubKey) {
      UpdateCoinsMeaning(u, tx, nHeight, o);
      if o.hash == tx.hash {
        assert CheckOutput(r, tx, tx.vout[o.n]);
      } else {
        assert Record(u', o) == Record(u, o) && u'[o.hash].(vout := []).cUnit == u[o.hash].(vout := []).cUnit;
      }
    }
  }

  lemma {:induction false} NoParkedSharesTxs(r: Rules, ctx: Context, nTime: nat, u: Utxo, vtx: seq<Tx>)
    requires ctx.nHeight > 0 && Canonical(u) && ProperTxs(vtx) && ConnectTxs(r, ctx, nTime, u, vtx).Some?
    requires NoParkedShares(r, u) && forall i :: 0 <= i < |vtx| ==> CheckTransaction(r, vtx[i])
    ensures NoParkedShares(r, ConnectTxs(r, ctx, nTime, u, vtx).value.utxo)
  {
    hide ConnectTx, CheckTransaction;
    if vtx != [] {
      var n := |vtx| - 1;
      NoParkedSharesTxs(r, ctx, nTime, u, vtx[..n]);
      ConnectTxsKeeps(r, ctx, nTime, u, vtx[..n]);
      var acc := ConnectTxs(r, ctx, nTime, u, vtx[..n]).value;
      ConnectTxShape(r, ctx, nTime, acc, vtx[n]);
      NoParkedSharesTx(r, acc.utxo, vtx[n], ctx.nHeight);
    }
  }

  lemma {:induction false} NoParkedSharesChain(r: Rules, g: Hash, b: BlockIndex?)
    requires b != null ==> InTree(g, b)
    requires Replay(r, g, b).Some?
    ensures NoParkedShares(r, Replay(r, g, b).value)
    decreases Height(b) + 1
  {
    if b != null && b.pprev != null {
      NoParkedSharesChain(r, g, b.pprev);
      ReplayIsCanonical(r, g, b.pprev);
      CheckBlockIsProper(r, b.block);
      NoParkedSharesTxs(r, b.Ctx(), b.block.nTime, Replay(r, g, b.pprev).value, b.block.vtx);
    }
  }

  // The shares that custodian grants of the block create.
  function ShareGrants(vtx: seq<Tx>): int {
    if vtx == [] then 0
    else
      var tx := vtx[|vtx| - 1];
      ShareGrants(vtx[..|vtx| - 1]) + if tx.cUnit == 'S' && tx.IsCustodianGrant() then tx.ValueOut() else 0
  }

  // The address compared when an output is unparked says its unit.
  lemma UnparkKeepsUnit(r: Rules, hashPrev: Hash, prevHeight: nat, u: Utxo, tx: Tx)
    requires IsUnpark(r, tx) && HaveInputs(u, tx.vin) && CheckUnpark(r, hashPrev, prevHeight, u, tx)
    ensures u[tx.vin[0].prevout.hash].cUnit == tx.cUnit
  {}

  // A spending transaction of shares adds nothing, but for a coinstake, which adds at most the reward.
  lemma ShareSpend(r: Rules, ctx: Context, u: Utxo, tx: Tx)
    requires ctx.nHeight > 0 && tx.Spends() && HaveInputs(u, tx.vin) && tx.cUnit == 'S'
    requires CheckInputs(r, ctx.hashPrev, ctx.nHeight - 1, u, tx, ctx.nHeight >= r.checkpointHeight)
    requires NoParkedShares(r, u) && r.unitMinFee(ctx.hashPrev, 'S') <= MAX_MONEY
    ensures tx.ValueOut() - SumIn(u, tx.vin) <= if tx.IsCoinStake() then PROOF_OF_STAKE_REWARD else 0
  {
    if IsUnpark(r, tx) { UnparkKeepsUnit(r, ctx.hashPrev, ctx.nHeight - 1, u, tx); }
    assert tx.vin != [] && u[tx.vin[0].prevout.hash].cUnit == 'S' ==> !r.isPark(PrevOut(u, tx.vin[0].prevout).scriptPubKey);
  }

  lemma {:induction false} SharesAdded(r: Rules, ctx: Context, u: Utxo, b: Block, k: nat)
    requires ctx.nHeight > 0 && Canonical(u) && CheckBlock(r, b) && b.IsProofOfStake() && k <= |b.vtx|
    requires ConnectTxs(r, ctx, b.nTime, u, b.vtx[..k]).Some?
    requires NoParkedShares(r, u) && r.unitMinFee(ctx.hashPrev, 'S') <= MAX_MONEY
    ensures var c := ConnectTxs(r, ctx, b.nTime, u, b.vtx[..k]).value;
            Amount(c.valueOut, 'S') - Amount(c.valueIn, 'S')
            <= (if k >= 2 then PROOF_OF_STAKE_REWARD else 0) + ShareGrants(b.vtx[..k])
  {
    hide ConnectTx, CheckInputs, CheckTransaction, NoParkedShares;
    if k > 0 {
      var n := k - 1;
      var tx := b.vtx[n];
      assert b.vtx[..k][..n] == b.vtx[..n] && b.vtx[..k][n] == tx;
      SharesAdded(r, ctx, u, b, n);
      CheckBlockIsProper(r, b);
      var acc := ConnectTxs(r, ctx, b.nTime, u, b.vtx[..n]).value;
      ConnectTxFacts(r, ctx, b.nTime, acc, tx, 'S');
      NoParkedSharesTxs(r, ctx, b.nTime, u, b.vtx[..n]);
      if tx.Spends() && tx.cUnit == 'S' { ShareSpend(r, ctx, acc.utxo, tx); }
      if n == 0 { EmptyIsZero(tx.vout); }
    }
  }

  lemma EmptyIsZero(vout: seq<TxOut>)
    requires |vout| == 1 && vout[0].IsEmpty()
    ensures SumOut(vout) == 0
  {
    assert SumOut(vout[..0]) == 0;
  }

  // A proof-of-stake block raises the supply of shares by at most the reward and its share grants.
  lemma {:induction false} StakeBlockBound(r: Rules, g: Hash, b: BlockIndex)
    requires InTree(g, b) && b.pprev != null && Replay(r, g, b).Some?
    requires b.block.IsProofOfStake() && r.unitMinFee(b.pprev.block.hash, 'S') <= MAX_MONEY
    ensures Supply(r, g, b, 'S') <= Supply(r, g, b.pprev, 'S') + PROOF_OF_STAKE_REWARD + ShareGrants(b.block.vtx)
  {
    ReplayIsCanonical(r, g, b.pprev);
    NoParkedSharesChain(r, g, b.pprev);
    var vtx := b.block.vtx;
    assert vtx[..|vtx|] == vtx;
    SharesAdded(r, b.Ctx(), Replay(r, g, b.pprev).value, b.block, |vtx|);
  }
}
