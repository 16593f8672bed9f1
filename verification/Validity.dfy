/** What it takes for a block to connect, rule by rule: every amount, depth and limit written out. */
module Validity {
  import opened Ledger
  import opened Blocks

  // The coins after some of a block's transactions.
  function After(u: Utxo, vtx: seq<Tx>, nHeight: nat): Option<Utxo> {
    if vtx == [] then Some(u)
    else
      match After(u, vtx[..|vtx| - 1], nHeight)
      case None => None
      case Some(v) => match UpdateCoins(v, vtx[|vtx| - 1], nHeight) case None => None case Some((w, _)) => Some(w)
  }

  predicate Range(n: int) { 0 <= n <= 20_000_000_000_000 }

  // ---------- a block by itself ----------

  // Coinbases and grants create coins and name no output: a coinbase is of shares, with the null input alone, a grant
  // of currency likewise, and a grant of shares has the input next to it.
  lemma Kinds(tx: Tx)
    requires tx.vin != []
    ensures tx.IsCoinBase() <==> tx.cUnit == 'S' && |tx.vin| == 1 && tx.vin[0].prevout == OutPoint(0, 0xFFFF_FFFF) && tx.vout != []
    ensures tx.IsCustodianGrant() <==>
            tx.vout != [] && |tx.vin| == 1 && tx.cUnit in {'S', 'B'}
            && tx.vin[0].prevout == OutPoint(0, if tx.cUnit == 'S' then 0xFFFF_FFFE else 0xFFFF_FFFF)
    ensures tx.IsCoinStake() <==> tx.cUnit == 'S' && |tx.vout| >= 2 && tx.vout[0] == TxOut(0, []) && tx.vin[0].prevout != OutPoint(0, 0xFFFF_FFFF)
    ensures tx.Spends() <==> tx.vout == [] || |tx.vin| > 1 || tx.cUnit !in {'S', 'B'}
                             || tx.vin[0].prevout !in {OutPoint(0, 0xFFFF_FFFF), OutPoint(0, if tx.cUnit == 'S' then 0xFFFF_FFFE else 0xFFFF_FFFF)}
  {}

  // No output is negative or too large; outputs under a share, or under a hundredth of a currency unit, are only in
  // minting transactions if they are empty, and only in a coinstake if they carry a vote; shares are not parked, and
  // what parks currency says for how long and for whom.
  predicate GoodOutput(r: Rules, tx: Tx, o: TxOut) {
    && Range(o.nValue) && (r.isPark(o.scriptPubKey) ==> tx.cUnit != 'S' && r.extractPark(o.scriptPubKey) != None)
    && if o == TxOut(0, []) then !tx.Spends() || tx.IsCoinStake()
       else if o.nValue == 0 then tx.IsCoinStake() && (r.isVote(o.scriptPubKey) || r.isParkRateResult(o.scriptPubKey))
       else o.nValue >= (if tx.cUnit == 'S' then 10_000 else 100)
  }

  // What a transaction by itself has to meet: the above, a size of at most a million bytes, a thousand for a
  // coinstake, inputs that are neither repeated nor null, and of a transaction that mints a script of 2 to 100 bytes
  // in a coinbase and of none in a grant.
  ghost predicate GoodTx(r: Rules, tx: Tx) {
    && (tx.cUnit == 'S' || tx.cUnit == 'B') && tx.vin != [] && tx.vout != []
    && (forall o :: o in tx.vout ==> GoodOutput(r, tx, o)) && tx.ValueOut() <= 20_000_000_000_000
    && (forall i, j :: 0 <= i < j < |tx.vin| ==> tx.vin[i].prevout != tx.vin[j].prevout)
    && r.txSize(tx) <= (if tx.IsCoinStake() then 1_000 else 1_000_000)
    && (tx.Spends() ==> forall i :: 0 <= i < |tx.vin| ==> tx.vin[i].prevout != OutPoint(0, 0xFFFF_FFFF))
    && (!tx.Spends() && tx.IsCoinBase() ==> 1 < |tx.vin[0].scriptSig| < 101)
    && (!tx.Spends() && !tx.IsCoinBase() ==> |tx.vin[0].scriptSig| == 0)
  }

  lemma {:induction false} OutputSums(vout: seq<TxOut>)
    requires forall i :: 0 <= i < |vout| ==> vout[i].nValue >= 0
    ensures forall n :: 0 <= n <= |vout| ==> 0 <= SumOut(vout[..n]) <= SumOut(vout)
  {
    if vout != [] {
      var m := |vout| - 1;
      OutputSums(vout[..m]);
      assert SumOut(vout[..m][..0]) == 0;
      forall n | 0 <= n <= |vout| ensures 0 <= SumOut(vout[..n]) <= SumOut(vout) {
        if n <= m { assert vout[..m][..n] == vout[..n]; } else { assert vout[..n] == vout; }
      }
    }
  }

  lemma OutputIff(r: Rules, tx: Tx, o: TxOut)
    ensures GoodOutput(r, tx, o) <==> CheckOutput(r, tx, o)
  {}

  lemma {:induction false} TransactionIff(r: Rules, tx: Tx)
    ensures CheckTransaction(r, tx) <==> GoodTx(r, tx)
  {
    forall i | 0 <= i < |tx.vout| ensures GoodOutput(r, tx, tx.vout[i]) <==> CheckOutput(r, tx, tx.vout[i]) {
      OutputIff(r, tx, tx.vout[i]);
    }
    assert tx.vout[..|tx.vout|] == tx.vout;
    if forall i :: 0 <= i < |tx.vout| ==> GoodOutput(r, tx, tx.vout[i]) { OutputSums(tx.vout); }
    assert (forall o :: o in tx.vout ==> GoodOutput(r, tx, o)) <==> forall i :: 0 <= i < |tx.vout| ==> GoodOutput(r, tx, tx.vout[i]);
    hide CheckOutput, Tx.Spends;
  }

  // What a block by itself has to meet.
  lemma {:induction false} BlockIff(r: Rules, b: Block)
    ensures CheckBlock(r, b) <==>
            && b.vtx != [] && (forall k :: 0 <= k < |b.vtx| ==> (b.vtx[k].IsCoinBase() <==> k == 0))
            && (forall k :: 2 <= k < |b.vtx| ==> !b.vtx[k].IsCoinStake())
            && (|b.vtx| >= 2 && b.vtx[1].IsCoinStake() ==> b.vtx[0].vout == [TxOut(0, [])])
            && (forall k :: 0 <= k < |b.vtx| ==> GoodTx(r, b.vtx[k]) && b.vtx[k].nTime <= b.nTime)
            && (forall j, k :: 0 <= j < k < |b.vtx| ==> b.vtx[j].hash != b.vtx[k].hash)
            && r.checkOther(b) && r.checkSealed(b)
  {
    forall k | 0 <= k < |b.vtx| ensures CheckTransaction(r, b.vtx[k]) <==> GoodTx(r, b.vtx[k]) { TransactionIff(r, b.vtx[k]); }
    hide CheckTransaction, GoodTx, Tx.IsCoinBase, Tx.IsCoinStake;
  }

  // ---------- what is spent ----------

  // The output that an input names is there, deep enough if it is newly minted, not younger than the transaction
  // that spends it, and of a proper value.
  ghost predicate GoodInput(r: Rules, nHeight: nat, v: Utxo, tx: Tx, o: OutPoint) {
    && o.hash in v && o.n < |v[o.hash].vout|
    && var c := v[o.hash];
    && (c.fCoinStake ==> c.nHeight + r.coinstakeMaturity <= nHeight)
    && (c.fCoinBase && !c.fCoinStake ==> c.nHeight + r.coinbaseMaturity <= nHeight)
    && c.nTime <= tx.nTime && Range(c.vout[o.n].nValue)
  }

  ghost predicate GoodInputs(r: Rules, nHeight: nat, v: Utxo, tx: Tx) {
    forall i :: 0 <= i < |tx.vin| ==> GoodInput(r, nHeight, v, tx, tx.vin[i].prevout)
  }

  // The values of the outputs that some inputs name.
  ghost function Values(v: Utxo, vin: seq<TxIn>): int {
    if vin == [] then 0
    else
      var o := vin[|vin| - 1].prevout;
      Values(v, vin[..|vin| - 1]) + if o.hash in v && o.n < |v[o.hash].vout| then v[o.hash].vout[o.n].nValue else 0
  }

  predicate Unparking(r: Rules, tx: Tx) {
    |tx.vin| == 1 && |tx.vout| == 1 && !(tx.vin[0].prevout == OutPoint(0, 0xFFFF_FFFF)) && r.isUnpark(tx.vin[0].scriptSig)
  }

  // An unpark pays the parked amount and its premium, once the time is over, to the key that parked it and in
  // the unit it was parked in.
  ghost predicate GoodUnpark(r: Rules, hashPrev: Hash, nHeight: nat, v: Utxo, tx: Tx)
    requires Unparking(r, tx) && GoodInputs(r, nHeight, v, tx)
  {
    assert GoodInput(r, nHeight, v, tx, tx.vin[0].prevout);
    var c := v[tx.vin[0].prevout.hash];
    var parked := c.vout[tx.vin[0].prevout.n];
    && r.isPark(parked.scriptPubKey) && r.extractPark(parked.scriptPubKey).Some?
    && var (nDuration, key) := r.extractPark(parked.scriptPubKey).value;
    && c.nHeight + nDuration <= nHeight
    && var premium := r.premium(hashPrev, c.nHeight, parked.nValue, nDuration, tx.cUnit);
    && premium.Some? && Range(premium.value) && Range(parked.nValue + premium.value)
    && tx.vout[0].nValue == parked.nValue + premium.value
    && r.extractDestination(tx.vout[0].scriptPubKey) == Some(KeyId(key)) && tx.cUnit == c.cUnit
  }

  // What a transaction has to leave over: the minimum fee, or if that is out of range the largest amount.
  function Fee(r: Rules, hashPrev: Hash, tx: Tx): int {
    var base := r.unitMinFee(hashPrev, tx.cUnit);
    if Range(base) then base else 20_000_000_000_000
  }

  // What a transaction that spends has to meet when its turn comes, v being the coins by then.
  ghost predicate GoodSpend(r: Rules, hashPrev: Hash, nHeight: nat, v: Utxo, tx: Tx, fSigned: bool) {
    && GoodInputs(r, nHeight, v, tx) && Range(Values(v, tx.vin))
    && (if tx.IsCoinStake() then
          tx.ValueOut() <= Values(v, tx.vin) + 400_000 + r.unitMinFee(hashPrev, tx.cUnit) - Fee(r, hashPrev, tx)
        else if !Unparking(r, tx) then tx.ValueOut() + Fee(r, hashPrev, tx) <= Values(v, tx.vin)
        else true)
    && (Unparking(r, tx) ==> GoodUnpark(r, hashPrev, nHeight, v, tx))
    && (fSigned && !Unparking(r, tx) ==>
          forall i :: 0 <= i < |tx.vin| ==>
            GoodInput(r, nHeight, v, tx, tx.vin[i].prevout)
            && r.verifyScript(v[tx.vin[i].prevout.hash].vout[tx.vin[i].prevout.n].scriptPubKey, tx, i))
  }

  // The signature operations in the scripts that the inputs from i on satisfy.
  ghost function ScriptSigOps(r: Rules, v: Utxo, tx: Tx, i: nat): nat
    requires i <= |tx.vin| && HaveInputs(v, tx.vin)
    decreases |tx.vin| - i
  {
    if i == |tx.vin| then 0
    else
      var o := tx.vin[i].prevout;
      r.p2shSigOps(v[o.hash].vout[o.n].scriptPubKey, tx, i) + ScriptSigOps(r, v, tx, i + 1)
  }

  lemma {:induction false} ScriptSigOpsAre(r: Rules, v: Utxo, tx: Tx, i: nat)
    requires i <= |tx.vin| && HaveInputs(v, tx.vin)
    ensures P2SHSigOps(r, v, tx, i) + ScriptSigOps(r, v, tx, i) == P2SHSigOps(r, v, tx, |tx.vin|)
    decreases |tx.vin| - i
  {
    if i < |tx.vin| { ScriptSigOpsAre(r, v, tx, i + 1); }
  }

  // The signature operations of a transaction, those in the scripts of what it spends from April 2012 on.
  ghost function SigOps(r: Rules, nTime: nat, v: Utxo, tx: Tx): nat {
    r.legacySigOps(tx) + if tx.Spends() && nTime >= 1333238400 && HaveInputs(v, tx.vin) then ScriptSigOps(r, v, tx, 0) else 0
  }

  ghost function AllSigOps(r: Rules, ctx: Context, nTime: nat, u: Utxo, vtx: seq<Tx>): nat {
    if vtx == [] then 0
    else
      var n := |vtx| - 1;
      var v := After(u, vtx[..n], ctx.nHeight);
      AllSigOps(r, ctx, nTime, u, vtx[..n]) + if v.Some? then SigOps(r, nTime, v.value, vtx[n]) else 0
  }

  // The two blocks that are let off BIP 30.
  const LetOff: set<(nat, Hash)> := {
    (91842, 0x00000000_000a4d0a_398161ff_c163c503_763b1f43_60639393_e0e4c8e3_00e0caec),
    (91880, 0x00000000_000743f1_90a18c55_77a3c2d2_a1f610ae_9601ac04_6a38084c_cb7cd721)
  }

  ghost predicate GoodAt(r: Rules, ctx: Context, u: Utxo, vtx: seq<Tx>, k: nat)
    requires k < |vtx|
  {
    vtx[k].Spends() ==>
      && After(u, vtx[..k], ctx.nHeight).Some?
      && GoodSpend(r, ctx.hashPrev, ctx.nHeight, After(u, vtx[..k], ctx.nHeight).value, vtx[k], ctx.nHeight >= r.checkpointHeight)
  }

  // ---------- one transaction ----------

  lemma InputsThere(r: Rules, nHeight: nat, v: Utxo, tx: Tx)
    requires GoodInputs(r, nHeight, v, tx)
    ensures HaveInputs(v, tx.vin)
  {
    forall i | 0 <= i < |tx.vin| ensures Unspent(v, tx.vin[i].prevout) { assert GoodInput(r, nHeight, v, tx, tx.vin[i].prevout); }
  }

  lemma {:induction false} ValuesAre(v: Utxo, vin: seq<TxIn>)
    requires HaveInputs(v, vin)
    ensures Values(v, vin) == SumIn(v, vin)
  {
    if vin != [] { ValuesAre(v, vin[..|vin| - 1]); }
  }

  // Of values in range, all partial sums are in range exactly if the last is.
  lemma {:induction false} SumsInRange(v: Utxo, vin: seq<TxIn>)
    requires HaveInputs(v, vin) && forall i :: 0 <= i < |vin| ==> PrevOut(v, vin[i].prevout).nValue >= 0
    ensures SumIn(v, vin) >= 0
    ensures forall n :: 0 <= n <= |vin| ==> HaveInputs(v, vin[..n]) && 0 <= SumIn(v, vin[..n]) <= SumIn(v, vin)
  {
    if vin != [] {
      var m := |vin| - 1;
      SumsInRange(v, vin[..m]);
      forall n | 0 <= n <= |vin| ensures HaveInputs(v, vin[..n]) && 0 <= SumIn(v, vin[..n]) <= SumIn(v, vin) {
        if n <= m { assert vin[..m][..n] == vin[..n]; } else { assert vin[..n] == vin; }
      }
    } else {
      assert vin[..0] == vin;
    }
  }

  lemma InputIff(r: Rules, h: nat, v: Utxo, tx: Tx, i: nat)
    requires i < |tx.vin| && HaveInputs(v, tx.vin) && HaveInputs(v, tx.vin[..i + 1])
    ensures CheckInput(r, h, v, tx, i) <==> GoodInput(r, h + 1, v, tx, tx.vin[i].prevout) && Range(SumIn(v, tx.vin[..i + 1]))
  {
    hide SumIn;
    assert Unspent(v, tx.vin[i].prevout);
  }

  lemma {:induction false} InputsIff(r: Rules, h: nat, v: Utxo, tx: Tx)
    requires tx.vin != []
    ensures GoodInputs(r, h + 1, v, tx) && Range(Values(v, tx.vin)) <==>
            HaveInputs(v, tx.vin) && forall i :: 0 <= i < |tx.vin| ==> CheckInput(r, h, v, tx, i)
    ensures GoodInputs(r, h + 1, v, tx) ==> Values(v, tx.vin) == SumIn(v, tx.vin)
  {
    if GoodInputs(r, h + 1, v, tx) {
      InputsThere(r, h + 1, v, tx);
      ValuesAre(v, tx.vin);
      forall i | 0 <= i < |tx.vin| ensures PrevOut(v, tx.vin[i].prevout).nValue >= 0 {
        assert GoodInput(r, h + 1, v, tx, tx.vin[i].prevout);
      }
      SumsInRange(v, tx.vin);
      hide CheckInput, GoodInput, Values, SumIn;
      forall i | 0 <= i < |tx.vin| ensures CheckInput(r, h, v, tx, i) || !Range(SumIn(v, tx.vin)) { InputIff(r, h, v, tx, i); }
    }
    if HaveInputs(v, tx.vin) && forall i :: 0 <= i < |tx.vin| ==> CheckInput(r, h, v, tx, i) {
      hide CheckInput, GoodInput, Values, SumIn;
      forall i | 0 <= i < |tx.vin| ensures GoodInput(r, h + 1, v, tx, tx.vin[i].prevout) {
        assert HaveInputs(v, tx.vin[..i + 1]);
        InputIff(r, h, v, tx, i);
      }
      var n := |tx.vin| - 1;
      assert tx.vin[..n + 1] == tx.vin;
      InputIff(r, h, v, tx, n);
      ValuesAre(v, tx.vin);
    }
  }

  lemma OneOutput(vout: seq<TxOut>)
    requires |vout| == 1
    ensures SumOut(vout) == vout[0].nValue
  {
    assert vout[..0] == [];
  }

  // The versions of addresses tell keys from scripts and units from one another.
  lemma UnparkIff(r: Rules, hashPrev: Hash, h: nat, v: Utxo, tx: Tx)
    requires IsValidUnit(tx.cUnit) && Unparking(r, tx) && GoodInputs(r, h + 1, v, tx)
    ensures IsUnpark(r, tx) && HaveInputs(v, tx.vin)
    ensures GoodUnpark(r, hashPrev, h + 1, v, tx) <==> CheckUnpark(r, hashPrev, h, v, tx)
  {
    InputsThere(r, h + 1, v, tx);
    OneOutput(tx.vout);
    assert Unspent(v, tx.vin[0].prevout);
  }

  lemma FeeIff(r: Rules, hashPrev: Hash, tx: Tx, nValueIn: int)
    requires Range(nValueIn) && tx.ValueOut() >= 0
    ensures CheckFee(r, hashPrev, tx, nValueIn) <==>
            if tx.IsCoinStake() then tx.ValueOut() <= nValueIn + 400_000 + r.unitMinFee(hashPrev, tx.cUnit) - Fee(r, hashPrev, tx)
            else if !Unparking(r, tx) then tx.ValueOut() + Fee(r, hashPrev, tx) <= nValueIn
            else true
  {}

  lemma CheckedValue(r: Rules, tx: Tx)
    requires CheckTransaction(r, tx)
    ensures tx.ValueOut() >= 0 && tx.vin != [] && IsValidUnit(tx.cUnit) && DistinctInputs(tx.vin)
  {
    assert tx.vout[..|tx.vout|] == tx.vout;
  }

  // The checks on the inputs of a transaction are these rules.
  lemma {:induction false} SpendIff(r: Rules, hashPrev: Hash, h: nat, v: Utxo, tx: Tx, fSigned: bool)
    requires CheckTransaction(r, tx) && tx.Spends()
    ensures GoodSpend(r, hashPrev, h + 1, v, tx, fSigned) <==> CheckInputs(r, hashPrev, h, v, tx, fSigned)
  {
    CheckedValue(r, tx);
    InputsIff(r, h, v, tx);
    assert Unparking(r, tx) <==> IsUnpark(r, tx);
    hide CheckTransaction, CheckInput, CheckFee, CheckUnpark, GoodUnpark, Fee, Values, SumIn, IsUnpark, Unparking, Tx.IsCoinStake, Tx.Spends;
    if GoodInputs(r, h + 1, v, tx) && Range(Values(v, tx.vin)) {
      FeeIff(r, hashPrev, tx, Values(v, tx.vin));
      if Unparking(r, tx) { UnparkIff(r, hashPrev, h, v, tx); }
      SignedIff(r, h, v, tx);
    }
  }

  lemma SignedIff(r: Rules, h: nat, v: Utxo, tx: Tx)
    requires GoodInputs(r, h + 1, v, tx)
    ensures HaveInputs(v, tx.vin)
    ensures (forall i :: 0 <= i < |tx.vin| ==>
               GoodInput(r, h + 1, v, tx, tx.vin[i].prevout)
               && r.verifyScript(v[tx.vin[i].prevout.hash].vout[tx.vin[i].prevout.n].scriptPubKey, tx, i)) <==>
            forall i :: 0 <= i < |tx.vin| ==> r.verifyScript(PrevOut(v, tx.vin[i].prevout).scriptPubKey, tx, i)
  {
    InputsThere(r, h + 1, v, tx);
    forall i | 0 <= i < |tx.vin| ensures GoodInput(r, h + 1, v, tx, tx.vin[i].prevout) && Unspent(v, tx.vin[i].prevout) {}
  }

  // ---------- a block ----------

  ghost predicate AllGood(r: Rules, ctx: Context, u: Utxo, vtx: seq<Tx>) { forall k :: 0 <= k < |vtx| ==> GoodAt(r, ctx, u, vtx, k) }

  lemma AllGoodFront(r: Rules, ctx: Context, u: Utxo, vtx: seq<Tx>)
    requires vtx != []
    ensures AllGood(r, ctx, u, vtx) <==> AllGood(r, ctx, u, vtx[..|vtx| - 1]) && GoodAt(r, ctx, u, vtx, |vtx| - 1)
  {
    var n := |vtx| - 1;
    forall k | 0 <= k < n ensures GoodAt(r, ctx, u, vtx, k) <==> GoodAt(r, ctx, u, vtx[..n], k) {
      assert vtx[..n][..k] == vtx[..k];
    }
  }

  // What connecting n transactions has come to.
  ghost predicate Agrees(c: Option<Connected>, u: Option<Utxo>, good: bool, nSigOps: nat) {
    && (c.Some? <==> good && nSigOps <= 20000)
    && (c.Some? ==> u == Some(c.value.utxo) && nSigOps == c.value.nSigOps)
  }

  lemma OpsIff(r: Rules, nTime: nat, u: Utxo, nSigOps: nat, tx: Tx)
    ensures SigOpsWith(r, nTime, u, nSigOps, tx) ==
            if (tx.Spends() && !HaveInputs(u, tx.vin)) || nSigOps + SigOps(r, nTime, u, tx) > 20000 then None
            else Some(nSigOps + SigOps(r, nTime, u, tx))
  {
    if HaveInputs(u, tx.vin) { ScriptSigOpsAre(r, u, tx, 0); }
    hide HaveInputs, ScriptSigOps, P2SHSigOps, Tx.Spends;
  }

  lemma InputsSuffice(r: Rules, hashPrev: Hash, h: nat, u: Utxo, tx: Tx, fSigned: bool)
    requires Canonical(u) && DistinctInputs(tx.vin) && CheckInputs(r, hashPrev, h, u, tx, fSigned)
    ensures tx.Spends() ==> HaveInputs(u, tx.vin)
    ensures UpdateCoins(u, tx, h + 1).Some?
  {
    if tx.Spends() { HaveInputsSuffices(u, tx.vin); }
    hide HaveInputs, SpendAll, CheckInput, CheckFee, CheckUnpark, SumIn, Tx.Spends;
  }

  // One more transaction connects exactly if its rules are met.
  lemma TxIff(r: Rules, ctx: Context, nTime: nat, acc: Connected, tx: Tx)
    requires ctx.nHeight > 0 && Canonical(acc.utxo) && CheckTransaction(r, tx)
    ensures ConnectTx(r, ctx, nTime, acc, tx).Some? <==>
            && (tx.Spends() ==> GoodSpend(r, ctx.hashPrev, ctx.nHeight, acc.utxo, tx, ctx.nHeight >= r.checkpointHeight))
            && acc.nSigOps + SigOps(r, nTime, acc.utxo, tx) <= 20000
    ensures var c := ConnectTx(r, ctx, nTime, acc, tx);
            c.Some? ==> && UpdateCoins(acc.utxo, tx, ctx.nHeight).Some? && c.value.utxo == UpdateCoins(acc.utxo, tx, ctx.nHeight).value.0
                        && c.value.nSigOps == acc.nSigOps + SigOps(r, nTime, acc.utxo, tx)
  {
    var fSigned := ctx.nHeight >= r.checkpointHeight;
    CheckedValue(r, tx);
    if tx.Spends() {
      SpendIff(r, ctx.hashPrev, ctx.nHeight - 1, acc.utxo, tx, fSigned);
    } else {
      assert CheckInputs(r, ctx.hashPrev, ctx.nHeight - 1, acc.utxo, tx, fSigned);
    }
    OpsIff(r, nTime, acc.utxo, acc.nSigOps, tx);
    hide CheckInputs, CheckTransaction, GoodSpend, HaveInputs, UpdateCoins, SigOps, SigOpsWith, Tx.Spends, SumIn, Canonical;
    if CheckInputs(r, ctx.hashPrev, ctx.nHeight - 1, acc.utxo, tx, fSigned) {
      InputsSuffice(r, ctx.hashPrev, ctx.nHeight - 1, acc.utxo, tx, fSigned);
    }
  }

  lemma {:induction false} TxsIff(r: Rules, ctx: Context, nTime: nat, u: Utxo, vtx: seq<Tx>)
    requires ctx.nHeight > 0 && Canonical(u) && ProperTxs(vtx) && forall i :: 0 <= i < |vtx| ==> CheckTransaction(r, vtx[i])
    ensures Agrees(ConnectTxs(r, ctx, nTime, u, vtx), After(u, vtx, ctx.nHeight), AllGood(r, ctx, u, vtx),
                   AllSigOps(r, ctx, nTime, u, vtx))
  {
    hide ConnectTx, CheckTransaction, Canonical, ProperTxs, SigOps, GoodSpend, AllGood, Tx.Spends;
    if vtx != [] {
      var n := |vtx| - 1;
      ProperFront(vtx);
      TxsIff(r, ctx, nTime, u, vtx[..n]);
      AllGoodFront(r, ctx, u, vtx);
      var acc := ConnectTxs(r, ctx, nTime, u, vtx[..n]);
      if acc.Some? {
        ConnectTxsKeeps(r, ctx, nTime, u, vtx[..n]);
        TxIff(r, ctx, nTime, acc.value, vtx[n]);
      }
    } else {
      assert AllGood(r, ctx, u, vtx) by { NothingToCheck(r, ctx, u); }
    }
  }

  lemma NothingToCheck(r: Rules, ctx: Context, u: Utxo)
    ensures AllGood(r, ctx, u, [])
  {}

  lemma ProperFront(vtx: seq<Tx>)
    requires vtx != [] && ProperTxs(vtx)
    ensures ProperTxs(vtx[..|vtx| - 1])
  {}

  // A block connects exactly if it passes the checks on a block by itself and BIP 30, keeps within the limit on
  // signature operations, and each of its spending transactions meets its rules when its turn comes.
  lemma {:induction false} ConnectsIff(r: Rules, ctx: Context, u: Utxo, b: Block)
    requires ctx.nHeight > 0 && Canonical(u)
    ensures ConnectBlock(r, ctx, u, b).Some? <==>
            && CheckBlock(r, b) && ((ctx.nHeight, ctx.hash) !in LetOff ==> forall i :: 0 <= i < |b.vtx| ==> b.vtx[i].hash !in u)
            && AllSigOps(r, ctx, b.nTime, u, b.vtx) <= 20000
            && forall k :: 0 <= k < |b.vtx| ==> GoodAt(r, ctx, u, b.vtx, k)
    ensures ConnectBlock(r, ctx, u, b).Some? ==> After(u, b.vtx, ctx.nHeight) == Some(ConnectBlock(r, ctx, u, b).value.utxo)
  {
    if CheckBlock(r, b) {
      CheckBlockIsProper(r, b);
      TxsIff(r, ctx, b.nTime, u, b.vtx);
    }
    hide CheckTransaction, ConnectTxs, After, AllSigOps, GoodAt, Canonical, EnforceBIP30;
  }
}
