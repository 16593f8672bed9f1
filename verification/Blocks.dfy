/** Connecting a block to, and disconnecting it from, the set of unspent outputs. */
module Blocks {
  import opened Ledger

  const MAX_BLOCK_SIZE := 1000000
  const MAX_COINSTAKE_SIZE := 1000
  const MAX_BLOCK_SIGOPS := 20000
  const BIP16_SWITCH_TIME := 1333238400

  datatype Block = Block(hash: Hash, nTime: nat, vtx: seq<Tx>) {
    predicate IsProofOfStake() { |vtx| > 1 && vtx[1].IsCoinStake() }
  }

  // What a block index entry says about its own block and, by hash, about its parent.
  datatype Context = Context(hash: Hash, hashPrev: Hash, nHeight: nat)

  datatype Destination = KeyId(id: Hash) | ScriptId(id: Hash)

  // CBitcoinAddress, whose version byte tells networks, units and the two kinds of destination apart
  datatype Address = Address(nVersion: nat, id: Hash)

  // Everything the model takes from code it does not contain. Fees, premiums and votes are
  // functions of the parent block, whose hash fixes the whole chain below it.
  datatype Rules = Rules(
    coinbaseMaturity: int,
    coinstakeMaturity: int,
    checkpointHeight: nat,                                // Checkpoints::GetTotalBlocksEstimate
    unitMinFee: (Hash, char) -> int,                      // GetUnitMinFeeFromPrevBlock, by unit
    isVote: Script -> bool,
    isParkRateResult: Script -> bool,
    isPark: Script -> bool,
    isUnpark: Script -> bool,
    extractPark: Script -> Option<(int, Hash)>,           // duration and key of a park output
    extractDestination: Script -> Option<Destination>,
    premium: (Hash, nat, int, int, char) -> Option<int>,  // by the height of the parked output, None outside the chain
    fTestNet: bool,
    txSize: Tx -> nat,                                    // serialized
    legacySigOps: Tx -> nat,
    p2shSigOps: (Script, Tx, nat) -> nat,
    verifyScript: (Script, Tx, nat) -> bool,
    checkOther: Block -> bool,                            // size, signature operations, times, coinbase value
    checkSealed: Block -> bool)                           // proof of work, merkle root, signature

  // ---------- context-free checks ----------

  // The value rule CheckTransaction puts on one output.
  predicate CheckOutput(r: Rules, tx: Tx, o: TxOut) {
    && (o.IsEmpty() ==> tx.IsCoinBase() || tx.IsCoinStake() || tx.IsCustodianGrant())
    && (!o.IsEmpty() && o.nValue < (if tx.cUnit == 'S' then MIN_SHARE_TXOUT_AMOUNT else MIN_CURRENCY_TXOUT_AMOUNT)
        ==> tx.IsCoinStake() && o.nValue == 0 && (r.isVote(o.scriptPubKey) || r.isParkRateResult(o.scriptPubKey)))
    && o.nValue <= MAX_MONEY
    && (r.isPark(o.scriptPubKey) ==> tx.cUnit != 'S' && r.extractPark(o.scriptPubKey).Some?)
  }

  // Scripts in the inputs of a minting transaction, and null inputs in any other.
  predicate CheckVin(tx: Tx)
    requires tx.vin != []
  {
    if tx.IsCoinBase() then 2 <= |tx.vin[0].scriptSig| <= 100
    else if tx.IsCustodianGrant() then tx.vin[0].scriptSig == []
    else forall i :: 0 <= i < |tx.vin| ==> !tx.vin[i].prevout.IsNull()
  }

  predicate CheckTransaction(r: Rules, tx: Tx) {
    && IsValidUnit(tx.cUnit)
    && tx.vin != [] && tx.vout != []
    && r.txSize(tx) <= MAX_BLOCK_SIZE && (tx.IsCoinStake() ==> r.txSize(tx) <= MAX_COINSTAKE_SIZE)
    && (forall i :: 0 <= i < |tx.vout| ==> CheckOutput(r, tx, tx.vout[i]))
    && (forall i :: 0 <= i <= |tx.vout| ==> MoneyRange(SumOut(tx.vout[..i])))
    && DistinctInputs(tx.vin)
    && CheckVin(tx)
  }

  predicate DistinctIds(vtx: seq<Tx>) {
    forall i, j :: 0 <= i < j < |vtx| ==> vtx[i].hash != vtx[j].hash
  }

  // CheckBlock without what a block only has once it is sealed, as fJustCheck asks for.
  predicate CheckContents(r: Rules, b: Block) {
    && b.vtx != [] && b.vtx[0].IsCoinBase()
    && (forall i :: 1 <= i < |b.vtx| ==> !b.vtx[i].IsCoinBase())
    && (forall i :: 2 <= i < |b.vtx| ==> !b.vtx[i].IsCoinStake())
    && (b.IsProofOfStake() ==> |b.vtx[0].vout| == 1 && b.vtx[0].vout[0].IsEmpty())
    && (forall i :: 0 <= i < |b.vtx| ==> CheckTransaction(r, b.vtx[i]) && b.vtx[i].nTime <= b.nTime)
    && DistinctIds(b.vtx)
    && r.checkOther(b)
  }

  predicate CheckBlock(r: Rules, b: Block) { CheckContents(r, b) && r.checkSealed(b) }

  // ---------- value rules on the inputs ----------

  function PrevOut(u: Utxo, o: OutPoint): TxOut
    requires Unspent(u, o)
  {
    u[o.hash].vout[o.n]
  }

  function SumIn(u: Utxo, vin: seq<TxIn>): int
    requires HaveInputs(u, vin)
  {
    if vin == [] then 0
    else
      assert HaveInputs(u, vin[..|vin| - 1]);
      SumIn(u, vin[..|vin| - 1]) + PrevOut(u, vin[|vin| - 1].prevout).nValue
  }

  predicate IsUnpark(r: Rules, tx: Tx) {
    |tx.vin| == 1 && !tx.vin[0].prevout.IsNull() && r.isUnpark(tx.vin[0].scriptSig) && |tx.vout| == 1
  }

  predicate CheckInput(r: Rules, prevHeight: nat, u: Utxo, tx: Tx, i: nat)
    requires i < |tx.vin| && HaveInputs(u, tx.vin)
  {
    var o := tx.vin[i].prevout;
    var c := u[o.hash];
    assert HaveInputs(u, tx.vin[..i + 1]);
    && (c.fCoinBase || c.fCoinStake ==>
          prevHeight + 1 - c.nHeight >= (if c.fCoinStake then r.coinstakeMaturity else r.coinbaseMaturity))
    && c.nTime <= tx.nTime
    && MoneyRange(c.vout[o.n].nValue)
    && MoneyRange(SumIn(u, tx.vin[..i + 1]))
  }

  function AddressOf(fTestNet: bool, d: Destination, cUnit: char): Option<Address> {
    if cUnit == 'S' then
      Some(Address(if d.KeyId? then (if fTestNet then 125 else 63) else if fTestNet then 126 else 64, d.id))
    else if cUnit == 'B' then
      Some(Address(if d.KeyId? then (if fTestNet then 85 else 25) else if fTestNet then 86 else 26, d.id))
    else None
  }

  // The output goes to the address the park script names, in the unit of the parked output.
  predicate UnparksTo(r: Rules, id: Hash, cUnit: char, tx: Tx)
    requires |tx.vout| == 1
  {
    var to := r.extractDestination(tx.vout[0].scriptPubKey);
    && to.Some? && AddressOf(r.fTestNet, KeyId(id), cUnit).Some?
    && AddressOf(r.fTestNet, KeyId(id), cUnit) == AddressOf(r.fTestNet, to.value, tx.cUnit)
  }

  // The parked output is unspent, its time has passed, and the premium is paid exactly and to its address.
  predicate CheckUnpark(r: Rules, hashPrev: Hash, prevHeight: nat, u: Utxo, tx: Tx)
    requires IsUnpark(r, tx) && HaveInputs(u, tx.vin)
  {
    var o := tx.vin[0].prevout;
    var c := u[o.hash];
    var txo := PrevOut(u, o);
    var park := r.extractPark(txo.scriptPubKey);
    && r.isPark(txo.scriptPubKey) && park.Some? && prevHeight + 1 - c.nHeight >= park.value.0
    && var premium := r.premium(hashPrev, c.nHeight, txo.nValue, park.value.0, tx.cUnit);
    && premium.Some?
    && MoneyRange(premium.value) && MoneyRange(txo.nValue + premium.value)
    && tx.ValueOut() == txo.nValue + premium.value
    && UnparksTo(r, park.value.1, c.cUnit, tx)
  }

  // GetMinFee for a base fee per kilobyte.
  function GetMinFee(nBaseFee: int, nBytes: nat): int {
    var n := (1 + nBytes / 1000) * nBaseFee;
    if MoneyRange(n) then n else MAX_MONEY
  }

  // A coinstake earns at most the reward; any other transaction but an unpark pays its fee.
  predicate CheckFee(r: Rules, hashPrev: Hash, tx: Tx, nValueIn: int) {
    var base := r.unitMinFee(hashPrev, tx.cUnit);
    && (tx.IsCoinStake() ==> tx.ValueOut() - nValueIn <= PROOF_OF_STAKE_REWARD - GetMinFee(base, 0) + base)
    && (!tx.IsCoinStake() && !IsUnpark(r, tx) ==>
          var fee := nValueIn - tx.ValueOut();
          fee >= 0 && fee >= GetMinFee(base, 0) && MoneyRange(fee))
  }

  predicate CheckInputs(r: Rules, hashPrev: Hash, prevHeight: nat, u: Utxo, tx: Tx, fScriptChecks: bool) {
    tx.Spends() ==>
      && HaveInputs(u, tx.vin)
      && (forall i :: 0 <= i < |tx.vin| ==> CheckInput(r, prevHeight, u, tx, i))
      && (IsUnpark(r, tx) ==> CheckUnpark(r, hashPrev, prevHeight, u, tx))
      && CheckFee(r, hashPrev, tx, SumIn(u, tx.vin))
      && (fScriptChecks && !IsUnpark(r, tx) ==>
            forall i :: 0 <= i < |tx.vin| ==>
              r.verifyScript(PrevOut(u, tx.vin[i].prevout).scriptPubKey, tx, i))
  }

  function P2SHSigOps(r: Rules, u: Utxo, tx: Tx, k: nat): nat
    requires k <= |tx.vin| && HaveInputs(u, tx.vin)
  {
    if k == 0 then 0
    else P2SHSigOps(r, u, tx, k - 1) + r.p2shSigOps(PrevOut(u, tx.vin[k - 1].prevout).scriptPubKey, tx, k - 1)
  }

  // ---------- connecting ----------

  // Amounts by unit; a missing unit stands for zero, as operator[] of the source's maps has it.
  type Amounts = map<char, int>

  function Amount(m: Amounts, u: char): int { if u in m then m[u] else 0 }

  function AddAmount(m: Amounts, u: char, n: int): Amounts { m[u := Amount(m, u) + n] }

  datatype Connected = Connected(utxo: Utxo, vtxundo: seq<seq<TxInUndo>>, nSigOps: nat,
                                 valueIn: Amounts, valueOut: Amounts)

  // The signature operations counted once tx is included; None when there are too many, or when
  // an input is missing.
  function SigOpsWith(r: Rules, nTime: nat, u: Utxo, nSigOps: nat, tx: Tx): Option<nat> {
    var n := nSigOps + r.legacySigOps(tx);
    if n > MAX_BLOCK_SIGOPS || (tx.Spends() && !HaveInputs(u, tx.vin)) then None
    else if !tx.Spends() || nTime < BIP16_SWITCH_TIME then Some(n)
    else
      var n := n + P2SHSigOps(r, u, tx, |tx.vin|);
      if n > MAX_BLOCK_SIGOPS then None else Some(n)
  }

  function ConnectTx(r: Rules, ctx: Context, nTime: nat, acc: Connected, tx: Tx): Option<Connected>
    requires ctx.nHeight > 0
  {
    var sigOps := SigOpsWith(r, nTime, acc.utxo, acc.nSigOps, tx);
    if sigOps.None? then None
    else if !CheckInputs(r, ctx.hashPrev, ctx.nHeight - 1, acc.utxo, tx, ctx.nHeight >= r.checkpointHeight) then None
    else
      match UpdateCoins(acc.utxo, tx, ctx.nHeight)
      case None => None
      case Some((u, undos)) =>
        Some(Connected(u,
                       if tx.IsCoinBase() then acc.vtxundo else acc.vtxundo + [undos],
                       sigOps.value,
                       if tx.Spends() then AddAmount(acc.valueIn, tx.cUnit, SumIn(acc.utxo, tx.vin)) else acc.valueIn,
                       AddAmount(acc.valueOut, tx.cUnit, tx.ValueOut())))
  }

  function ConnectTxs(r: Rules, ctx: Context, nTime: nat, u: Utxo, vtx: seq<Tx>): Option<Connected>
    requires ctx.nHeight > 0
  {
    if vtx == [] then Some(Connected(u, [], 0, map[], map[]))
    else
      match ConnectTxs(r, ctx, nTime, u, vtx[..|vtx| - 1])
      case None => None
      case Some(acc) => ConnectTx(r, ctx, nTime, acc, vtx[|vtx| - 1])
  }

  // The two Bitcoin blocks that are let off BIP 30, by height and hash.
  predicate EnforceBIP30(ctx: Context) {
    !(|| (ctx.nHeight == 91842 && ctx.hash == 0x00000000000a4d0a398161ffc163c503763b1f4360639393e0e4c8e300e0caec)
      || (ctx.nHeight == 91880 && ctx.hash == 0x00000000000743f190a18c5577a3c2d2a1f610ae9601ac046a38084ccb7cd721))
  }

  predicate Overwrites(u: Utxo, vtx: seq<Tx>) {
    exists i :: 0 <= i < |vtx| && vtx[i].hash in u
  }

  // ConnectBlock above genesis, on the canonical reading of the view.
  function ConnectBlock(r: Rules, ctx: Context, u: Utxo, b: Block): Option<Connected>
    requires ctx.nHeight > 0
  {
    if !CheckBlock(r, b) then None
    else if EnforceBIP30(ctx) && Overwrites(u, b.vtx) then None
    else ConnectTxs(r, ctx, b.nTime, u, b.vtx)
  }

  // ---------- disconnecting ----------

  // The transactions of vtx are undone last to first; vtxundo[i - 1] belongs to vtx[i].
  function UndoTxs(u: Utxo, vtx: seq<Tx>, nHeight: nat, vtxundo: seq<seq<TxInUndo>>): Option<Undone>
    requires vtx != [] ==> |vtxundo| + 1 == |vtx|
    decreases |vtx|
  {
    if vtx == [] then Some(Undone(u, true))
    else
      var i := |vtx| - 1;
      match UndoTx(u, vtx[i], nHeight, i > 0 && !vtx[i].IsCustodianGrant(), if i > 0 then vtxundo[i - 1] else [])
      case None => None
      case Some(one) =>
        match UndoTxs(one.utxo, vtx[..i], nHeight, if i > 0 then vtxundo[..i - 1] else [])
        case None => None
        case Some(rest) => Some(Undone(rest.utxo, one.clean && rest.clean))
  }

  function DisconnectBlock(u: Utxo, b: Block, nHeight: nat, vtxundo: seq<seq<TxInUndo>>): Option<Undone> {
    if |vtxundo| + 1 != |b.vtx| then None else UndoTxs(u, b.vtx, nHeight, vtxundo)
  }

  // ---------- disconnecting undoes connecting ----------

  // What CheckBlock says about a prefix of the block's transactions.
  ghost predicate ProperTxs(vtx: seq<Tx>) {
    && DistinctIds(vtx)
    && (forall i :: 0 <= i < |vtx| ==> ProperOutputs(vtx[i]) && (vtx[i].IsCoinBase() <==> i == 0))
  }

  lemma CheckBlockIsProper(r: Rules, b: Block)
    requires CheckBlock(r, b)
    ensures ProperTxs(b.vtx)
  {
    ContentsAreProper(r, b);
  }

  lemma ContentsAreProper(r: Rules, b: Block)
    requires CheckContents(r, b)
    ensures ProperTxs(b.vtx)
  {
    forall i | 0 <= i < |b.vtx| ensures ProperOutputs(b.vtx[i]) { CheckedIsProper(r, b.vtx[i]); }
  }

  lemma CheckedIsProper(r: Rules, tx: Tx)
    requires CheckTransaction(r, tx)
    ensures ProperOutputs(tx) && DistinctInputs(tx.vin)
  {
    forall j | 0 <= j < |tx.vout| ensures !tx.vout[j].IsNull() { assert CheckOutput(r, tx, tx.vout[j]); }
  }

  // No transaction puts its record over one that still has unspent outputs at that moment.
  ghost predicate ReplacesNothing(r: Rules, ctx: Context, nTime: nat, u: Utxo, vtx: seq<Tx>)
    requires ctx.nHeight > 0 && ConnectTxs(r, ctx, nTime, u, vtx).Some?
  {
    vtx == [] ||
    (var n := |vtx| - 1;
     && ReplacesNothing(r, ctx, nTime, u, vtx[..n])
     && vtx[n].hash !in SpendInputs(ConnectTxs(r, ctx, nTime, u, vtx[..n]).value.utxo, vtx[n]).value.0)
  }

  lemma ConnectTxShape(r: Rules, ctx: Context, nTime: nat, acc: Connected, tx: Tx)
    requires ctx.nHeight > 0 && ConnectTx(r, ctx, nTime, acc, tx).Some?
    ensures UpdateCoins(acc.utxo, tx, ctx.nHeight).Some?
    ensures var c := ConnectTx(r, ctx, nTime, acc, tx).value;
            var (u, undos) := UpdateCoins(acc.utxo, tx, ctx.nHeight).value;
            c.utxo == u && c.vtxundo == if tx.IsCoinBase() then acc.vtxundo else acc.vtxundo + [undos]
  {}

  lemma {:induction false} ConnectTxsKeeps(r: Rules, ctx: Context, nTime: nat, u: Utxo, vtx: seq<Tx>)
    requires ctx.nHeight > 0 && Canonical(u) && ProperTxs(vtx) && ConnectTxs(r, ctx, nTime, u, vtx).Some?
    ensures var c := ConnectTxs(r, ctx, nTime, u, vtx).value;
            && Canonical(c.utxo)
            && (vtx != [] ==> |c.vtxundo| == |vtx| - 1)
            && (vtx == [] ==> c.vtxundo == [])
            && (forall h :: h in c.utxo ==> h in u || exists i :: 0 <= i < |vtx| && vtx[i].hash == h)
  {
    hide ConnectTx;
    if vtx != [] {
      var n := |vtx| - 1;
      ConnectTxsKeeps(r, ctx, nTime, u, vtx[..n]);
      var acc := ConnectTxs(r, ctx, nTime, u, vtx[..n]).value;
      ConnectTxShape(r, ctx, nTime, acc, vtx[n]);
      UndoInvertsUpdate(acc.utxo, vtx[n], ctx.nHeight);
      var c := ConnectTxs(r, ctx, nTime, u, vtx).value;
      forall h | h in c.utxo && h !in u ensures exists i :: 0 <= i < |vtx| && vtx[i].hash == h {
        if h in acc.utxo {
          var i :| 0 <= i < n && vtx[..n][i].hash == h;
          assert vtx[i].hash == h;
        }
      }
    }
  }

  // The last transaction of a connected prefix, undone, gives the set it was connected to.
  lemma UndoLast(r: Rules, ctx: Context, nTime: nat, acc: Connected, tx: Tx, first: bool)
    requires ctx.nHeight > 0 && Canonical(acc.utxo) && ProperOutputs(tx) && (tx.IsCoinBase() <==> first)
    requires ConnectTx(r, ctx, nTime, acc, tx).Some?
    requires tx.hash !in SpendInputs(acc.utxo, tx).value.0
    ensures var c := ConnectTx(r, ctx, nTime, acc, tx).value;
            && (first ==> c.vtxundo == acc.vtxundo)
            && (!first ==> |c.vtxundo| == |acc.vtxundo| + 1 && c.vtxundo[..|acc.vtxundo|] == acc.vtxundo)
            && UndoTx(c.utxo, tx, ctx.nHeight, !first && !tx.IsCustodianGrant(),
                      if first then [] else c.vtxundo[|acc.vtxundo|]) == Some(Undone(acc.utxo, true))
  {
    hide ConnectTx;
    ConnectTxShape(r, ctx, nTime, acc, tx);
    UndoInvertsUpdate(acc.utxo, tx, ctx.nHeight);
  }

  lemma {:induction false} UndoTxsInverts(r: Rules, ctx: Context, nTime: nat, u: Utxo, vtx: seq<Tx>)
    requires ctx.nHeight > 0 && Canonical(u) && ProperTxs(vtx) && ConnectTxs(r, ctx, nTime, u, vtx).Some?
    requires ReplacesNothing(r, ctx, nTime, u, vtx)
    ensures var c := ConnectTxs(r, ctx, nTime, u, vtx).value;
            && (vtx != [] ==> |c.vtxundo| == |vtx| - 1)
            && UndoTxs(c.utxo, vtx, ctx.nHeight, c.vtxundo) == Some(Undone(u, true))
  {
    hide ConnectTx, UndoTx, SpendInputs, Canonical, ProperOutputs, Tx.IsCustodianGrant, Tx.IsCoinBase, Tx.Spends;
    ConnectTxsKeeps(r, ctx, nTime, u, vtx);
    if vtx != [] {
      var n := |vtx| - 1;
      ConnectTxsKeeps(r, ctx, nTime, u, vtx[..n]);
      UndoTxsInverts(r, ctx, nTime, u, vtx[..n]);
      UndoLast(r, ctx, nTime, ConnectTxs(r, ctx, nTime, u, vtx[..n]).value, vtx[n], n == 0);
    }
  }

  // BIP 30 as ConnectBlock tests it, once before the first transaction, is enough.
  lemma {:induction false} NoOverwriteReplacesNothing(r: Rules, ctx: Context, nTime: nat, u: Utxo, vtx: seq<Tx>)
    requires ctx.nHeight > 0 && Canonical(u) && ProperTxs(vtx) && ConnectTxs(r, ctx, nTime, u, vtx).Some?
    requires !Overwrites(u, vtx)
    ensures ReplacesNothing(r, ctx, nTime, u, vtx)
  {
    if vtx != [] {
      var n := |vtx| - 1;
      assert !Overwrites(u, vtx[..n]) by {
        assert forall i :: 0 <= i < n ==> vtx[..n][i] == vtx[i];
      }
      NoOverwriteReplacesNothing(r, ctx, nTime, u, vtx[..n]);
      ConnectTxsKeeps(r, ctx, nTime, u, vtx[..n]);
      var acc := ConnectTxs(r, ctx, nTime, u, vtx[..n]).value;
      assert vtx[n].hash !in u;
      assert forall i :: 0 <= i < n ==> vtx[..n][i].hash == vtx[i].hash;
      assert vtx[n].hash !in acc.utxo;
      if vtx[n].Spends() { UnspendAllInvertsSpendAll(acc.utxo, vtx[n].vin); }
    }
  }

  ghost predicate AvoidsAll(vtx: seq<Tx>, o: OutPoint) {
    forall i :: 0 <= i < |vtx| ==> vtx[i].Spends() ==> Avoids(vtx[i].vin, o)
  }

  // An output that is there after connecting, and was not created by it, was there before and
  // nothing spent it in between.
  lemma {:induction false} SurvivesTx(r: Rules, ctx: Context, nTime: nat, acc: Connected, tx: Tx, o: OutPoint)
    requires ctx.nHeight > 0 && Canonical(acc.utxo) && ProperOutputs(tx)
    requires ConnectTx(r, ctx, nTime, acc, tx).Some? && tx.hash != o.hash
    requires Unspent(ConnectTx(r, ctx, nTime, acc, tx).value.utxo, o)
    ensures Unspent(acc.utxo, o) && (tx.Spends() ==> Avoids(tx.vin, o))
  {
    hide ConnectTx;
    ConnectTxShape(r, ctx, nTime, acc, tx);
    UpdateCoinsMeaning(acc.utxo, tx, ctx.nHeight, o);
  }

  lemma {:induction false} SurvivesConnect(r: Rules, ctx: Context, nTime: nat, u: Utxo, vtx: seq<Tx>, o: OutPoint)
    requires ctx.nHeight > 0 && Canonical(u) && ProperTxs(vtx) && ConnectTxs(r, ctx, nTime, u, vtx).Some?
    requires Unspent(ConnectTxs(r, ctx, nTime, u, vtx).value.utxo, o)
    requires forall i :: 0 <= i < |vtx| ==> vtx[i].hash != o.hash
    ensures Unspent(u, o) && AvoidsAll(vtx, o)
  {
    hide ConnectTx, Canonical, Unspent, Avoids;
    if vtx != [] {
      var n := |vtx| - 1;
      var init := vtx[..n];
      ConnectTxsKeeps(r, ctx, nTime, u, init);
      SurvivesTx(r, ctx, nTime, ConnectTxs(r, ctx, nTime, u, init).value, vtx[n], o);
      SurvivesConnect(r, ctx, nTime, u, init, o);
      assert forall i :: 0 <= i < n ==> init[i] == vtx[i];
    }
  }

  // Undoing transactions can only bring back outputs they had spent.
  lemma {:induction false} UndoTxsBound(u: Utxo, vtx: seq<Tx>, nHeight: nat, vtxundo: seq<seq<TxInUndo>>, o: OutPoint)
    requires ProperTxs(vtx) && (vtx != [] ==> |vtxundo| + 1 == |vtx|)
    requires AvoidsAll(vtx, o) && !Unspent(u, o)
    ensures var back := UndoTxs(u, vtx, nHeight, vtxundo);
            back.Some? ==> !Unspent(back.value.utxo, o)
    decreases |vtx|
  {
    if vtx != [] {
      var i := |vtx| - 1;
      var undos := if i > 0 then vtxundo[i - 1] else [];
      var restore := i > 0 && !vtx[i].IsCustodianGrant();
      var one := UndoTx(u, vtx[i], nHeight, restore, undos);
      if one.Some? {
        if restore { UnspendAllBound(u - {vtx[i].hash}, vtx[i].vin, undos, o); }
        assert !Unspent(one.value.utxo, o);
        UndoTxsBound(one.value.utxo, vtx[..i], nHeight, if i > 0 then vtxundo[..i - 1] else [], o);
      }
    }
  }

  // Undoing the last transaction erases its record, so an output under that txid which nothing
  // in the block spent does not come back.
  lemma LostOutputStaysLost(u: Utxo, vtx: seq<Tx>, nHeight: nat, vtxundo: seq<seq<TxInUndo>>, o: OutPoint)
    requires ProperTxs(vtx) && vtx != [] && |vtxundo| + 1 == |vtx|
    requires AvoidsAll(vtx, o) && o.hash == vtx[|vtx| - 1].hash
    ensures var back := UndoTxs(u, vtx, nHeight, vtxundo);
            back.Some? ==> !Unspent(back.value.utxo, o)
  {
    var i := |vtx| - 1;
    var undos := if i > 0 then vtxundo[i - 1] else [];
    var restore := i > 0 && !vtx[i].IsCustodianGrant();
    var one := UndoTx(u, vtx[i], nHeight, restore, undos);
    if one.Some? {
      if restore { UnspendAllBound(u - {vtx[i].hash}, vtx[i].vin, undos, o); }
      UndoTxsBound(one.value.utxo, vtx[..i], nHeight, if i > 0 then vtxundo[..i - 1] else [], o);
    }
  }

  lemma {:induction false} LastReplacementIsLost(r: Rules, ctx: Context, nTime: nat, u: Utxo, vtx: seq<Tx>)
      returns (o: OutPoint)
    requires ctx.nHeight > 0 && Canonical(u) && ProperTxs(vtx) && vtx != []
    requires ConnectTxs(r, ctx, nTime, u, vtx).Some?
    requires var n := |vtx| - 1;
             vtx[n].hash in SpendInputs(ConnectTxs(r, ctx, nTime, u, vtx[..n]).value.utxo, vtx[n]).value.0
    ensures o.hash == vtx[|vtx| - 1].hash && Unspent(u, o) && AvoidsAll(vtx, o)
  {
    hide ConnectTx;
    var n := |vtx| - 1;
    var tx := vtx[n];
    var init := vtx[..n];
    ConnectTxsKeeps(r, ctx, nTime, u, init);
    var acc := ConnectTxs(r, ctx, nTime, u, init).value;
    ConnectTxShape(r, ctx, nTime, acc, tx);
    var u1 := SpendInputs(acc.utxo, tx).value.0;
    if tx.Spends() { UnspendAllInvertsSpendAll(acc.utxo, tx.vin); }
    o := SomeUnspent(u1, tx.hash);
    if tx.Spends() { SpendAllMeaning(acc.utxo, tx.vin, o); }
    SurvivesConnect(r, ctx, nTime, u, init, o);
    assert forall i :: 0 <= i < n ==> init[i] == vtx[i];
  }

  lemma {:induction false} ReplacementIsLost(r: Rules, ctx: Context, nTime: nat, u: Utxo, vtx: seq<Tx>)
    requires ctx.nHeight > 0 && Canonical(u) && ProperTxs(vtx) && ConnectTxs(r, ctx, nTime, u, vtx).Some?
    requires !ReplacesNothing(r, ctx, nTime, u, vtx)
    ensures var c := ConnectTxs(r, ctx, nTime, u, vtx).value;
            && |c.vtxundo| == |vtx| - 1
            && var back := UndoTxs(c.utxo, vtx, ctx.nHeight, c.vtxundo);
               back.Some? ==> back.value.utxo != u
  {
    ConnectTxsKeeps(r, ctx, nTime, u, vtx);
    var n := |vtx| - 1;
    var init := vtx[..n];
    var acc := ConnectTxs(r, ctx, nTime, u, init).value;
    var c := ConnectTxs(r, ctx, nTime, u, vtx).value;
    if vtx[n].hash in SpendInputs(acc.utxo, vtx[n]).value.0 {
      var o := LastReplacementIsLost(r, ctx, nTime, u, vtx);
      LostOutputStaysLost(c.utxo, vtx, ctx.nHeight, c.vtxundo, o);
    } else {
      ConnectTxsKeeps(r, ctx, nTime, u, init);
      if n > 0 { assert c.vtxundo[..n - 1] == acc.vtxundo; }
      UndoInvertsUpdate(acc.utxo, vtx[n], ctx.nHeight);
      ReplacementIsLost(r, ctx, nTime, u, init);
    }
  }

  // For any block that connects, let off BIP 30 or not: disconnecting it with the undo data
  // written while connecting gives back the earlier set exactly when no transaction of the block
  // replaced a record that still had unspent outputs; it is then also reported clean.
  lemma {:induction false} DisconnectInvertsConnectIff(r: Rules, ctx: Context, u: Utxo, b: Block)
    requires ctx.nHeight > 0 && Canonical(u) && ConnectBlock(r, ctx, u, b).Some?
    ensures var c := ConnectBlock(r, ctx, u, b).value;
            var back := DisconnectBlock(c.utxo, b, ctx.nHeight, c.vtxundo);
            && (ReplacesNothing(r, ctx, b.nTime, u, b.vtx) <==> back.Some? && back.value.utxo == u)
            && (ReplacesNothing(r, ctx, b.nTime, u, b.vtx) ==> back.value.clean)
  {
    CheckBlockIsProper(r, b);
    ConnectTxsKeeps(r, ctx, b.nTime, u, b.vtx);
    if ReplacesNothing(r, ctx, b.nTime, u, b.vtx) {
      UndoTxsInverts(r, ctx, b.nTime, u, b.vtx);
    } else {
      ReplacementIsLost(r, ctx, b.nTime, u, b.vtx);
    }
  }

  // For every block that connects under BIP 30, disconnecting it with the undo data written while
  // connecting gives back the earlier set exactly, and reports no inconsistency.
  lemma {:induction false} DisconnectInvertsConnect(r: Rules, ctx: Context, u: Utxo, b: Block)
    requires ctx.nHeight > 0 && Canonical(u) && ConnectBlock(r, ctx, u, b).Some?
    requires EnforceBIP30(ctx)
    ensures var c := ConnectBlock(r, ctx, u, b).value;
            && Canonical(c.utxo)
            && DisconnectBlock(c.utxo, b, ctx.nHeight, c.vtxundo) == Some(Undone(u, true))
  {
    CheckBlockIsProper(r, b);
    ConnectTxsKeeps(r, ctx, b.nTime, u, b.vtx);
    NoOverwriteReplacesNothing(r, ctx, b.nTime, u, b.vtx);
    UndoTxsInverts(r, ctx, b.nTime, u, b.vtx);
  }
}
