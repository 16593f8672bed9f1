/** Transactions, unspent-output records (CCoins) and blocks, and the meaning of connecting and
    disconnecting them, on plain values: a map from txid to the record of its unspent outputs. */
module Ledger {

  datatype Option<+T> = None | Some(value: T)

  type Hash = nat          // uint256
  type Script = seq<nat>   // the bytes of a CScript, not interpreted here

  const COIN := 10000
  const MAX_MONEY := 2000000000 * COIN
  const PROOF_OF_STAKE_REWARD := 40 * COIN
  const MIN_SHARE_TXOUT_AMOUNT := COIN
  const MIN_CURRENCY_TXOUT_AMOUNT := 100
  const UINT_MAX: nat := 0xFFFF_FFFF

  predicate MoneyRange(n: int) { 0 <= n <= MAX_MONEY }

  predicate IsValidUnit(u: char) { u == 'S' || u == 'B' }

  datatype TxOut = TxOut(nValue: int, scriptPubKey: Script) {
    predicate IsNull() { nValue == -1 }
    predicate IsEmpty() { nValue == 0 && scriptPubKey == [] }
  }

  // CTxOut(), also what SetNull leaves behind
  const NullOut := TxOut(-1, [])

  datatype OutPoint = OutPoint(hash: Hash, n: nat) {
    predicate IsNull() { hash == 0 && n == UINT_MAX }
  }

  datatype TxIn = TxIn(prevout: OutPoint, scriptSig: Script)

  datatype Tx = Tx(hash: Hash, nVersion: int, nTime: nat, vin: seq<TxIn>, vout: seq<TxOut>, cUnit: char) {
    predicate IsCoinBase() {
      cUnit == 'S' && |vin| == 1 && vin[0].prevout.IsNull() && |vout| >= 1
    }

    predicate IsCoinStake() {
      cUnit == 'S' && |vin| > 0 && !vin[0].prevout.IsNull() && |vout| >= 2 && vout[0].IsEmpty()
    }

    predicate IsCustodianGrant() {
      if cUnit == 'S' then
        |vin| == 1 && vin[0].prevout.hash == 0 && vin[0].prevout.n == UINT_MAX - 1 && |vout| >= 1
      else
        IsValidUnit(cUnit) && |vin| == 1 && vin[0].prevout.IsNull() && |vout| >= 1
    }

    // Coinbases and custodian grants create coins; every other transaction spends its inputs.
    predicate Spends() { !IsCoinBase() && !IsCustodianGrant() }

    function ValueOut(): int { SumOut(vout) }
  }

  function SumOut(vout: seq<TxOut>): int {
    if vout == [] then 0 else SumOut(vout[..|vout| - 1]) + vout[|vout| - 1].nValue
  }

  // ---------- CCoins ----------

  datatype Coins = Coins(fCoinBase: bool, vout: seq<TxOut>, nHeight: nat, nVersion: int,
                         fCoinStake: bool, nTime: nat, cUnit: char) {
    predicate IsAvailable(n: nat) { n < |vout| && !vout[n].IsNull() }
    predicate IsPruned() { forall i :: 0 <= i < |vout| ==> vout[i].IsNull() }
  }

  const NoCoins := Coins(false, [], 0, 0, false, 0, '?')

  function CoinsOf(tx: Tx, nHeight: nat): Coins {
    Coins(tx.IsCoinBase(), tx.vout, nHeight, tx.nVersion, tx.IsCoinStake(), tx.nTime, tx.cUnit)
  }

  datatype TxInUndo = TxInUndo(txout: TxOut, fCoinBase: bool, nHeight: nat, nVersion: int,
                               fCoinStake: bool, nTime: nat, cUnit: char)

  // CTxInUndo(txout): undo data for an output that was not the last one
  function PlainUndo(txout: TxOut): TxInUndo { TxInUndo(txout, false, 0, 0, false, 0, '?') }

  function LastUndo(txout: TxOut, c: Coins): TxInUndo {
    TxInUndo(txout, c.fCoinBase, c.nHeight, c.nVersion, c.fCoinStake, c.nTime, c.cUnit)
  }

  // ---------- what the disk keeps ----------

  // A variable-length integer written from a negative one ends after its lowest seven bits.
  function StoredVersion(nVersion: int): nat { if nVersion < 0 then nVersion % 128 else nVersion }

  // A record, or undo data, written to disk and read back. Undo data has a version only with a height.
  function StoredCoins(c: Coins): Coins { c.(nVersion := StoredVersion(c.nVersion)) }

  function StoredUndo(undo: TxInUndo): TxInUndo {
    undo.(nVersion := if undo.nHeight > 0 then StoredVersion(undo.nVersion) else 0)
  }

  // An array of outputs without spent outputs at its end; a spent output carries no script.
  ghost predicate Trimmed(vout: seq<TxOut>) {
    && (vout != [] ==> !vout[|vout| - 1].IsNull())
    && (forall i :: 0 <= i < |vout| && vout[i].IsNull() ==> vout[i] == NullOut)
  }

  function Trim(vout: seq<TxOut>): (r: seq<TxOut>) {
    if vout != [] && vout[|vout| - 1].IsNull() then Trim(vout[..|vout| - 1]) else vout
  }

  function Pad(vout: seq<TxOut>, size: nat): (r: seq<TxOut>)
  {
    if |vout| < size then vout + seq(size - |vout|, _ => NullOut) else vout
  }

  lemma {:induction false} TrimShape(vout: seq<TxOut>)
    ensures |Trim(vout)| <= |vout| && Trim(vout) == vout[..|Trim(vout)|]
    ensures forall i :: |Trim(vout)| <= i < |vout| ==> vout[i].IsNull()
    ensures Trim(vout) != [] ==> !Trim(vout)[|Trim(vout)| - 1].IsNull()
    ensures Trim(vout) == [] <==> forall i :: 0 <= i < |vout| ==> vout[i].IsNull()
  {
    if vout != [] && vout[|vout| - 1].IsNull() { TrimShape(vout[..|vout| - 1]); }
  }

  // ---------- the set of unspent outputs ----------

  type Utxo = map<Hash, Coins>

  // Every record is unpruned, trimmed, from a block above genesis.
  ghost predicate Canonical(u: Utxo) {
    forall h {:trigger u[h]} :: h in u ==> u[h].vout != [] && Trimmed(u[h].vout) && u[h].nHeight > 0
  }

  predicate Unspent(u: Utxo, o: OutPoint) { o.hash in u && u[o.hash].IsAvailable(o.n) }

  // An unspent output together with what its transaction's record says about it.
  function Record(u: Utxo, o: OutPoint): (TxOut, Coins)
    requires Unspent(u, o)
  {
    (u[o.hash].vout[o.n], u[o.hash].(vout := []))
  }

  ghost predicate Avoids(vin: seq<TxIn>, o: OutPoint) {
    forall i :: 0 <= i < |vin| ==> vin[i].prevout != o
  }

  function Spent(c: Coins, n: nat): Coins
    requires n < |c.vout|
  {
    c.(vout := Trim(c.vout[n := NullOut]))
  }

  // Spending one output: the new set, and what is kept to undo it.
  function SpendOne(u: Utxo, o: OutPoint): Option<(Utxo, TxInUndo)> {
    if !Unspent(u, o) then None
    else
      var c := u[o.hash];
      var d := Spent(c, o.n);
      if d.vout == [] then Some((u - {o.hash}, LastUndo(c.vout[o.n], c)))
      else Some((u[o.hash := d], PlainUndo(c.vout[o.n])))
  }

  // What DisconnectBlock does with one input; clean is false where it reports an inconsistency.
  datatype Undone = Undone(utxo: Utxo, clean: bool)

  // The record an input is restored into, before the output is put back: the one undo carries,
  // if it was the last output, otherwise the one found.
  function RestoreBase(c0: Coins, undo: TxInUndo): Coins {
    if undo.nHeight != 0
    then Coins(undo.fCoinBase, [], undo.nHeight, undo.nVersion, undo.fCoinStake, undo.nTime, undo.cUnit)
    else c0
  }

  function Restored(c0: Coins, n: nat, undo: TxInUndo): Coins {
    var c := RestoreBase(c0, undo);
    c.(vout := Pad(c.vout, n + 1)[n := undo.txout])
  }

  function UnspendOne(u: Utxo, o: OutPoint, undo: TxInUndo): Undone {
    var c0 := if o.hash in u then u[o.hash] else NoCoins;
    var clean := (o.hash in u <==> undo.nHeight == 0) && !RestoreBase(c0, undo).IsAvailable(o.n);
    Undone(u[o.hash := Restored(c0, o.n, undo)], clean)
  }

  lemma UnspendInvertsSpendVout(vout: seq<TxOut>, n: nat)
    requires Trimmed(vout) && n < |vout|
    ensures Pad(Trim(vout[n := NullOut]), n + 1)[n := vout[n]] == vout
    ensures Trimmed(Trim(vout[n := NullOut]))
    ensures Trim(vout[n := NullOut]) == [] ==> Pad([], n + 1)[n := vout[n]] == vout
  {
    var w := vout[n := NullOut];
    TrimShape(w);
    var t := Trim(w);
    if n < |vout| - 1 {
      assert !w[|vout| - 1].IsNull();
      assert t == w;
    } else {
      assert forall i :: |t| <= i < n ==> vout[i] == w[i] == NullOut;
      assert Pad(t, n + 1)[n := vout[n]] == vout;
    }
  }

  function UndoFor(c: Coins, n: nat): TxInUndo
    requires n < |c.vout|
  {
    if Spent(c, n).vout == [] then LastUndo(c.vout[n], c) else PlainUndo(c.vout[n])
  }

  lemma RestoredIsSpent(c: Coins, n: nat)
    requires Trimmed(c.vout) && c.IsAvailable(n) && c.nHeight > 0
    ensures var d := Spent(c, n);
            && Trimmed(d.vout) && !d.IsAvailable(n)
            && Restored(if d.vout == [] then NoCoins else d, n, UndoFor(c, n)) == c
  {
    UnspendInvertsSpendVout(c.vout, n);
    TrimShape(c.vout[n := NullOut]);
  }

  lemma UnspendInvertsSpend(u: Utxo, o: OutPoint)
    requires Canonical(u) && Unspent(u, o)
    ensures SpendOne(u, o).Some?
    ensures var (u', undo) := SpendOne(u, o).value;
            Canonical(u') && UnspendOne(u', o, undo) == Undone(u, true)
  {
    var c := u[o.hash];
    RestoredIsSpent(c, o.n);
    var (u', undo) := SpendOne(u, o).value;
    assert undo == UndoFor(c, o.n);
    assert u'[o.hash := c] == u;
  }

  // ---------- one transaction ----------

  function SpendAll(u: Utxo, vin: seq<TxIn>): Option<(Utxo, seq<TxInUndo>)> {
    if vin == [] then Some((u, []))
    else
      match SpendAll(u, vin[..|vin| - 1])
      case None => None
      case Some((u1, undos)) =>
        match SpendOne(u1, vin[|vin| - 1].prevout)
        case None => None
        case Some((u2, undo)) => Some((u2, undos + [undo]))
  }

  // Inputs are restored last to first.
  function UnspendAll(u: Utxo, vin: seq<TxIn>, undos: seq<TxInUndo>): Undone
    requires |vin| == |undos|
    decreases |vin|
  {
    if vin == [] then Undone(u, true)
    else
      var n := |vin| - 1;
      var one := UnspendOne(u, vin[n].prevout, undos[n]);
      var rest := UnspendAll(one.utxo, vin[..n], undos[..n]);
      Undone(rest.utxo, one.clean && rest.clean)
  }

  // The set once the inputs of tx are spent, before its outputs are added.
  function SpendInputs(u: Utxo, tx: Tx): Option<(Utxo, seq<TxInUndo>)> {
    if tx.Spends() then SpendAll(u, tx.vin) else Some((u, []))
  }

  function UpdateCoins(u: Utxo, tx: Tx, nHeight: nat): Option<(Utxo, seq<TxInUndo>)> {
    match SpendInputs(u, tx)
    case None => None
    case Some((u1, undos)) => Some((u1[tx.hash := CoinsOf(tx, nHeight)], undos))
  }

  // A transaction as CheckTransaction leaves it: some outputs, none of them null.
  ghost predicate ProperOutputs(tx: Tx) {
    tx.vout != [] && forall i :: 0 <= i < |tx.vout| ==> !tx.vout[i].IsNull()
  }

  // A negative version is not stored with the coins; it is put back before they are compared.
  function WithVersion(c: Coins, nVersion: int): Coins { if nVersion < 0 then c.(nVersion := nVersion) else c }

  // Undoing one transaction; None when its undo record has the wrong number of inputs.
  function UndoTx(u: Utxo, tx: Tx, nHeight: nat, restore: bool, undos: seq<TxInUndo>): Option<Undone> {
    var clean := tx.hash in u && WithVersion(u[tx.hash], tx.nVersion) == CoinsOf(tx, nHeight);
    var u1 := u - {tx.hash};
    if !restore then Some(Undone(u1, clean))
    else if |undos| != |tx.vin| then None
    else
      var r := UnspendAll(u1, tx.vin, undos);
      Some(Undone(r.utxo, clean && r.clean))
  }

  lemma {:induction false} UnspendAllInvertsSpendAll(u: Utxo, vin: seq<TxIn>)
    requires Canonical(u) && SpendAll(u, vin).Some?
    ensures var (u', undos) := SpendAll(u, vin).value;
            && Canonical(u') && |undos| == |vin|
            && u'.Keys <= u.Keys
            && UnspendAll(u', vin, undos) == Undone(u, true)
  {
    if vin != [] {
      var n := |vin| - 1;
      UnspendAllInvertsSpendAll(u, vin[..n]);
      var (u1, undos1) := SpendAll(u, vin[..n]).value;
      UnspendInvertsSpend(u1, vin[n].prevout);
      var (u2, undos) := SpendAll(u, vin).value;
      assert undos[..n] == undos1;
    }
  }

  lemma SpendOneMeaning(u: Utxo, p: OutPoint, o: OutPoint)
    requires Canonical(u) && SpendOne(u, p).Some?
    ensures var u' := SpendOne(u, p).value.0;
            && (Unspent(u', o) <==> Unspent(u, o) && o != p)
            && (Unspent(u', o) ==> Record(u', o) == Record(u, o))
  {
    var c := u[p.hash];
    var w := c.vout[p.n := NullOut];
    TrimShape(w);
    if o.hash == p.hash {
      if Unspent(u, o) && o != p { assert !w[o.n].IsNull(); }
      assert Spent(c, p.n).IsAvailable(o.n) <==> c.IsAvailable(o.n) && o != p;
    }
  }

  // What spending does to every output: exactly the spent ones go, the others keep their record.
  lemma {:induction false} SpendAllMeaning(u: Utxo, vin: seq<TxIn>, o: OutPoint)
    requires Canonical(u) && SpendAll(u, vin).Some?
    ensures var u' := SpendAll(u, vin).value.0;
            && (Unspent(u', o) <==> Unspent(u, o) && Avoids(vin, o))
            && (Unspent(u', o) ==> Record(u', o) == Record(u, o))
  {
    if vin != [] {
      var n := |vin| - 1;
      var ins := vin[..n];
      var u1 := SpendAll(u, ins).value.0;
      var u2 := SpendOne(u1, vin[n].prevout).value.0;
      assert SpendAll(u, vin).value.0 == u2;
      assert Canonical(u1) by { UnspendAllInvertsSpendAll(u, ins); }
      SpendAllMeaning(u, ins, o);
      SpendOneMeaning(u1, vin[n].prevout, o);
      assert Avoids(vin, o) <==> Avoids(ins, o) && vin[n].prevout != o;
    }
  }

  // Restoring inputs can only make those inputs available.
  lemma {:induction false} UnspendAllBound(u: Utxo, vin: seq<TxIn>, undos: seq<TxInUndo>, o: OutPoint)
    requires |vin| == |undos|
    requires Avoids(vin, o)
    ensures Unspent(UnspendAll(u, vin, undos).utxo, o) ==> Unspent(u, o)
    decreases |vin|
  {
    if vin != [] {
      var n := |vin| - 1;
      var one := UnspendOne(u, vin[n].prevout, undos[n]);
      UnspendAllBound(one.utxo, vin[..n], undos[..n], o);
    }
  }

  // An available output of a record in a canonical set.
  lemma SomeUnspent(u: Utxo, h: Hash) returns (o: OutPoint)
    requires Canonical(u) && h in u
    ensures o.hash == h && Unspent(u, o)
  {
    o := OutPoint(h, |u[h].vout| - 1);
  }

  // Undoing a transaction restores the set it was applied to if and only if its own record did
  // not replace one that still had unspent outputs once the transaction's inputs were spent.
  lemma {:induction false} UndoInvertsUpdate(u: Utxo, tx: Tx, nHeight: nat)
    requires Canonical(u) && nHeight > 0 && ProperOutputs(tx)
    requires UpdateCoins(u, tx, nHeight).Some?
    ensures var (u', undos) := UpdateCoins(u, tx, nHeight).value;
            var back := UndoTx(u', tx, nHeight, tx.Spends(), undos);
            && Canonical(u') && u'.Keys <= u.Keys + {tx.hash}
            && back.Some?
            && (tx.hash !in SpendInputs(u, tx).value.0 ==> back == Some(Undone(u, true)))
            && (tx.hash in SpendInputs(u, tx).value.0 ==> back.value.utxo != u)
  {
    if tx.Spends() { UnspendAllInvertsSpendAll(u, tx.vin); }
    var (u1, undos) := SpendInputs(u, tx).value;
    var u' := u1[tx.hash := CoinsOf(tx, nHeight)];
    if tx.hash !in u1 {
      assert u' - {tx.hash} == u1;
    } else {
      var o := SomeUnspent(u1, tx.hash);
      if tx.Spends() {
        SpendAllMeaning(u, tx.vin, o);
        UnspendAllBound(u' - {tx.hash}, tx.vin, undos, o);
      }
    }
  }

  // The textbook reading of UpdateCoins: the inputs are gone, the outputs are there, every other
  // output is untouched.
  lemma UpdateCoinsMeaning(u: Utxo, tx: Tx, nHeight: nat, o: OutPoint)
    requires Canonical(u) && ProperOutputs(tx) && UpdateCoins(u, tx, nHeight).Some?
    ensures var u' := UpdateCoins(u, tx, nHeight).value.0;
            && (o.hash == tx.hash ==>
                  && (Unspent(u', o) <==> o.n < |tx.vout|) && o.hash in u'
                  && u'[o.hash].vout == tx.vout && u'[o.hash].nHeight == nHeight && u'[o.hash].nVersion == tx.nVersion
                  && u'[o.hash].nTime == tx.nTime && u'[o.hash].cUnit == tx.cUnit
                  && (u'[o.hash].fCoinBase <==> tx.IsCoinBase()) && (u'[o.hash].fCoinStake <==> tx.IsCoinStake()))
            && (o.hash != tx.hash ==>
                  && (Unspent(u', o) <==>
                      Unspent(u, o) && (tx.Spends() ==> Avoids(tx.vin, o)))
                  && (Unspent(u', o) ==> Record(u', o) == Record(u, o)))
  {
    if tx.Spends() { SpendAllMeaning(u, tx.vin, o); }
  }

  // What undoing finds fault with, and what it does where it finds none: an input is put back clean exactly if the
  // undo data says what record to make and there is none, or says nothing and there is one without that output; then
  // that output is back, and no other one is touched.
  lemma UnspendOneMeaning(u: Utxo, o: OutPoint, undo: TxInUndo, p: OutPoint)
    requires Canonical(u) && !undo.txout.IsNull()
    ensures var r := UnspendOne(u, o, undo);
            && (r.clean <==> if undo.nHeight != 0 then o.hash !in u else o.hash in u && !Unspent(u, o))
            && (r.clean ==> && Unspent(r.utxo, o) && r.utxo[o.hash].vout[o.n] == undo.txout
                            && (p != o ==> (Unspent(r.utxo, p) <==> Unspent(u, p)))
                            && (p != o && Unspent(u, p) ==> Record(r.utxo, p) == Record(u, p)))
            && (r.clean && undo.nHeight != 0 ==>
                  var c := r.utxo[o.hash];
                  && c.nHeight == undo.nHeight && c.nVersion == undo.nVersion && c.nTime == undo.nTime && c.cUnit == undo.cUnit
                  && c.fCoinBase == undo.fCoinBase && c.fCoinStake == undo.fCoinStake)
  {
    var c0 := if o.hash in u then u[o.hash] else NoCoins;
    PadKeeps(RestoreBase(c0, undo).vout, o.n, undo.txout, p.n);
    hide Pad;
  }

  lemma PadKeeps(vout: seq<TxOut>, n: nat, txout: TxOut, m: nat)
    ensures var w := Pad(vout, n + 1)[n := txout];
            && |w| > n && w[n] == txout
            && (m != n ==> (m < |w| && !w[m].IsNull() <==> m < |vout| && !vout[m].IsNull()))
            && (m != n && m < |vout| ==> m < |w| && w[m] == vout[m])
  {}

  // A transaction is taken out clean exactly if its record holds all of its outputs and says of them what it does,
  // where a negative version counts as right.
  lemma UndoTxMeaning(u: Utxo, tx: Tx, nHeight: nat)
    ensures UndoTx(u, tx, nHeight, false, []).Some?
    ensures var r := UndoTx(u, tx, nHeight, false, []).value;
            && tx.hash !in r.utxo && (forall h :: h in u && h != tx.hash ==> h in r.utxo && r.utxo[h] == u[h]) && r.utxo.Keys <= u.Keys
            && (r.clean <==>
                  && tx.hash in u && u[tx.hash].vout == tx.vout && u[tx.hash].nHeight == nHeight
                  && (u[tx.hash].fCoinBase <==> tx.IsCoinBase()) && (u[tx.hash].fCoinStake <==> tx.IsCoinStake())
                  && u[tx.hash].nTime == tx.nTime && u[tx.hash].cUnit == tx.cUnit
                  && (tx.nVersion < 0 || u[tx.hash].nVersion == tx.nVersion))
  {}

  // HaveInputs tests each input on its own; with distinct inputs that is enough to spend them all.
  predicate HaveInputs(u: Utxo, vin: seq<TxIn>) {
    forall i :: 0 <= i < |vin| ==> Unspent(u, vin[i].prevout)
  }

  predicate DistinctInputs(vin: seq<TxIn>) {
    forall i, j :: 0 <= i < j < |vin| ==> vin[i].prevout != vin[j].prevout
  }

  lemma {:induction false} HaveInputsSuffices(u: Utxo, vin: seq<TxIn>)
    requires Canonical(u) && DistinctInputs(vin)
    ensures HaveInputs(u, vin) <==> SpendAll(u, vin).Some?
  {
    if vin != [] {
      var n := |vin| - 1;
      HaveInputsSuffices(u, vin[..n]);
      if SpendAll(u, vin[..n]).Some? {
        SpendAllMeaning(u, vin[..n], vin[n].prevout);
        assert forall i :: 0 <= i < n ==> vin[..n][i].prevout != vin[n].prevout;
      }
      assert HaveInputs(u, vin) <==> HaveInputs(u, vin[..n]) && Unspent(u, vin[n].prevout);
    }
  }
}
