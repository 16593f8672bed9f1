/** Filling a new block from the memory pool: a queue of transactions that are ready, and transactions that
    wait for others of the pool to be placed first. */
module BlockAssembly {
  import opened Ledger
  import opened Blocks
  import opened CoinsView
  import opened Validity

  // What is decided about single transactions, for a block of height nHeight after hashPrev, filled at a time
  // and behind a coinstake of a time.
  datatype Policy = Policy(r: Rules, hashPrev: Hash, nHeight: nat, eligible: Tx -> bool,
                           nAdjustedTime: nat, nStakeTime: Option<nat>, nBlockMaxSize: nat) {
    predicate Timely(tx: Tx) { !(tx.nTime > nAdjustedTime || (nStakeTime.Some? && tx.nTime > nStakeTime.value)) }

    function size(tx: Tx): nat { r.txSize(tx) }

    function P2SH(tx: Tx, v: Utxo): nat { if HaveInputs(v, tx.vin) then P2SHSigOps(r, v, tx, |tx.vin|) else 0 }

    predicate PaysFee(tx: Tx, v: Utxo)
      requires HaveInputs(v, tx.vin)
    {
      SumIn(v, tx.vin) - tx.ValueOut() >= GetMinFee(r.unitMinFee(hashPrev, tx.cUnit), 0) || IsUnpark(r, tx)
    }
  }

  // A pool transaction, by its hash. It has been checked by itself, and the coinbase, coinstake and grants of
  // a block never are such.
  ghost predicate PoolTx(tx: Tx, h: Hash, p: Policy) {
    tx.hash == h && CheckTransaction(p.r, tx) && (p.eligible(tx) ==> tx.Spends() && !tx.IsCoinStake())
  }

  ghost predicate PoolOk(mapTx: map<Hash, Tx>, p: Policy) {
    forall h :: h in mapTx ==> PoolTx(mapTx[h], h, p)
  }

  // ---------- which transactions take part ----------

  // How many inputs are looked at: up to the first that neither the view nor the pool knows.
  function Seen(tx: Tx, mapTx: map<Hash, Tx>, view: map<Hash, Coins>, i: nat): (n: nat)
    requires i <= |tx.vin|
    ensures i <= n <= |tx.vin| && (n < |tx.vin| ==> tx.vin[n].prevout.hash !in view && tx.vin[n].prevout.hash !in mapTx)
    ensures forall j :: i <= j < n ==> tx.vin[j].prevout.hash in view || tx.vin[j].prevout.hash in mapTx
    decreases |tx.vin| - i
  {
    if i < |tx.vin| && (tx.vin[i].prevout.hash in view || tx.vin[i].prevout.hash in mapTx) then Seen(tx, mapTx, view, i + 1) else i
  }

  // A transaction with a missing input is left out.
  predicate Missing(tx: Tx, mapTx: map<Hash, Tx>, view: map<Hash, Coins>) { Seen(tx, mapTx, view, 0) < |tx.vin| }

  // The pool transactions that the first n inputs wait for: those the view does not have.
  function AwaitedBy(tx: Tx, view: map<Hash, Coins>, n: nat): set<Hash>
    requires n <= |tx.vin|
  {
    set i | 0 <= i < n && tx.vin[i].prevout.hash !in view :: tx.vin[i].prevout.hash
  }

  function Awaited(tx: Tx, view: map<Hash, Coins>): set<Hash> { AwaitedBy(tx, view, |tx.vin|) }

  // What is entered under the hashes an entry waits for, before a missing input is met.
  function Entered(tx: Tx, mapTx: map<Hash, Tx>, view: map<Hash, Coins>): set<Hash> {
    AwaitedBy(tx, view, Seen(tx, mapTx, view, 0))
  }

  predicate Candidate(mapTx: map<Hash, Tx>, p: Policy, view: map<Hash, Coins>, h: Hash) {
    h in mapTx && p.eligible(mapTx[h]) && !Missing(mapTx[h], mapTx, view)
  }

  // A transaction that is left out for a missing input after it has been entered as waiting: its entry is
  // freed, and stays listed.
  predicate Dangles(mapTx: map<Hash, Tx>, p: Policy, view: map<Hash, Coins>, h: Hash) {
    h in mapTx && p.eligible(mapTx[h]) && Missing(mapTx[h], mapTx, view) && Entered(mapTx[h], mapTx, view) != {}
  }

  ghost predicate NoneDangles(mapTx: map<Hash, Tx>, p: Policy, view: map<Hash, Coins>) {
    forall h :: h in mapTx ==> !Dangles(mapTx, p, view, h)
  }

  // ---------- what a filled block is ----------

  // Why a transaction may follow a view.
  predicate Acceptable(p: Policy, v: Utxo, tx: Tx)
    requires p.nHeight > 0
  {
    HaveInputs(v, tx.vin) && p.Timely(tx) && p.PaysFee(tx, v) && CheckInputs(p.r, p.hashPrev, p.nHeight - 1, v, tx, true)
  }

  // The view after the chosen transactions, if each of them was acceptable when its turn came.
  function ViewAfter(p: Policy, u: Utxo, vtx: seq<Tx>): Option<Utxo>
    requires p.nHeight > 0
  {
    if vtx == [] then Some(u)
    else
      var tx := vtx[|vtx| - 1];
      match ViewAfter(p, u, vtx[..|vtx| - 1])
      case None => None
      case Some(v) =>
        if !Acceptable(p, v, tx) then None
        else match UpdateCoins(v, tx, p.nHeight) case None => None case Some((w, _)) => Some(w)
  }

  function TotalSize(p: Policy, vtx: seq<Tx>): nat {
    if vtx == [] then 1000 else TotalSize(p, vtx[..|vtx| - 1]) + p.size(vtx[|vtx| - 1])
  }

  // 100 are kept back for the coinbase.
  function TotalSigOps(p: Policy, u: Utxo, vtx: seq<Tx>): nat
    requires p.nHeight > 0
  {
    if vtx == [] then 100
    else
      var front := vtx[..|vtx| - 1];
      var tx := vtx[|vtx| - 1];
      match ViewAfter(p, u, front)
      case None => 0
      case Some(v) => TotalSigOps(p, u, front) + p.r.legacySigOps(tx) + p.P2SH(tx, v)
  }

  // A transaction is placed after those chosen so far exactly if this holds.
  predicate MayFollow(p: Policy, u: Utxo, vtx: seq<Tx>, tx: Tx)
    requires p.nHeight > 0
  {
    match ViewAfter(p, u, vtx)
    case None => false
    case Some(v) =>
      && Acceptable(p, v, tx) && TotalSize(p, vtx) + p.size(tx) < p.nBlockMaxSize
      && TotalSigOps(p, u, vtx) + p.r.legacySigOps(tx) + p.P2SH(tx, v) < MAX_BLOCK_SIGOPS
  }

  // The block that results when the pool transactions are tried in the given order.
  function Tried(mapTx: map<Hash, Tx>, p: Policy, u: Utxo, order: seq<Hash>): seq<Tx>
    requires p.nHeight > 0 && forall i :: 0 <= i < |order| ==> order[i] in mapTx
  {
    if order == [] then []
    else
      var n := |order| - 1;
      var vtx := Tried(mapTx, p, u, order[..n]);
      var tx := mapTx[order[n]];
      if MayFollow(p, u, vtx, tx) then vtx + [tx] else vtx
  }

  ghost function Ids(vtx: seq<Tx>): set<Hash> { set tx | tx in vtx :: tx.hash }

  // An order in which the queue may hand out transactions: candidates only, none twice, and each only when
  // everything it waits for has been placed.
  ghost predicate HandedOut(mapTx: map<Hash, Tx>, p: Policy, view: map<Hash, Coins>, order: seq<Hash>)
    requires p.nHeight > 0
  {
    && (forall i :: 0 <= i < |order| ==> order[i] in mapTx && Candidate(mapTx, p, view, order[i]))
    && Unique(order)
    && forall i :: 0 <= i < |order| ==> Awaited(mapTx[order[i]], view) <= Ids(Tried(mapTx, p, Canon(view), order[..i]))
  }

  // The order is complete: no other candidate has everything it waits for in the block.
  ghost predicate Exhausted(mapTx: map<Hash, Tx>, p: Policy, view: map<Hash, Coins>, order: seq<Hash>, vtx: seq<Tx>) {
    forall h :: Candidate(mapTx, p, view, h) && Awaited(mapTx[h], view) <= Ids(vtx) ==> h in order
  }

  lemma TriedNext(mapTx: map<Hash, Tx>, p: Policy, u: Utxo, order: seq<Hash>)
    requires p.nHeight > 0 && order != [] && forall i :: 0 <= i < |order| ==> order[i] in mapTx
    ensures var n := |order| - 1;
            var vtx, tx := Tried(mapTx, p, u, order[..n]), mapTx[order[n]];
            Tried(mapTx, p, u, order) == if MayFollow(p, u, vtx, tx) then vtx + [tx] else vtx
  {}

  // ---------- what it takes to be placed ----------

  function Sizes(p: Policy, vtx: seq<Tx>): nat { if vtx == [] then 0 else Sizes(p, vtx[..|vtx| - 1]) + p.size(vtx[|vtx| - 1]) }

  // The context of the new block, and a time at which the scripts of what is spent are counted.
  function NewBlock(p: Policy): Context { Context(0, p.hashPrev, p.nHeight) }
  const COUNTING := 1333238400

  // A transaction may stand behind others: it is later neither than the clock nor than the coinstake, all rules on
  // spending are met, signatures included, and with 1000 bytes and 100 signature operations kept back the block stays
  // below its limits.
  ghost predicate FitsBehind(p: Policy, u: Utxo, vtx: seq<Tx>, tx: Tx) {
    && After(u, vtx, p.nHeight).Some?
    && tx.nTime <= p.nAdjustedTime && (p.nStakeTime != None ==> tx.nTime <= p.nStakeTime.value)
    && GoodSpend(p.r, p.hashPrev, p.nHeight, After(u, vtx, p.nHeight).value, tx, true)
    && 1000 + Sizes(p, vtx) + p.size(tx) < p.nBlockMaxSize
    && 100 + AllSigOps(p.r, NewBlock(p), COUNTING, u, vtx) + SigOps(p.r, COUNTING, After(u, vtx, p.nHeight).value, tx) < 20000
  }

  ghost predicate Placeable(p: Policy, tx: Tx) { CheckTransaction(p.r, tx) && tx.Spends() && !tx.IsCoinStake() }

  ghost predicate AllPlaceable(p: Policy, vtx: seq<Tx>) { forall k :: 0 <= k < |vtx| ==> Placeable(p, vtx[k]) }

  // A transaction that meets the rules on spending pays the minimum fee, unless it is an unpark.
  lemma AcceptableIff(p: Policy, v: Utxo, tx: Tx)
    requires p.nHeight > 0 && Placeable(p, tx)
    ensures Acceptable(p, v, tx) <==> p.Timely(tx) && GoodSpend(p.r, p.hashPrev, p.nHeight, v, tx, true)
  {
    SpendIff(p.r, p.hashPrev, p.nHeight - 1, v, tx, true);
    hide GoodSpend, CheckTransaction, CheckInput, CheckUnpark, SumIn, HaveInputs;
  }

  lemma {:induction false} ViewIs(p: Policy, u: Utxo, vtx: seq<Tx>)
    requires p.nHeight > 0 && AllPlaceable(p, vtx) && ViewAfter(p, u, vtx).Some?
    ensures After(u, vtx, p.nHeight) == ViewAfter(p, u, vtx)
    ensures TotalSize(p, vtx) == 1000 + Sizes(p, vtx)
    ensures TotalSigOps(p, u, vtx) == 100 + AllSigOps(p.r, NewBlock(p), COUNTING, u, vtx)
  {
    if vtx != [] {
      var n := |vtx| - 1;
      assert AllPlaceable(p, vtx[..n]) && Placeable(p, vtx[n]);
      ViewIs(p, u, vtx[..n]);
      OpsAre(p, ViewAfter(p, u, vtx[..n]).value, vtx[n]);
    }
    hide Acceptable, Placeable, UpdateCoins, Policy.P2SH, SigOps;
  }

  lemma OpsAre(p: Policy, v: Utxo, tx: Tx)
    requires Placeable(p, tx)
    ensures SigOps(p.r, COUNTING, v, tx) == p.r.legacySigOps(tx) + p.P2SH(tx, v)
  {
    if HaveInputs(v, tx.vin) { ScriptSigOpsAre(p.r, v, tx, 0); }
    hide HaveInputs, ScriptSigOps, CheckTransaction;
  }

  lemma {:induction false} FitsIff(p: Policy, u: Utxo, vtx: seq<Tx>, tx: Tx)
    requires p.nHeight > 0 && AllPlaceable(p, vtx) && Placeable(p, tx) && ViewAfter(p, u, vtx).Some?
    ensures MayFollow(p, u, vtx, tx) <==> FitsBehind(p, u, vtx, tx)
  {
    ViewIs(p, u, vtx);
    AcceptableIff(p, ViewAfter(p, u, vtx).value, tx);
    OpsAre(p, ViewAfter(p, u, vtx).value, tx);
    hide Acceptable, Placeable, GoodSpend, SigOps, Policy.P2SH, After, ViewAfter, AllPlaceable;
  }

  // Every transaction of a filled block fits behind those before it.
  lemma {:induction false} FilledFits(p: Policy, u: Utxo, vtx: seq<Tx>, k: nat)
    requires p.nHeight > 0 && AllPlaceable(p, vtx) && ViewAfter(p, u, vtx).Some? && k < |vtx|
    requires TotalSize(p, vtx) < p.nBlockMaxSize && TotalSigOps(p, u, vtx) < MAX_BLOCK_SIGOPS
    ensures FitsBehind(p, u, vtx[..k], vtx[k])
  {
    var n := |vtx| - 1;
    hide Acceptable, Placeable, FitsBehind, UpdateCoins, Policy.P2SH;
    if k < n {
      assert vtx[..n][..k] == vtx[..k];
      FilledFits(p, u, vtx[..n], k);
    } else {
      FitsIff(p, u, vtx[..n], vtx[n]);
    }
  }

  // Each fits behind those before it.
  ghost predicate AllFit(p: Policy, u: Utxo, vtx: seq<Tx>) { forall k :: 0 <= k < |vtx| ==> FitsBehind(p, u, vtx[..k], vtx[k]) }

  lemma {:induction false} FilledAllFit(mapTx: map<Hash, Tx>, p: Policy, u: Utxo, vtx: seq<Tx>, v: Utxo, nBlockSize: nat, nBlockSigOps: nat)
    requires p.nHeight > 0 && PoolOk(mapTx, p) && Filled(p, u, vtx, v, nBlockSize, nBlockSigOps) && FromPool(mapTx, p, vtx, Ids(vtx))
    ensures AllFit(p, u, vtx)
  {
    hide FitsBehind, ViewAfter, TotalSize, TotalSigOps, Canonical, CheckTransaction;
    forall k | 0 <= k < |vtx| ensures Placeable(p, vtx[k]) { assert PoolTx(mapTx[vtx[k].hash], vtx[k].hash, p); }
    forall k | 0 <= k < |vtx| ensures FitsBehind(p, u, vtx[..k], vtx[k]) { FilledFits(p, u, vtx, k); }
  }

  // Whatever the order, the transactions tried leave a view.
  lemma {:induction false} TriedView(mapTx: map<Hash, Tx>, p: Policy, u: Utxo, order: seq<Hash>)
    requires p.nHeight > 0 && Canonical(u) && PoolOk(mapTx, p) && forall i :: 0 <= i < |order| ==> order[i] in mapTx && p.eligible(mapTx[order[i]])
    ensures var vtx := Tried(mapTx, p, u, order);
            AllPlaceable(p, vtx) && ViewAfter(p, u, vtx).Some? && Canonical(ViewAfter(p, u, vtx).value)
  {
    if order != [] {
      var n := |order| - 1;
      TriedView(mapTx, p, u, order[..n]);
      TriedNext(mapTx, p, u, order);
      var was, tx := Tried(mapTx, p, u, order[..n]), mapTx[order[n]];
      assert PoolTx(tx, order[n], p);
      hide Tried, PoolTx, PoolOk, Canonical, CheckTransaction;
      if MayFollow(p, u, was, tx) {
        var v := ViewAfter(p, u, was).value;
        AcceptableAdds(p, v, tx, order[n]);
        ViewGrows(p, u, was, tx);
      }
    }
  }

  lemma ViewGrows(p: Policy, u: Utxo, vtx: seq<Tx>, tx: Tx)
    requires p.nHeight > 0 && ViewAfter(p, u, vtx).Some? && Acceptable(p, ViewAfter(p, u, vtx).value, tx)
    requires UpdateCoins(ViewAfter(p, u, vtx).value, tx, p.nHeight).Some?
    ensures ViewAfter(p, u, vtx + [tx]) == Some(UpdateCoins(ViewAfter(p, u, vtx).value, tx, p.nHeight).value.0)
  {
    assert (vtx + [tx])[..|vtx|] == vtx;
    hide Acceptable, UpdateCoins;
  }

  // A transaction handed out is in the block exactly if it fits behind those that were in it when its turn came.
  lemma {:induction false} PlacedIff(mapTx: map<Hash, Tx>, p: Policy, view: map<Hash, Coins>, order: seq<Hash>, i: nat)
    requires PoolOk(mapTx, p) && ViewOk(view) && p.nHeight > 0 && HandedOut(mapTx, p, view, order) && i < |order|
    ensures var vtx := Tried(mapTx, p, Canon(view), order[..i]);
            && vtx <= Tried(mapTx, p, Canon(view), order)
            && (mapTx[order[i]] in Tried(mapTx, p, Canon(view), order) <==> FitsBehind(p, Canon(view), vtx, mapTx[order[i]]))
  {
    CanonIsCanonical(view);
    assert forall j :: 0 <= j < |order| ==> Candidate(mapTx, p, view, order[j]) && order[j] in mapTx && p.eligible(mapTx[order[j]]);
    assert PoolTx(mapTx[order[i]], order[i], p);
    hide MayFollow, Tried, Candidate, Awaited, Canon, ViewOk, FitsBehind, PoolOk;
    PlacedAt(mapTx, p, Canon(view), order, i);
    TriedView(mapTx, p, Canon(view), order[..i]);
    FitsIff(p, Canon(view), Tried(mapTx, p, Canon(view), order[..i]), mapTx[order[i]]);
  }

  lemma {:induction false} PlacedAt(mapTx: map<Hash, Tx>, p: Policy, u: Utxo, order: seq<Hash>, i: nat)
    requires PoolOk(mapTx, p) && p.nHeight > 0 && i < |order| && forall j :: 0 <= j < |order| ==> order[j] in mapTx
    requires Unique(order)
    ensures var vtx := Tried(mapTx, p, u, order[..i]);
            && vtx <= Tried(mapTx, p, u, order)
            && (mapTx[order[i]] in Tried(mapTx, p, u, order) <==> MayFollow(p, u, vtx, mapTx[order[i]]))
    decreases |order|
  {
    hide MayFollow, Tried, PoolTx;
    var n := |order| - 1;
    var front := order[..n];
    TriedNext(mapTx, p, u, order);
    var was, tx := Tried(mapTx, p, u, front), mapTx[order[n]];
    InPool(mapTx, p, order[n]);
    NotTried(mapTx, p, u, front, tx);
    assert tx in was + [tx];
    if i < n {
      assert front[..i] == order[..i] && front[i] == order[i];
      PlacedAt(mapTx, p, u, front, i);
      InPool(mapTx, p, order[i]);
    }
  }

  lemma NotTried(mapTx: map<Hash, Tx>, p: Policy, u: Utxo, order: seq<Hash>, tx: Tx)
    requires PoolOk(mapTx, p) && p.nHeight > 0 && (forall j :: 0 <= j < |order| ==> order[j] in mapTx) && tx.hash !in order
    ensures tx !in Tried(mapTx, p, u, order)
  {
    hide Tried, PoolTx;
    TriedIsOfOrder(mapTx, p, u, order);
  }

  lemma InPool(mapTx: map<Hash, Tx>, p: Policy, h: Hash)
    requires PoolOk(mapTx, p) && h in mapTx
    ensures mapTx[h].hash == h
  {
    assert PoolTx(mapTx[h], h, p);
  }

  lemma {:induction false} TriedIsOfOrder(mapTx: map<Hash, Tx>, p: Policy, u: Utxo, order: seq<Hash>)
    requires PoolOk(mapTx, p) && p.nHeight > 0 && forall i :: 0 <= i < |order| ==> order[i] in mapTx
    ensures forall tx :: tx in Tried(mapTx, p, u, order) ==> tx.hash in order
  {
    if order != [] {
      var n := |order| - 1;
      TriedIsOfOrder(mapTx, p, u, order[..n]);
      InPool(mapTx, p, order[n]);
    }
  }

  // Every unspent output in the view comes from the start or from a chosen transaction.
  lemma {:induction false} UnspentComesFrom(p: Policy, u: Utxo, vtx: seq<Tx>, o: OutPoint)
    requires p.nHeight > 0 && ViewAfter(p, u, vtx).Some? && Unspent(ViewAfter(p, u, vtx).value, o)
    ensures Unspent(u, o) || exists j :: 0 <= j < |vtx| && vtx[j].hash == o.hash
  {
    hide Acceptable;
    if vtx != [] {
      var front := vtx[..|vtx| - 1];
      var tx := vtx[|vtx| - 1];
      var v := ViewAfter(p, u, front).value;
      if o.hash != tx.hash {
        SpendOnlyRemoves(v, tx, p.nHeight, o);
        UnspentComesFrom(p, u, front, o);
        if !Unspent(u, o) {
          var j :| 0 <= j < |front| && front[j].hash == o.hash;
          assert vtx[j].hash == o.hash;
        }
      }
    }
  }

  lemma {:induction false} SpendAllOnlyRemoves(u: Utxo, vin: seq<TxIn>, o: OutPoint)
    requires SpendAll(u, vin).Some? && Unspent(SpendAll(u, vin).value.0, o)
    ensures Unspent(u, o)
  {
    if vin != [] {
      var n := |vin| - 1;
      var u1 := SpendAll(u, vin[..n]).value.0;
      var q := vin[n].prevout;
      var w := u1[q.hash].vout[q.n := NullOut];
      TrimShape(w);
      SpendAllOnlyRemoves(u, vin[..n], o);
    }
  }

  lemma SpendOnlyRemoves(v: Utxo, tx: Tx, nHeight: nat, o: OutPoint)
    requires UpdateCoins(v, tx, nHeight).Some? && Unspent(UpdateCoins(v, tx, nHeight).value.0, o) && o.hash != tx.hash
    ensures Unspent(v, o)
  {
    if tx.Spends() { SpendAllOnlyRemoves(v, tx.vin, o); }
  }

  // Every chosen transaction spends outputs of the chain or of transactions placed before it.
  lemma {:induction false} ParentsComeFirst(p: Policy, u: Utxo, vtx: seq<Tx>, k: nat, i: nat)
    requires p.nHeight > 0 && ViewAfter(p, u, vtx).Some? && k < |vtx| && i < |vtx[k].vin|
    ensures Unspent(u, vtx[k].vin[i].prevout) || exists j :: 0 <= j < k && vtx[j].hash == vtx[k].vin[i].prevout.hash
  {
    var front := vtx[..|vtx| - 1];
    if k < |vtx| - 1 {
      ParentsComeFirst(p, u, front, k, i);
    } else {
      UnspentComesFrom(p, u, front, vtx[k].vin[i].prevout);
    }
  }

  // An acceptable transaction can be added, and the view stays one.
  lemma AcceptableAdds(p: Policy, v: Utxo, tx: Tx, h: Hash)
    requires p.nHeight > 0 && Canonical(v) && PoolTx(tx, h, p) && p.eligible(tx) && HaveInputs(v, tx.vin)
    ensures UpdateCoins(v, tx, p.nHeight).Some? && Canonical(UpdateCoins(v, tx, p.nHeight).value.0)
  {
    CheckedIsProper(p.r, tx);
    HaveInputsSuffices(v, tx.vin);
    UnspendAllInvertsSpendAll(v, tx.vin);
    assert Trimmed(tx.vout) && !CoinsOf(tx, p.nHeight).IsPruned();
  }

  // ---------- the queue ----------

  // The waiting transactions have struck off what has been placed, and those with nothing left are queued.
  ghost predicate Waiting(awaited: map<Hash, set<Hash>>, setDependsOn: map<Hash, set<Hash>>, placed: set<Hash>, queued: set<Hash>) {
    && setDependsOn.Keys == awaited.Keys
    && forall h :: h in awaited ==> setDependsOn[h] == awaited[h] - placed && (setDependsOn[h] == {} <==> h in queued)
  }

  // The queue holds what has been queued and not yet taken, once.
  ghost predicate Holds(vecPriority: seq<Hash>, queued: set<Hash>, taken: set<Hash>) {
    && (forall h :: h in vecPriority <==> h in queued && h !in taken) && Unique(vecPriority)
  }

  ghost predicate Unique(s: seq<Hash>) { forall i, j :: 0 <= i < j < |s| ==> s[i] != s[j] }

  lemma UniqueNext(s: seq<Hash>, h: Hash)
    requires Unique(s) && h !in s
    ensures Unique(s + [h]) && forall g :: g in s + [h] <==> g in s || g == h
  {}

  // Each entry is listed with every one it was entered under, perhaps more than once, and nowhere else.
  ghost predicate DependersListed(entered: map<Hash, set<Hash>>, mapDependers: map<Hash, seq<Hash>>) {
    && (forall h, q :: h in entered && q in entered[h] ==> q in mapDependers && h in mapDependers[q])
    && forall q, i :: q in mapDependers && 0 <= i < |mapDependers[q]| ==> mapDependers[q][i] in entered && q in entered[mapDependers[q][i]]
  }

  // One listed transaction strikes off `hash`; if that was the last one it is queued.
  method StrikeOff(hash: Hash, orphan: Hash, was: map<Hash, set<Hash>>, queue: seq<Hash>)
    returns (setDependsOn: map<Hash, set<Hash>>, vecPriority: seq<Hash>)
    requires orphan in was
    ensures setDependsOn == was[orphan := was[orphan] - {hash}]
    ensures vecPriority == if was[orphan] == {hash} then queue + [orphan] else queue
  {
    setDependsOn, vecPriority := was, queue;
    if was[orphan] == {} {
      assert was[orphan] - {hash} == was[orphan];
      assert was[orphan := was[orphan]] == was;
    }
    assert was[orphan] == {hash} <==> was[orphan] != {} && was[orphan] - {hash} == {} by {
      if was[orphan] - {hash} == {} { assert forall x :: x in was[orphan] ==> x !in was[orphan] - {hash}; }
    }
    if setDependsOn[orphan] != {} {
      setDependsOn := setDependsOn[orphan := setDependsOn[orphan] - {hash}];
      if setDependsOn[orphan] == {} {
        vecPriority := vecPriority + [orphan];
      }
    }
  }

  // The state while the transactions waiting for `hash` are gone through: those in `done` have struck it off.
  ghost predicate Striking(awaited: map<Hash, set<Hash>>, setDependsOn: map<Hash, set<Hash>>, placed: set<Hash>, hash: Hash,
                           done: set<Hash>, queued: set<Hash>) {
    && setDependsOn.Keys == awaited.Keys
    && forall h :: h in awaited ==>
         && setDependsOn[h] == awaited[h] - placed - (if h in done then {hash} else {})
         && (setDependsOn[h] == {} <==> h in queued)
  }

  lemma StrikeKeeps(awaited: map<Hash, set<Hash>>, setDependsOn: map<Hash, set<Hash>>, placed: set<Hash>, hash: Hash,
                    done: set<Hash>, queued: set<Hash>, h: Hash)
    requires Striking(awaited, setDependsOn, placed, hash, done, queued) && h in awaited && hash !in placed
    ensures h in setDependsOn
    ensures var last := setDependsOn[h] == {hash};
            Striking(awaited, setDependsOn[h := setDependsOn[h] - {hash}], placed, hash, done + {h}, if last then queued + {h} else queued)
    ensures setDependsOn[h] == {hash} ==> h !in queued
  {
    if setDependsOn[h] != {hash} && setDependsOn[h] - {hash} == {} { assert setDependsOn[h] <= {hash}; }
  }

  // Queues the transactions that waited for nothing but `hash` any more.
  method Release(hash: Hash, dependers: seq<Hash>, was: map<Hash, set<Hash>>, queue: seq<Hash>,
                 ghost awaited: map<Hash, set<Hash>>, ghost placed: set<Hash>, ghost queuedBefore: set<Hash>, ghost taken: set<Hash>)
    returns (setDependsOn: map<Hash, set<Hash>>, vecPriority: seq<Hash>)
    requires Waiting(awaited, was, placed, queuedBefore) && Holds(queue, queuedBefore, taken) && taken <= queuedBefore
    requires hash !in placed && forall i :: 0 <= i < |dependers| ==> dependers[i] in awaited && hash in awaited[dependers[i]]
    requires forall h :: h in awaited && hash in awaited[h] ==> h in dependers
    ensures Waiting(awaited, setDependsOn, placed + {hash}, QueuedBy(queuedBefore, setDependsOn))
    ensures Holds(vecPriority, QueuedBy(queuedBefore, setDependsOn), taken)
  {
    setDependsOn, vecPriority := was, queue;
    ghost var queued := queuedBefore;
    ghost var done := {};
    var i := 0;
    while i < |dependers|
      invariant 0 <= i <= |dependers| && done == set k | 0 <= k < i :: dependers[k]
      invariant Striking(awaited, setDependsOn, placed, hash, done, queued) && Holds(vecPriority, queued, taken)
      invariant queuedBefore <= queued && forall h :: h in queued && h !in queuedBefore ==> h in awaited
    {
      var h := dependers[i];
      StrikeKeeps(awaited, setDependsOn, placed, hash, done, queued, h);
      hide Striking;
      if setDependsOn[h] == {hash} { HoldsMore(vecPriority, queued, taken, h); queued := queued + {h}; }
      hide Holds;
      setDependsOn, vecPriority := StrikeOff(hash, h, setDependsOn, vecPriority);
      done := done + {h};
      i := i + 1;
    }
    forall h | h in awaited ensures setDependsOn[h] == awaited[h] - (placed + {hash}) {
      if hash in awaited[h] { assert h in dependers; assert h in done; }
    }
    assert queued == QueuedBy(queuedBefore, setDependsOn);
  }

  // What has been queued once these are left to wait.
  ghost function QueuedBy(before: set<Hash>, setDependsOn: map<Hash, set<Hash>>): set<Hash> {
    before + set h | h in setDependsOn && setDependsOn[h] == {}
  }

  lemma HoldsMore(vecPriority: seq<Hash>, queued: set<Hash>, taken: set<Hash>, h: Hash)
    requires Holds(vecPriority, queued, taken) && taken <= queued && h !in queued
    ensures Holds(vecPriority + [h], queued + {h}, taken)
  {}

  // ---------- collecting the candidates ----------

  // What is entered for the transactions seen so far.
  ghost function Entries(mapTx: map<Hash, Tx>, p: Policy, view: map<Hash, Coins>, seen: set<Hash>): map<Hash, set<Hash>> {
    map h | h in seen && h in mapTx && p.eligible(mapTx[h]) && Entered(mapTx[h], mapTx, view) != {} :: Entered(mapTx[h], mapTx, view)
  }

  lemma EntriesAt(mapTx: map<Hash, Tx>, p: Policy, view: map<Hash, Coins>, seen: set<Hash>, h: Hash)
    ensures h in Entries(mapTx, p, view, seen) <==> h in seen && h in mapTx && p.eligible(mapTx[h]) && Entered(mapTx[h], mapTx, view) != {}
    ensures h in Entries(mapTx, p, view, seen) ==> Entries(mapTx, p, view, seen)[h] == Entered(mapTx[h], mapTx, view)
  {}

  // The queue, the waiting transactions and the freed entries before any transaction has been placed.
  ghost predicate Collected(mapTx: map<Hash, Tx>, p: Policy, view: map<Hash, Coins>, seen: set<Hash>, vecPriority: seq<Hash>,
                            awaited: map<Hash, set<Hash>>, mapDependers: map<Hash, seq<Hash>>, freed: set<Hash>) {
    && Unique(vecPriority) && DependersListed(Entries(mapTx, p, view, seen), mapDependers)
    && (forall h :: h in vecPriority <==> h in seen && Candidate(mapTx, p, view, h) && Awaited(mapTx[h], view) == {})
    && (forall h :: h in awaited <==> h in seen && Candidate(mapTx, p, view, h) && Awaited(mapTx[h], view) != {})
    && (forall h :: h in awaited ==> awaited[h] == Awaited(mapTx[h], view))
    && forall h :: h in freed <==> h in seen && Dangles(mapTx, p, view, h)
  }

  lemma {:induction false} SeenIs(tx: Tx, mapTx: map<Hash, Tx>, view: map<Hash, Coins>, i: nat, n: nat)
    requires i <= n <= |tx.vin| && forall j :: i <= j < n ==> tx.vin[j].prevout.hash in view || tx.vin[j].prevout.hash in mapTx
    requires n < |tx.vin| ==> tx.vin[n].prevout.hash !in view && tx.vin[n].prevout.hash !in mapTx
    ensures Seen(tx, mapTx, view, i) == n
    decreases n - i
  {
    if i < n { SeenIs(tx, mapTx, view, i + 1, n); }
  }

  // The inputs of one transaction: what it waits for, and its entries under those.
  method CollectInputs(tx: Tx, mapTx: map<Hash, Tx>, view: map<Hash, Coins>, was: map<Hash, seq<Hash>>)
    returns (fMissingInputs: bool, dependsOn: set<Hash>, mapDependers: map<Hash, seq<Hash>>)
    ensures fMissingInputs == Missing(tx, mapTx, view) && dependsOn == Entered(tx, mapTx, view)
    ensures Adds(was, mapDependers, tx.hash, dependsOn)
  {
    hide Adds, AwaitedBy, Seen;
    fMissingInputs, dependsOn, mapDependers := false, {}, was;
    var i := 0;
    AwaitedFirst(tx, view);
    AddsNothing(was, tx.hash);
    while i < |tx.vin|
      invariant 0 <= i <= |tx.vin| && dependsOn == AwaitedBy(tx, view, i)
      invariant forall j :: 0 <= j < i ==> tx.vin[j].prevout.hash in view || tx.vin[j].prevout.hash in mapTx
      invariant Adds(was, mapDependers, tx.hash, dependsOn)
    {
      var q := tx.vin[i].prevout.hash;
      AwaitedNext(tx, view, i);
      if q !in view {
        if q !in mapTx {
          fMissingInputs := true;
          SeenIs(tx, mapTx, view, 0, i);
          return;
        }
        AddsNext(was, mapDependers, tx.hash, dependsOn, q);
        mapDependers := mapDependers[q := (if q in mapDependers then mapDependers[q] else []) + [tx.hash]];
        dependsOn := dependsOn + {q};
      }
      i := i + 1;
    }
    SeenIs(tx, mapTx, view, 0, i);
  }

  // A list that has got further entries h, at least one if `some`.
  predicate Extends(was: seq<Hash>, now: seq<Hash>, h: Hash, some: bool) {
    && |was| <= |now| && now[..|was|] == was
    && (forall i :: |was| <= i < |now| ==> now[i] == h)
    && (some <==> |now| > |was|)
  }

  // The lists with further entries h under everything in d.
  ghost predicate Adds(was: map<Hash, seq<Hash>>, now: map<Hash, seq<Hash>>, h: Hash, d: set<Hash>) {
    && was.Keys <= now.Keys && d <= now.Keys && (forall q :: q in now && q !in was ==> q in d)
    && forall q :: q in now ==> Extends(if q in was then was[q] else [], now[q], h, q in d)
  }

  lemma AddsNothing(was: map<Hash, seq<Hash>>, h: Hash)
    ensures Adds(was, was, h, {})
  {}

  lemma AddsNext(was: map<Hash, seq<Hash>>, now: map<Hash, seq<Hash>>, h: Hash, d: set<Hash>, q: Hash)
    requires Adds(was, now, h, d)
    ensures Adds(was, now[q := (if q in now then now[q] else []) + [h]], h, d + {q})
  {
    var next := (if q in now then now[q] else []) + [h];
    var before := if q in was then was[q] else [];
    assert Extends(before, if q in now then now[q] else [], h, q in d);
    assert next[..|before|] == before;
  }

  lemma AddsNone(was: map<Hash, seq<Hash>>, now: map<Hash, seq<Hash>>, h: Hash)
    requires Adds(was, now, h, {})
    ensures now == was
  {
    forall q | q in now ensures q in was && now[q] == was[q] { assert Extends(was[q], now[q], h, false); }
  }

  lemma AwaitedFirst(tx: Tx, view: map<Hash, Coins>)
    ensures AwaitedBy(tx, view, 0) == {}
  {}

  lemma AwaitedNext(tx: Tx, view: map<Hash, Coins>, i: nat)
    requires i < |tx.vin|
    ensures AwaitedBy(tx, view, i + 1) == AwaitedBy(tx, view, i) + if tx.vin[i].prevout.hash in view then {} else {tx.vin[i].prevout.hash}
  {}

  // One transaction of the pool: queued, waiting, or left out.
  method CollectOne(mapTx: map<Hash, Tx>, p: Policy, view: map<Hash, Coins>, ghost seen: set<Hash>, queue: seq<Hash>,
                    waiting: map<Hash, set<Hash>>, dependers: map<Hash, seq<Hash>>, gone: set<Hash>, h: Hash)
    returns (vecPriority: seq<Hash>, awaited: map<Hash, set<Hash>>, mapDependers: map<Hash, seq<Hash>>, freed: set<Hash>)
    requires h in mapTx && h !in seen && PoolTx(mapTx[h], h, p)
    requires Collected(mapTx, p, view, seen, queue, waiting, dependers, gone)
    ensures Collected(mapTx, p, view, seen + {h}, vecPriority, awaited, mapDependers, freed)
  {
    hide Collected, Adds, Awaited, Entered, Missing, DependersListed, Entries;
    vecPriority, awaited, mapDependers, freed := queue, waiting, dependers, gone;
    var tx := mapTx[h];
    if !p.eligible(tx) {
      CollectedSkip(mapTx, p, view, seen, queue, waiting, dependers, gone, h);
      return;
    }
    var fMissingInputs, dependsOn;
    fMissingInputs, dependsOn, mapDependers := CollectInputs(tx, mapTx, view, dependers);
    CollectedListed(mapTx, p, view, seen, queue, waiting, dependers, gone);
    EntriesNext(mapTx, p, view, seen, dependers, h, mapDependers);
    if !fMissingInputs { NotMissing(tx, mapTx, view); }
    if fMissingInputs {
      CollectedMissing(mapTx, p, view, seen, queue, waiting, dependers, gone, h, mapDependers);
      if dependsOn != {} { freed := freed + {h}; }
    } else if dependsOn != {} {
      CollectedWaiting(mapTx, p, view, seen, queue, waiting, dependers, gone, h, mapDependers);
      awaited := awaited[h := dependsOn];
    } else {
      CollectedReady(mapTx, p, view, seen, queue, waiting, dependers, gone, h, mapDependers);
      vecPriority := vecPriority + [h];
    }
  }

  // The loop over the whole pool.
  method Collect(mapTx: map<Hash, Tx>, p: Policy, view: map<Hash, Coins>)
    returns (vecPriority: seq<Hash>, awaited: map<Hash, set<Hash>>, mapDependers: map<Hash, seq<Hash>>, freed: set<Hash>)
    requires PoolOk(mapTx, p)
    ensures Collected(mapTx, p, view, mapTx.Keys, vecPriority, awaited, mapDependers, freed)
  {
    vecPriority, awaited, mapDependers, freed := [], map[], map[], {};
    var rest := mapTx.Keys;
    ghost var seen: set<Hash> := {};
    NothingCollected(mapTx, p, view);
    hide Collected, PoolTx;
    while rest != {}
      invariant rest + seen == mapTx.Keys && rest !! seen
      invariant Collected(mapTx, p, view, seen, vecPriority, awaited, mapDependers, freed)
      decreases |rest|
    {
      var h :| h in rest;
      vecPriority, awaited, mapDependers, freed := CollectOne(mapTx, p, view, seen, vecPriority, awaited, mapDependers, freed, h);
      rest, seen := rest - {h}, seen + {h};
    }
    assert seen == mapTx.Keys;
  }

  lemma NothingCollected(mapTx: map<Hash, Tx>, p: Policy, view: map<Hash, Coins>)
    ensures Collected(mapTx, p, view, {}, [], map[], map[], {})
  {
    assert Entries(mapTx, p, view, {}) == map[];
  }

  lemma CollectedListed(mapTx: map<Hash, Tx>, p: Policy, view: map<Hash, Coins>, seen: set<Hash>, vecPriority: seq<Hash>,
                        awaited: map<Hash, set<Hash>>, mapDependers: map<Hash, seq<Hash>>, freed: set<Hash>)
    requires Collected(mapTx, p, view, seen, vecPriority, awaited, mapDependers, freed)
    ensures DependersListed(Entries(mapTx, p, view, seen), mapDependers)
  {
    hide Entries, DependersListed;
  }

  lemma CollectedSkip(mapTx: map<Hash, Tx>, p: Policy, view: map<Hash, Coins>, seen: set<Hash>, vecPriority: seq<Hash>,
                      awaited: map<Hash, set<Hash>>, mapDependers: map<Hash, seq<Hash>>, freed: set<Hash>, h: Hash)
    requires Collected(mapTx, p, view, seen, vecPriority, awaited, mapDependers, freed)
    requires h in mapTx && !p.eligible(mapTx[h])
    ensures Collected(mapTx, p, view, seen + {h}, vecPriority, awaited, mapDependers, freed)
  {
    hide Entered, Awaited, Unique, DependersListed;
    assert Entries(mapTx, p, view, seen + {h}) == Entries(mapTx, p, view, seen);
  }

  lemma EntriesGrow(mapTx: map<Hash, Tx>, p: Policy, view: map<Hash, Coins>, seen: set<Hash>, h: Hash)
    requires h in mapTx && h !in seen && p.eligible(mapTx[h])
    ensures var d := Entered(mapTx[h], mapTx, view);
            Entries(mapTx, p, view, seen + {h}) == if d != {} then Entries(mapTx, p, view, seen)[h := d] else Entries(mapTx, p, view, seen)
    ensures h !in Entries(mapTx, p, view, seen)
  {
    hide Entered, Entries;
    forall k ensures k != h ==> (k in Entries(mapTx, p, view, seen + {h}) <==> k in Entries(mapTx, p, view, seen)) {
      EntriesAt(mapTx, p, view, seen, k);
      EntriesAt(mapTx, p, view, seen + {h}, k);
    }
    forall k | k in Entries(mapTx, p, view, seen)
      ensures k in Entries(mapTx, p, view, seen + {h}) && Entries(mapTx, p, view, seen + {h})[k] == Entries(mapTx, p, view, seen)[k]
    {
      EntriesAt(mapTx, p, view, seen, k);
      EntriesAt(mapTx, p, view, seen + {h}, k);
    }
    EntriesAt(mapTx, p, view, seen, h);
    EntriesAt(mapTx, p, view, seen + {h}, h);
  }

  // The lists after one more transaction.
  lemma EntriesNext(mapTx: map<Hash, Tx>, p: Policy, view: map<Hash, Coins>, seen: set<Hash>, mapDependers: map<Hash, seq<Hash>>,
                    h: Hash, now: map<Hash, seq<Hash>>)
    requires DependersListed(Entries(mapTx, p, view, seen), mapDependers) && h in mapTx && h !in seen && p.eligible(mapTx[h])
    requires Adds(mapDependers, now, h, Entered(mapTx[h], mapTx, view))
    ensures DependersListed(Entries(mapTx, p, view, seen + {h}), now)
  {
    hide Entered, DependersListed, Adds, Entries;
    var d, was := Entered(mapTx[h], mapTx, view), Entries(mapTx, p, view, seen);
    EntriesGrow(mapTx, p, view, seen, h);
    if d != {} { ListedNext(was, mapDependers, h, d, now); } else { AddsNone(mapDependers, now, h); }
  }

  lemma CollectedMissing(mapTx: map<Hash, Tx>, p: Policy, view: map<Hash, Coins>, seen: set<Hash>, vecPriority: seq<Hash>,
                      awaited: map<Hash, set<Hash>>, mapDependers: map<Hash, seq<Hash>>, freed: set<Hash>,
                      h: Hash, now: map<Hash, seq<Hash>>)
    requires Collected(mapTx, p, view, seen, vecPriority, awaited, mapDependers, freed)
    requires h in mapTx && h !in seen && p.eligible(mapTx[h])
    requires DependersListed(Entries(mapTx, p, view, seen + {h}), now) && Missing(mapTx[h], mapTx, view)
    ensures var left := if Entered(mapTx[h], mapTx, view) != {} then freed + {h} else freed;
            Collected(mapTx, p, view, seen + {h}, vecPriority, awaited, now, left)
  {
    hide Entered, Awaited, Missing, DependersListed, Entries, Unique;
  }

  lemma CollectedWaiting(mapTx: map<Hash, Tx>, p: Policy, view: map<Hash, Coins>, seen: set<Hash>, vecPriority: seq<Hash>,
                      awaited: map<Hash, set<Hash>>, mapDependers: map<Hash, seq<Hash>>, freed: set<Hash>,
                      h: Hash, now: map<Hash, seq<Hash>>)
    requires Collected(mapTx, p, view, seen, vecPriority, awaited, mapDependers, freed)
    requires h in mapTx && h !in seen && p.eligible(mapTx[h])
    requires DependersListed(Entries(mapTx, p, view, seen + {h}), now) && !Missing(mapTx[h], mapTx, view) && Awaited(mapTx[h], view) != {}
    ensures Collected(mapTx, p, view, seen + {h}, vecPriority, awaited[h := Awaited(mapTx[h], view)], now, freed)
  {
    hide Entered, Awaited, Missing, DependersListed, Entries, Unique;
  }

  lemma CollectedReady(mapTx: map<Hash, Tx>, p: Policy, view: map<Hash, Coins>, seen: set<Hash>, vecPriority: seq<Hash>,
                      awaited: map<Hash, set<Hash>>, mapDependers: map<Hash, seq<Hash>>, freed: set<Hash>,
                      h: Hash, now: map<Hash, seq<Hash>>)
    requires Collected(mapTx, p, view, seen, vecPriority, awaited, mapDependers, freed)
    requires h in mapTx && h !in seen && p.eligible(mapTx[h])
    requires DependersListed(Entries(mapTx, p, view, seen + {h}), now) && !Missing(mapTx[h], mapTx, view) && Awaited(mapTx[h], view) == {}
    ensures Collected(mapTx, p, view, seen + {h}, vecPriority + [h], awaited, now, freed)
  {
    hide Entered, Awaited, Missing, DependersListed, Entries;
    UniqueNext(vecPriority, h);
    hide Unique;
  }

  lemma NotMissing(tx: Tx, mapTx: map<Hash, Tx>, view: map<Hash, Coins>)
    requires !Missing(tx, mapTx, view)
    ensures Entered(tx, mapTx, view) == Awaited(tx, view)
  {}

  lemma ListedNext(entered: map<Hash, set<Hash>>, mapDependers: map<Hash, seq<Hash>>, h: Hash, d: set<Hash>, now: map<Hash, seq<Hash>>)
    requires DependersListed(entered, mapDependers) && h !in entered
    requires Adds(mapDependers, now, h, d)
    ensures DependersListed(entered[h := d], now)
  {
    var a := entered[h := d];
    forall g, q | g in a && q in a[g] ensures q in now && g in now[q] {
      var was := if q in mapDependers then mapDependers[q] else [];
      if g == h {
        assert Extends(was, now[q], h, true);
        assert now[q][|was|] == h;
      } else {
        assert g in was;
        var k :| 0 <= k < |was| && was[k] == g;
        assert q in now && now[q][..|was|][k] == g;
      }
    }
    forall q, i | q in now && 0 <= i < |now[q]| ensures now[q][i] in a && q in a[now[q][i]] {
      var was := if q in mapDependers then mapDependers[q] else [];
      assert Extends(was, now[q], h, q in d);
      if i < |was| { assert now[q][..|was|][i] == was[i]; }
    }
  }

  // ---------- filling the block ----------

  // The block so far, and the limits it keeps.
  ghost predicate Filled(p: Policy, u: Utxo, vtx: seq<Tx>, v: Utxo, nBlockSize: nat, nBlockSigOps: nat)
    requires p.nHeight > 0
  {
    && ViewAfter(p, u, vtx) == Some(v) && Canonical(v)
    && nBlockSize == TotalSize(p, vtx) && nBlockSigOps == TotalSigOps(p, u, vtx)
    && (vtx != [] ==> nBlockSize < p.nBlockMaxSize) && nBlockSigOps < MAX_BLOCK_SIGOPS
  }

  ghost predicate FromPool(mapTx: map<Hash, Tx>, p: Policy, vtx: seq<Tx>, placed: set<Hash>) {
    && (forall k :: 0 <= k < |vtx| ==> vtx[k].hash in mapTx && vtx[k] == mapTx[vtx[k].hash] && p.eligible(vtx[k]))
    && (forall i, j :: 0 <= i < j < |vtx| ==> vtx[i].hash != vtx[j].hash)
    && forall h :: h in placed <==> exists k :: 0 <= k < |vtx| && vtx[k].hash == h
  }

  lemma {:induction false} FilledNext(p: Policy, u: Utxo, vtx: seq<Tx>, v: Utxo, nBlockSize: nat, nBlockSigOps: nat, tx: Tx)
    requires p.nHeight > 0 && Filled(p, u, vtx, v, nBlockSize, nBlockSigOps)
    requires PoolTx(tx, tx.hash, p) && p.eligible(tx) && MayFollow(p, u, vtx, tx)
    ensures UpdateCoins(v, tx, p.nHeight).Some?
    ensures Filled(p, u, vtx + [tx], UpdateCoins(v, tx, p.nHeight).value.0,
              nBlockSize + p.size(tx), nBlockSigOps + p.r.legacySigOps(tx) + p.P2SH(tx, v))
  {
    AcceptableAdds(p, v, tx, tx.hash);
    hide UpdateCoins, Canonical, PoolTx, TotalSize, TotalSigOps, ViewAfter, Acceptable;
    OneMore(p, u, vtx, v, tx);
  }

  lemma {:induction false} OneMore(p: Policy, u: Utxo, vtx: seq<Tx>, v: Utxo, tx: Tx)
    requires p.nHeight > 0 && ViewAfter(p, u, vtx) == Some(v) && Acceptable(p, v, tx) && UpdateCoins(v, tx, p.nHeight).Some?
    ensures ViewAfter(p, u, vtx + [tx]) == Some(UpdateCoins(v, tx, p.nHeight).value.0)
    ensures TotalSize(p, vtx + [tx]) == TotalSize(p, vtx) + p.size(tx)
    ensures TotalSigOps(p, u, vtx + [tx]) == TotalSigOps(p, u, vtx) + p.r.legacySigOps(tx) + p.P2SH(tx, v)
  {
    hide UpdateCoins, Acceptable;
    var all := vtx + [tx];
    assert all[..|all| - 1] == vtx && all[|all| - 1] == tx;
  }

  lemma FromPoolNext(mapTx: map<Hash, Tx>, p: Policy, vtx: seq<Tx>, placed: set<Hash>, tx: Tx)
    requires FromPool(mapTx, p, vtx, placed) && tx.hash in mapTx && mapTx[tx.hash] == tx && p.eligible(tx) && tx.hash !in placed
    ensures FromPool(mapTx, p, vtx + [tx], placed + {tx.hash})
  {
    var all := vtx + [tx];
    forall h ensures h in placed + {tx.hash} <==> exists k :: 0 <= k < |all| && all[k].hash == h {
      if h in placed { var k :| 0 <= k < |vtx| && vtx[k].hash == h; assert all[k].hash == h; }
      assert all[|vtx|].hash == tx.hash;
    }
  }

  // All candidates are queued or waiting to begin with.
  ghost predicate Sorted(mapTx: map<Hash, Tx>, p: Policy, view: map<Hash, Coins>, ready: set<Hash>, awaited: map<Hash, set<Hash>>) {
    && (forall h :: h in ready ==> Candidate(mapTx, p, view, h) && Awaited(mapTx[h], view) == {})
    && (forall h :: h in awaited ==> Candidate(mapTx, p, view, h) && awaited[h] == Awaited(mapTx[h], view))
    && forall h :: Candidate(mapTx, p, view, h) ==> h in ready || h in awaited
  }

  lemma CollectedStart(mapTx: map<Hash, Tx>, p: Policy, view: map<Hash, Coins>, vecPriority: seq<Hash>,
                       awaited: map<Hash, set<Hash>>, mapDependers: map<Hash, seq<Hash>>, freed: set<Hash>)
    requires Collected(mapTx, p, view, mapTx.Keys, vecPriority, awaited, mapDependers, freed)
    ensures Queueing(awaited, awaited, Elems(vecPriority), {}, vecPriority, Elems(vecPriority), {})
    ensures Sorted(mapTx, p, view, Elems(vecPriority), awaited)
  {
    hide Awaited, Missing, Entered, Unique;
    forall h | h in awaited ensures awaited[h] == awaited[h] - {} && awaited[h] != {} && h !in vecPriority {}
  }

  // What is listed under one hash: the transactions that wait for it, and freed entries.
  ghost predicate ListsWaiting(awaited: map<Hash, set<Hash>>, hash: Hash, l: seq<Hash>) {
    && (forall i :: 0 <= i < |l| ==> l[i] in awaited && hash in awaited[l[i]])
    && forall h :: h in awaited && hash in awaited[h] ==> h in l
  }

  ghost predicate FreedUnder(mapTx: map<Hash, Tx>, p: Policy, view: map<Hash, Coins>, hash: Hash) {
    exists d :: d in mapTx && Dangles(mapTx, p, view, d) && hash in Entered(mapTx[d], mapTx, view)
  }

  lemma ListedIs(mapTx: map<Hash, Tx>, p: Policy, view: map<Hash, Coins>, vecPriority: seq<Hash>,
                 awaited: map<Hash, set<Hash>>, mapDependers: map<Hash, seq<Hash>>, freed: set<Hash>, h: Hash)
    requires Collected(mapTx, p, view, mapTx.Keys, vecPriority, awaited, mapDependers, freed)
    requires h in Entries(mapTx, p, view, mapTx.Keys)
    ensures h in mapTx && (h in freed <==> Dangles(mapTx, p, view, h)) && (h in freed <==> h !in awaited)
    ensures Entries(mapTx, p, view, mapTx.Keys)[h] == Entered(mapTx[h], mapTx, view)
    ensures h in awaited ==> awaited[h] == Entered(mapTx[h], mapTx, view)
  {
    EntriesAt(mapTx, p, view, mapTx.Keys, h);
    if !Missing(mapTx[h], mapTx, view) { NotMissing(mapTx[h], mapTx, view); }
    hide Entered, Missing, Awaited, Entries, Unique, DependersListed;
  }

  lemma IsEntry(mapTx: map<Hash, Tx>, p: Policy, view: map<Hash, Coins>, vecPriority: seq<Hash>,
                awaited: map<Hash, set<Hash>>, mapDependers: map<Hash, seq<Hash>>, freed: set<Hash>, h: Hash)
    requires Collected(mapTx, p, view, mapTx.Keys, vecPriority, awaited, mapDependers, freed)
    requires Dangles(mapTx, p, view, h) || h in awaited
    ensures h in Entries(mapTx, p, view, mapTx.Keys)
  {
    if h in awaited && !Missing(mapTx[h], mapTx, view) { NotMissing(mapTx[h], mapTx, view); }
    EntriesAt(mapTx, p, view, mapTx.Keys, h);
    hide Entered, Missing, Awaited, Entries, Unique, DependersListed;
  }

  function DependersOn(mapDependers: map<Hash, seq<Hash>>, hash: Hash): seq<Hash> {
    if hash in mapDependers then mapDependers[hash] else []
  }

  lemma EntryIsListed(mapTx: map<Hash, Tx>, p: Policy, view: map<Hash, Coins>, vecPriority: seq<Hash>,
                   awaited: map<Hash, set<Hash>>, mapDependers: map<Hash, seq<Hash>>, freed: set<Hash>, hash: Hash, h: Hash)
    requires Collected(mapTx, p, view, mapTx.Keys, vecPriority, awaited, mapDependers, freed)
    requires Dangles(mapTx, p, view, h) || h in awaited
    ensures h in mapTx && (hash in Entered(mapTx[h], mapTx, view) ==> h in DependersOn(mapDependers, hash))
  {
    hide Collected, Dangles, Entered, Entries;
    CollectedListed(mapTx, p, view, mapTx.Keys, vecPriority, awaited, mapDependers, freed);
    IsEntry(mapTx, p, view, vecPriority, awaited, mapDependers, freed, h);
    ListedIs(mapTx, p, view, vecPriority, awaited, mapDependers, freed, h);
  }

  lemma ListedIsEntry(mapTx: map<Hash, Tx>, p: Policy, view: map<Hash, Coins>, vecPriority: seq<Hash>,
                   awaited: map<Hash, set<Hash>>, mapDependers: map<Hash, seq<Hash>>, freed: set<Hash>, hash: Hash, i: nat)
    requires Collected(mapTx, p, view, mapTx.Keys, vecPriority, awaited, mapDependers, freed)
    requires i < |DependersOn(mapDependers, hash)|
    ensures var h := DependersOn(mapDependers, hash)[i];
            if h in freed then Dangles(mapTx, p, view, h) && hash in Entered(mapTx[h], mapTx, view) else h in awaited && hash in awaited[h]
  {
    CollectedListed(mapTx, p, view, mapTx.Keys, vecPriority, awaited, mapDependers, freed);
    hide Collected, Dangles, Entered, Entries;
    ListedIs(mapTx, p, view, vecPriority, awaited, mapDependers, freed, mapDependers[hash][i]);
  }

  lemma {:induction false} DependersOf(mapTx: map<Hash, Tx>, p: Policy, view: map<Hash, Coins>, vecPriority: seq<Hash>,
                   awaited: map<Hash, set<Hash>>, mapDependers: map<Hash, seq<Hash>>, freed: set<Hash>, hash: Hash)
    requires Collected(mapTx, p, view, mapTx.Keys, vecPriority, awaited, mapDependers, freed)
    ensures var l := DependersOn(mapDependers, hash);
            && ((exists i :: 0 <= i < |l| && l[i] in freed) <==> FreedUnder(mapTx, p, view, hash))
            && (!FreedUnder(mapTx, p, view, hash) ==> ListsWaiting(awaited, hash, l))
  {
    var l := DependersOn(mapDependers, hash);
    hide Collected, Dangles, Entered, DependersOn;
    if FreedUnder(mapTx, p, view, hash) {
      var d :| d in mapTx && Dangles(mapTx, p, view, d) && hash in Entered(mapTx[d], mapTx, view);
      EntryIsListed(mapTx, p, view, vecPriority, awaited, mapDependers, freed, hash, d);
      IsFreed(mapTx, p, view, vecPriority, awaited, mapDependers, freed, d);
      var i :| 0 <= i < |l| && l[i] == d;
    }
    forall i | 0 <= i < |l|
      ensures l[i] in freed ==> FreedUnder(mapTx, p, view, hash)
      ensures l[i] !in freed ==> l[i] in awaited && hash in awaited[l[i]]
    {
      ListedIsEntry(mapTx, p, view, vecPriority, awaited, mapDependers, freed, hash, i);
      if l[i] in freed { DanglesIn(mapTx, p, view, l[i]); }
    }
    forall h | h in awaited && hash in awaited[h] ensures h in l {
      EntryIsListed(mapTx, p, view, vecPriority, awaited, mapDependers, freed, hash, h);
      IsWaiting(mapTx, p, view, vecPriority, awaited, mapDependers, freed, h);
    }
  }

  lemma DanglesIn(mapTx: map<Hash, Tx>, p: Policy, view: map<Hash, Coins>, h: Hash)
    requires Dangles(mapTx, p, view, h)
    ensures h in mapTx
  {}

  lemma IsFreed(mapTx: map<Hash, Tx>, p: Policy, view: map<Hash, Coins>, vecPriority: seq<Hash>,
                   awaited: map<Hash, set<Hash>>, mapDependers: map<Hash, seq<Hash>>, freed: set<Hash>, h: Hash)
    requires Collected(mapTx, p, view, mapTx.Keys, vecPriority, awaited, mapDependers, freed)
    requires Dangles(mapTx, p, view, h)
    ensures h in freed
  {
    IsEntry(mapTx, p, view, vecPriority, awaited, mapDependers, freed, h);
    ListedIs(mapTx, p, view, vecPriority, awaited, mapDependers, freed, h);
  }

  lemma IsWaiting(mapTx: map<Hash, Tx>, p: Policy, view: map<Hash, Coins>, vecPriority: seq<Hash>,
                   awaited: map<Hash, set<Hash>>, mapDependers: map<Hash, seq<Hash>>, freed: set<Hash>, h: Hash)
    requires Collected(mapTx, p, view, mapTx.Keys, vecPriority, awaited, mapDependers, freed)
    requires h in awaited
    ensures h in mapTx && awaited[h] == Entered(mapTx[h], mapTx, view)
  {
    IsEntry(mapTx, p, view, vecPriority, awaited, mapDependers, freed, h);
    ListedIs(mapTx, p, view, vecPriority, awaited, mapDependers, freed, h);
  }

  // Whatever is listed after the collecting points at a waiting transaction, exactly if no transaction was
  // left out for a missing input behind one it had to wait for.
  lemma {:induction false} AllLiveIff(mapTx: map<Hash, Tx>, p: Policy, view: map<Hash, Coins>, vecPriority: seq<Hash>,
                      awaited: map<Hash, set<Hash>>, mapDependers: map<Hash, seq<Hash>>, freed: set<Hash>)
    requires Collected(mapTx, p, view, mapTx.Keys, vecPriority, awaited, mapDependers, freed)
    ensures (forall q, i :: q in mapDependers && 0 <= i < |mapDependers[q]| ==> mapDependers[q][i] in awaited)
       <==> NoneDangles(mapTx, p, view)
  {
    CollectedListed(mapTx, p, view, mapTx.Keys, vecPriority, awaited, mapDependers, freed);
    var entered := Entries(mapTx, p, view, mapTx.Keys);
    hide Collected, Dangles, Entered, Entries;
    forall q, i | q in mapDependers && 0 <= i < |mapDependers[q]|
      ensures mapDependers[q][i] in awaited || Dangles(mapTx, p, view, mapDependers[q][i])
    {
      assert mapDependers[q][i] in entered;
      ListedIs(mapTx, p, view, vecPriority, awaited, mapDependers, freed, mapDependers[q][i]);
    }
    forall h | h in mapTx && Dangles(mapTx, p, view, h)
      ensures exists q, i :: q in mapDependers && 0 <= i < |mapDependers[q]| && mapDependers[q][i] !in awaited
    {
      IsEntry(mapTx, p, view, vecPriority, awaited, mapDependers, freed, h);
      ListedIs(mapTx, p, view, vecPriority, awaited, mapDependers, freed, h);
      assert entered[h] != {} by { EntriesAt(mapTx, p, view, mapTx.Keys, h); }
      var q :| q in entered[h];
      assert h in mapDependers[q];
      var i :| 0 <= i < |mapDependers[q]| && mapDependers[q][i] == h;
    }
  }

  // Tries one transaction at the end of the block.
  method Place(p: Policy, ghost u: Utxo, ghost vtx: seq<Tx>, v: Utxo, blockSize: nat, blockSigOps: nat, tx: Tx)
    returns (ok: bool, coins: Utxo, nBlockSize: nat, nBlockSigOps: nat)
    requires p.nHeight > 0 && Filled(p, u, vtx, v, blockSize, blockSigOps) && PoolTx(tx, tx.hash, p) && p.eligible(tx)
    ensures ok <==> MayFollow(p, u, vtx, tx)
    ensures Filled(p, u, if ok then vtx + [tx] else vtx, coins, nBlockSize, nBlockSigOps)
  {
    ok, coins, nBlockSize, nBlockSigOps := false, v, blockSize, blockSigOps;
    hide CheckInputs, UpdateCoins, HaveInputs, PoolTx, Canonical, ViewAfter, TotalSize, TotalSigOps;
    var nTxSize := p.size(tx);
    if nBlockSize + nTxSize >= p.nBlockMaxSize { return; }
    var nTxSigOps := p.r.legacySigOps(tx);
    if nBlockSigOps + nTxSigOps >= MAX_BLOCK_SIGOPS { return; }
    if !p.Timely(tx) { return; }
    if !HaveInputs(coins, tx.vin) { return; }
    if !p.PaysFee(tx, coins) { return; }
    nTxSigOps := nTxSigOps + p.P2SH(tx, coins);
    if nBlockSigOps + nTxSigOps >= MAX_BLOCK_SIGOPS { return; }
    if !CheckInputs(p.r, p.hashPrev, p.nHeight - 1, coins, tx, true) { return; }
    FilledNext(p, u, vtx, v, blockSize, blockSigOps, tx);
    hide Filled;
    coins := UpdateCoins(coins, tx, p.nHeight).value.0;
    nBlockSize := nBlockSize + nTxSize;
    nBlockSigOps := nBlockSigOps + nTxSigOps;
    ok := true;
  }

  lemma HandedOutNext(mapTx: map<Hash, Tx>, p: Policy, view: map<Hash, Coins>, order: seq<Hash>, h: Hash)
    requires p.nHeight > 0 && HandedOut(mapTx, p, view, order)
    requires Candidate(mapTx, p, view, h) && h !in order && Awaited(mapTx[h], view) <= Ids(Tried(mapTx, p, Canon(view), order))
    ensures HandedOut(mapTx, p, view, order + [h])
    ensures var vtx := Tried(mapTx, p, Canon(view), order);
            Tried(mapTx, p, Canon(view), order + [h]) == if MayFollow(p, Canon(view), vtx, mapTx[h]) then vtx + [mapTx[h]] else vtx
  {
    hide Awaited, MayFollow, Ids, Canon, Missing, Tried;
    var all := order + [h];
    assert forall i :: 0 <= i < |all| ==> all[i] in mapTx && Candidate(mapTx, p, view, all[i]);
    assert forall i :: 0 <= i <= |order| ==> all[..i] == order[..i];
    assert order[..|order|] == order;
    forall i | 0 <= i < |all| ensures Awaited(mapTx[all[i]], view) <= Ids(Tried(mapTx, p, Canon(view), all[..i])) {}
    TriedNext(mapTx, p, Canon(view), all);
  }

  // The queue while the block is filled: `taken` has been handed out, `placed` is in the block.
  ghost predicate Queueing(awaited: map<Hash, set<Hash>>, setDependsOn: map<Hash, set<Hash>>, ready: set<Hash>, placed: set<Hash>,
                           vecPriority: seq<Hash>, queued: set<Hash>, taken: set<Hash>) {
    && Holds(vecPriority, queued, taken) && Waiting(awaited, setDependsOn, placed, queued)
    && taken <= queued <= ready + awaited.Keys && ready <= queued
  }

  // The transactions taken off the queue had nothing left to wait for.
  lemma TakenIsFree(mapTx: map<Hash, Tx>, p: Policy, view: map<Hash, Coins>, ready: set<Hash>, awaited: map<Hash, set<Hash>>,
                    setDependsOn: map<Hash, set<Hash>>, placed: set<Hash>, vecPriority: seq<Hash>, queued: set<Hash>, taken: set<Hash>)
    requires Sorted(mapTx, p, view, ready, awaited) && Queueing(awaited, setDependsOn, ready, placed, vecPriority, queued, taken)
    ensures forall h :: h in queued ==> Candidate(mapTx, p, view, h) && h in mapTx && Awaited(mapTx[h], view) <= placed
  {
    hide Awaited, Missing;
    forall h | h in queued && h in awaited ensures Awaited(mapTx[h], view) <= placed { NothingLeft(awaited[h], placed); }
  }

  // Takes one entry off the queue, the best by the order in force.
  method Pop(ghost mapTx: map<Hash, Tx>, ghost p: Policy, ghost view: map<Hash, Coins>, ghost awaited: map<Hash, set<Hash>>,
             ghost setDependsOn: map<Hash, set<Hash>>, ghost ready: set<Hash>, ghost placed: set<Hash>,
             queue: seq<Hash>, ghost queued: set<Hash>, ghost taken: set<Hash>)
    returns (h: Hash, vecPriority: seq<Hash>)
    requires Queueing(awaited, setDependsOn, ready, placed, queue, queued, taken) && queue != []
    requires Sorted(mapTx, p, view, ready, awaited)
    ensures Candidate(mapTx, p, view, h) && h in mapTx && Awaited(mapTx[h], view) <= placed
    ensures h in queued && h !in taken && Queueing(awaited, setDependsOn, ready, placed, vecPriority, queued, taken + {h})
  {
    TakenIsFree(mapTx, p, view, ready, awaited, setDependsOn, placed, queue, queued, taken);
    hide Waiting, Sorted, Candidate, Awaited;
    var i: nat :| i < |queue|;
    h := queue[i];
    vecPriority := queue[..i] + queue[i + 1..];
    assert h in queue;
    forall g ensures g in vecPriority <==> g in queue && g != h {
      if g in queue && g != h {
        var k :| 0 <= k < |queue| && queue[k] == g;
        if k < i { assert vecPriority[k] == g; } else { assert vecPriority[k - 1] == g; }
      }
    }
  }

  lemma NothingLeft(a: set<Hash>, b: set<Hash>)
    ensures a - b == {} <==> a <= b
  {
    if a - b == {} { forall x | x in a ensures x in b { assert x !in a - b; } }
  }

  lemma Finish(mapTx: map<Hash, Tx>, p: Policy, view: map<Hash, Coins>, ready: set<Hash>, awaited: map<Hash, set<Hash>>,
               setDependsOn: map<Hash, set<Hash>>, queued: set<Hash>, order: seq<Hash>, vtx: seq<Tx>)
    requires Sorted(mapTx, p, view, ready, awaited) && Queueing(awaited, setDependsOn, ready, Ids(vtx), [], queued, Elems(order))
    ensures Exhausted(mapTx, p, view, order, vtx)
  {
    hide Awaited, Missing, Ids;
    forall h | Candidate(mapTx, p, view, h) && Awaited(mapTx[h], view) <= Ids(vtx) ensures h in order {
      if h in awaited { NothingLeft(awaited[h], Ids(vtx)); }
      assert h in queued && h !in [];
    }
  }

  ghost function Elems(order: seq<Hash>): set<Hash> { set h | h in order }

  lemma {:induction false} ElemsSize(order: seq<Hash>, s: set<Hash>)
    requires (forall i, j :: 0 <= i < j < |order| ==> order[i] != order[j]) && Elems(order) <= s
    ensures |order| <= |s|
  {
    if order != [] {
      var n := |order| - 1;
      ElemsSize(order[..n], s - {order[n]});
    }
  }

  // A hash placed so far under which a freed entry is listed.
  ghost predicate ReachesFreed(mapTx: map<Hash, Tx>, p: Policy, view: map<Hash, Coins>, placed: set<Hash>) {
    exists q :: q in placed && FreedUnder(mapTx, p, view, q)
  }

  // Goes through what is listed under a transaction that was placed, unless a freed entry is among it.
  method ReleaseUnder(ghost mapTx: map<Hash, Tx>, ghost p: Policy, ghost view: map<Hash, Coins>, h: Hash, mapDependers: map<Hash, seq<Hash>>,
                      freed: set<Hash>, was: map<Hash, set<Hash>>, queue: seq<Hash>, ghost first: seq<Hash>, ghost awaited: map<Hash, set<Hash>>,
                      ghost ready: set<Hash>, ghost placed: set<Hash>, ghost queuedBefore: set<Hash>, ghost taken: set<Hash>)
    returns (fFreed: bool, setDependsOn: map<Hash, set<Hash>>, vecPriority: seq<Hash>, ghost queued: set<Hash>)
    requires Collected(mapTx, p, view, mapTx.Keys, first, awaited, mapDependers, freed)
    requires Queueing(awaited, was, ready, placed, queue, queuedBefore, taken) && h !in placed
    requires !ReachesFreed(mapTx, p, view, placed)
    ensures fFreed <==> ReachesFreed(mapTx, p, view, placed + {h})
    ensures !fFreed ==> Queueing(awaited, setDependsOn, ready, placed + {h}, vecPriority, queued, taken)
  {
    hide Collected, Holds, Waiting, FreedUnder, ListsWaiting, DependersOn, ReachesFreed;
    ReachesNext(mapTx, p, view, placed, h);
    setDependsOn, vecPriority, queued := was, queue, queuedBefore;
    DependersOf(mapTx, p, view, first, awaited, mapDependers, freed, h);
    var dependers := DependersOn(mapDependers, h);
    fFreed := exists i :: 0 <= i < |dependers| && dependers[i] in freed;
    if !fFreed {
      ReleaseNeeds(awaited, h, dependers);
      setDependsOn, vecPriority := Release(h, dependers, setDependsOn, vecPriority, awaited, placed, queuedBefore, taken);
      queued := QueuedBy(queuedBefore, setDependsOn);
      KeysKept(awaited, setDependsOn, placed + {h}, queued);
    }
  }

  lemma KeysKept(awaited: map<Hash, set<Hash>>, setDependsOn: map<Hash, set<Hash>>, placed: set<Hash>, queued: set<Hash>)
    requires Waiting(awaited, setDependsOn, placed, queued)
    ensures setDependsOn.Keys == awaited.Keys
  {}

  // The block that the given order has led to.
  ghost predicate Chosen(mapTx: map<Hash, Tx>, p: Policy, view: map<Hash, Coins>, order: seq<Hash>, vtx: seq<Tx>, v: Utxo,
                         nBlockSize: nat, nBlockSigOps: nat)
    requires p.nHeight > 0
  {
    && HandedOut(mapTx, p, view, order) && vtx == Tried(mapTx, p, Canon(view), order) && |order| <= |mapTx|
    && Filled(p, Canon(view), vtx, v, nBlockSize, nBlockSigOps) && FromPool(mapTx, p, vtx, Ids(vtx)) && Ids(vtx) <= Elems(order)
  }

  lemma ChosenStart(mapTx: map<Hash, Tx>, p: Policy, view: map<Hash, Coins>)
    requires p.nHeight > 0 && ViewOk(view)
    ensures Chosen(mapTx, p, view, [], [], Canon(view), 1000, 100)
    ensures Ids([]) == {} == Elems([]) && !ReachesFreed(mapTx, p, view, {})
  {
    CanonIsCanonical(view);
  }

  // Tries the transaction that was handed out.
  method TryNext(mapTx: map<Hash, Tx>, p: Policy, ghost view: map<Hash, Coins>, ghost order: seq<Hash>, ghost vtx: seq<Tx>, v: Utxo,
                 blockSize: nat, blockSigOps: nat, h: Hash)
    returns (ok: bool, coins: Utxo, nBlockSize: nat, nBlockSigOps: nat)
    requires PoolOk(mapTx, p) && p.nHeight > 0 && Chosen(mapTx, p, view, order, vtx, v, blockSize, blockSigOps)
    requires Candidate(mapTx, p, view, h) && h !in Elems(order) && Awaited(mapTx[h], view) <= Ids(vtx)
    ensures Chosen(mapTx, p, view, order + [h], if ok then vtx + [mapTx[h]] else vtx, coins, nBlockSize, nBlockSigOps)
    ensures Elems(order + [h]) == Elems(order) + {h} && |order| < |mapTx|
    ensures h !in Ids(vtx) && Ids(vtx + [mapTx[h]]) == Ids(vtx) + {h}
  {
    var tx := mapTx[h];
    assert PoolTx(tx, h, p);
    assert h !in order;
    hide Filled, FromPool, HandedOut, Tried, MayFollow, Candidate, Awaited, Ids, Elems, Canon, PoolOk;
    HandedOutNext(mapTx, p, view, order, h);
    ElemsNext(mapTx, p, view, order, h);
    IdsNext(vtx, tx);
    ok, coins, nBlockSize, nBlockSigOps := Place(p, Canon(view), vtx, v, blockSize, blockSigOps, tx);
    FromPoolNext(mapTx, p, vtx, Ids(vtx), tx);
  }

  // The loop of CreateNewBlock that fills the block. `order` is the order in which the queue handed out
  // transactions; fFreed says that the loop came upon a freed entry and the code is undefined from there.
  method FillBlock(mapTx: map<Hash, Tx>, p: Policy, view: map<Hash, Coins>)
    returns (vtx: seq<Tx>, nBlockSize: nat, nBlockSigOps: nat, nPops: nat, fFreed: bool, ghost order: seq<Hash>)
    requires PoolOk(mapTx, p) && ViewOk(view) && p.nHeight > 0
    ensures HandedOut(mapTx, p, view, order) && vtx == Tried(mapTx, p, Canon(view), order)
    ensures !fFreed ==> Exhausted(mapTx, p, view, order, vtx)
    ensures fFreed <==> ReachesFreed(mapTx, p, view, Ids(vtx))
    ensures NoneDangles(mapTx, p, view) ==> !fFreed
    ensures ViewAfter(p, Canon(view), vtx).Some?
    ensures Filled(p, Canon(view), vtx, ViewAfter(p, Canon(view), vtx).value, nBlockSize, nBlockSigOps)
    ensures FromPool(mapTx, p, vtx, Ids(vtx)) && nPops == |order| <= |mapTx|
    ensures AllFit(p, Canon(view), vtx)
  {
    hide AllFit, AllPlaceable, Chosen, Collected, Queueing, Awaited, Sorted, Candidate, FreedUnder, Elems, Ids,
         ReachesFreed, Canon, ViewOk, PoolOk, ListsWaiting, HandedOut, Filled, FromPool, Tried, ViewAfter, Exhausted,
         MayFollow, PoolTx, Dangles, Entered, Acceptable, TotalSize, TotalSigOps, Canonical, Unique, NoneDangles;
    var vecPriority, awaited, mapDependers, freed;
    vecPriority, awaited, mapDependers, freed := Collect(mapTx, p, view);
    CollectedStart(mapTx, p, view, vecPriority, awaited, mapDependers, freed);
    ChosenStart(mapTx, p, view);
    ghost var queue, ready := vecPriority, Elems(vecPriority);
    ghost var queued := ready;
    var setDependsOn, coins := awaited, Canon(view);
    vtx, nBlockSize, nBlockSigOps, nPops, fFreed, order := [], 1000, 100, 0, false, [];
    while vecPriority != [] && !fFreed
      invariant Chosen(mapTx, p, view, order, vtx, coins, nBlockSize, nBlockSigOps) && nPops == |order|
      invariant !fFreed ==> Queueing(awaited, setDependsOn, ready, Ids(vtx), vecPriority, queued, Elems(order))
      invariant fFreed <==> ReachesFreed(mapTx, p, view, Ids(vtx))
      decreases |mapTx| - |order|, !fFreed
    {
      var h;
      h, vecPriority := Pop(mapTx, p, view, awaited, setDependsOn, ready, Ids(vtx), vecPriority, queued, Elems(order));
      var ok;
      ghost var placed := Ids(vtx);
      ok, coins, nBlockSize, nBlockSigOps := TryNext(mapTx, p, view, order, vtx, coins, nBlockSize, nBlockSigOps, h);
      order := order + [h];
      nPops := nPops + 1;
      if !ok { continue; }
      vtx := vtx + [mapTx[h]];
      ghost var before := queued;
      fFreed, setDependsOn, vecPriority, queued := ReleaseUnder(mapTx, p, view, h, mapDependers, freed, setDependsOn, vecPriority,
                                                                queue, awaited, ready, placed, before, Elems(order));
    }
    ChosenMeans(mapTx, p, view, order, vtx, coins, nBlockSize, nBlockSigOps);
    NoneReached(mapTx, p, view, Ids(vtx));
    FilledAllFit(mapTx, p, Canon(view), vtx, coins, nBlockSize, nBlockSigOps);
    if !fFreed { Finish(mapTx, p, view, ready, awaited, setDependsOn, queued, order, vtx); }
  }

  lemma NoneReached(mapTx: map<Hash, Tx>, p: Policy, view: map<Hash, Coins>, placed: set<Hash>)
    ensures NoneDangles(mapTx, p, view) ==> !ReachesFreed(mapTx, p, view, placed)
  {
    hide Dangles;
  }

  lemma ReleaseNeeds(awaited: map<Hash, set<Hash>>, hash: Hash, l: seq<Hash>)
    requires ListsWaiting(awaited, hash, l)
    ensures forall i :: 0 <= i < |l| ==> l[i] in awaited && hash in awaited[l[i]]
    ensures forall h :: h in awaited && hash in awaited[h] ==> h in l
  {}

  lemma ChosenMeans(mapTx: map<Hash, Tx>, p: Policy, view: map<Hash, Coins>, order: seq<Hash>, vtx: seq<Tx>, v: Utxo,
                    nBlockSize: nat, nBlockSigOps: nat)
    requires p.nHeight > 0 && Chosen(mapTx, p, view, order, vtx, v, nBlockSize, nBlockSigOps)
    ensures HandedOut(mapTx, p, view, order) && vtx == Tried(mapTx, p, Canon(view), order) && |order| <= |mapTx|
    ensures ViewAfter(p, Canon(view), vtx) == Some(v) && Filled(p, Canon(view), vtx, v, nBlockSize, nBlockSigOps)
    ensures FromPool(mapTx, p, vtx, Ids(vtx))
  {
    hide HandedOut, FromPool, Tried, Ids, Canon;
  }

  lemma IdsNext(vtx: seq<Tx>, tx: Tx)
    ensures Ids(vtx + [tx]) == Ids(vtx) + {tx.hash}
  {
    assert tx in vtx + [tx];
    forall t | t in vtx ensures t in vtx + [tx] {}
  }

  lemma ReachesNext(mapTx: map<Hash, Tx>, p: Policy, view: map<Hash, Coins>, placed: set<Hash>, h: Hash)
    ensures ReachesFreed(mapTx, p, view, placed + {h}) <==> ReachesFreed(mapTx, p, view, placed) || FreedUnder(mapTx, p, view, h)
  {
    hide FreedUnder;
    assert h in placed + {h};
    if ReachesFreed(mapTx, p, view, placed) { var q :| q in placed && FreedUnder(mapTx, p, view, q); assert q in placed + {h}; }
  }

  // One more pop keeps the pops within the pool.
  lemma ElemsNext(mapTx: map<Hash, Tx>, p: Policy, view: map<Hash, Coins>, order: seq<Hash>, h: Hash)
    requires p.nHeight > 0 && HandedOut(mapTx, p, view, order + [h])
    ensures Elems(order + [h]) == Elems(order) + {h} && |order + [h]| <= |mapTx|
  {
    hide Missing, Awaited, Tried;
    ElemsSize(order + [h], mapTx.Keys);
    assert |mapTx.Keys| == |mapTx|;
    assert h in order + [h];
  }
}
