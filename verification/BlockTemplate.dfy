/** The new block as a whole: what stands in it before the transactions of the pool, and whether it connects. */
module BlockTemplate {
  import opened Basics
  import opened Ledger
  import opened Blocks
  import opened CoinsView
  import opened BlockAssembly
  import opened Validity

  // Outside what the head of the block spends, the view it leaves has all that the view without it has.
  ghost predicate Covers(v: Utxo, w: Utxo, head: seq<Tx>) {
    forall o :: Unspent(v, o) && AvoidsAll(head, o) ==> Unspent(w, o) && Record(w, o) == Record(v, o)
  }

  lemma CoversNext(v: Utxo, w: Utxo, head: seq<Tx>, tx: Tx, nHeight: nat)
    requires Covers(v, w, head) && Canonical(v) && Canonical(w) && ProperOutputs(tx)
    requires UpdateCoins(v, tx, nHeight).Some? && UpdateCoins(w, tx, nHeight).Some?
    ensures Covers(UpdateCoins(v, tx, nHeight).value.0, UpdateCoins(w, tx, nHeight).value.0, head)
  {
    var v1, w1 := UpdateCoins(v, tx, nHeight).value.0, UpdateCoins(w, tx, nHeight).value.0;
    forall o | Unspent(v1, o) && AvoidsAll(head, o) ensures Unspent(w1, o) && Record(w1, o) == Record(v1, o) {
      UpdateCoinsMeaning(v, tx, nHeight, o);
      UpdateCoinsMeaning(w, tx, nHeight, o);
      hide UpdateCoins, Canonical, AvoidsAll, ProperOutputs;
    }
  }

  // ---------- the head ----------

  // The head of the block takes away what it spends and nothing else.
  lemma {:induction false} HeadCovers(r: Rules, ctx: Context, nTime: nat, u: Utxo, head: seq<Tx>)
    requires ctx.nHeight > 0 && Canonical(u) && ProperTxs(head) && ConnectTxs(r, ctx, nTime, u, head).Some?
    requires !Overwrites(u, head)
    ensures Covers(u, ConnectTxs(r, ctx, nTime, u, head).value.utxo, head)
  {
    hide ConnectTx, Canonical;
    if head != [] {
      var n := |head| - 1;
      var init := head[..n];
      assert !Overwrites(u, init) by { assert forall i :: 0 <= i < n ==> init[i] == head[i]; }
      ConnectTxsKeeps(r, ctx, nTime, u, init);
      HeadCovers(r, ctx, nTime, u, init);
      var acc := ConnectTxs(r, ctx, nTime, u, init).value;
      ConnectTxShape(r, ctx, nTime, acc, head[n]);
      var w := ConnectTxs(r, ctx, nTime, u, head).value.utxo;
      forall o | Unspent(u, o) && AvoidsAll(head, o) ensures Unspent(w, o) && Record(w, o) == Record(u, o) {
        assert head[n].hash !in u;
        assert forall i :: 0 <= i < n ==> init[i] == head[i];
        UpdateCoinsMeaning(acc.utxo, head[n], ctx.nHeight, o);
      }
    }
  }

  // What connected transactions spend was there before, or was created by one of them.
  lemma {:induction false} SpentComesFrom(r: Rules, ctx: Context, nTime: nat, u: Utxo, head: seq<Tx>, o: OutPoint)
    requires ctx.nHeight > 0 && Canonical(u) && ProperTxs(head) && ConnectTxs(r, ctx, nTime, u, head).Some?
    requires !AvoidsAll(head, o)
    ensures o.hash in u || exists i :: 0 <= i < |head| && head[i].hash == o.hash
  {
    hide ConnectTx, Canonical;
    var n := |head| - 1;
    var init := head[..n];
    assert forall i :: 0 <= i < n ==> init[i] == head[i];
    ConnectTxsKeeps(r, ctx, nTime, u, init);
    var acc := ConnectTxs(r, ctx, nTime, u, init).value;
    ConnectTxShape(r, ctx, nTime, acc, head[n]);
    if !AvoidsAll(init, o) {
      SpentComesFrom(r, ctx, nTime, u, init, o);
    } else {
      SpendAllIsThere(acc.utxo, head[n].vin, o);
    }
    if o.hash !in u { var i :| 0 <= i < n && init[i].hash == o.hash; assert head[i].hash == o.hash; }
  }

  lemma {:induction false} SpendAllIsThere(u: Utxo, vin: seq<TxIn>, o: OutPoint)
    requires SpendAll(u, vin).Some? && !Avoids(vin, o)
    ensures Unspent(u, o)
  {
    var n := |vin| - 1;
    if vin[n].prevout == o {
      SpendAllOnlyRemoves(u, vin[..n], o);
    } else {
      assert forall i :: 0 <= i < n ==> vin[..n][i] == vin[i];
      SpendAllIsThere(u, vin[..n], o);
    }
  }

  // ---------- one transaction after the head ----------

  // The inputs of tx mean the same in both views.
  ghost predicate SameInputs(v: Utxo, w: Utxo, vin: seq<TxIn>) {
    && HaveInputs(v, vin) && HaveInputs(w, vin)
    && forall i :: 0 <= i < |vin| ==> Record(w, vin[i].prevout) == Record(v, vin[i].prevout)
  }

  lemma CoveredInputs(v: Utxo, w: Utxo, head: seq<Tx>, vin: seq<TxIn>)
    requires Covers(v, w, head) && HaveInputs(v, vin) && forall i :: 0 <= i < |vin| ==> AvoidsAll(head, vin[i].prevout)
    ensures SameInputs(v, w, vin)
  {
    hide AvoidsAll;
    forall i | 0 <= i < |vin| ensures Unspent(w, vin[i].prevout) && Record(w, vin[i].prevout) == Record(v, vin[i].prevout) {
      assert Unspent(v, vin[i].prevout);
    }
  }

  lemma {:induction false} SameSum(v: Utxo, w: Utxo, vin: seq<TxIn>)
    requires SameInputs(v, w, vin)
    ensures SumIn(w, vin) == SumIn(v, vin)
  {
    if vin != [] {
      var n := |vin| - 1;
      assert SameInputs(v, w, vin[..n]) by { assert forall i :: 0 <= i < n ==> vin[..n][i] == vin[i]; }
      SameSum(v, w, vin[..n]);
      assert Record(w, vin[n].prevout) == Record(v, vin[n].prevout);
    }
  }

  lemma {:induction false} SameSigOps(r: Rules, v: Utxo, w: Utxo, tx: Tx, k: nat)
    requires SameInputs(v, w, tx.vin) && k <= |tx.vin|
    ensures P2SHSigOps(r, w, tx, k) == P2SHSigOps(r, v, tx, k)
  {
    if k > 0 {
      SameSigOps(r, v, w, tx, k - 1);
      assert Record(w, tx.vin[k - 1].prevout) == Record(v, tx.vin[k - 1].prevout);
    }
  }

  lemma SameInput(r: Rules, prevHeight: nat, v: Utxo, w: Utxo, tx: Tx, i: nat)
    requires SameInputs(v, w, tx.vin) && i < |tx.vin|
    ensures CheckInput(r, prevHeight, w, tx, i) == CheckInput(r, prevHeight, v, tx, i)
  {
    assert SameInputs(v, w, tx.vin[..i + 1]) by { assert forall j :: 0 <= j <= i ==> tx.vin[..i + 1][j] == tx.vin[j]; }
    SameSum(v, w, tx.vin[..i + 1]);
    hide SumIn;
    assert Record(w, tx.vin[i].prevout) == Record(v, tx.vin[i].prevout);
    assert v[tx.vin[i].prevout.hash].(vout := []) == w[tx.vin[i].prevout.hash].(vout := []);
  }

  lemma SameChecks(r: Rules, hashPrev: Hash, prevHeight: nat, v: Utxo, w: Utxo, tx: Tx, fScriptChecks: bool)
    requires SameInputs(v, w, tx.vin) && CheckInputs(r, hashPrev, prevHeight, v, tx, true)
    ensures CheckInputs(r, hashPrev, prevHeight, w, tx, fScriptChecks)
  {
    SameSum(v, w, tx.vin);
    forall i | 0 <= i < |tx.vin|
      ensures CheckInput(r, prevHeight, w, tx, i) == CheckInput(r, prevHeight, v, tx, i)
      ensures PrevOut(w, tx.vin[i].prevout) == PrevOut(v, tx.vin[i].prevout)
    {
      SameInput(r, prevHeight, v, w, tx, i);
      assert Record(w, tx.vin[i].prevout) == Record(v, tx.vin[i].prevout);
    }
    hide SumIn, CheckInput, CheckFee;
    if IsUnpark(r, tx) {
      assert Record(w, tx.vin[0].prevout) == Record(v, tx.vin[0].prevout);
      assert v[tx.vin[0].prevout.hash].(vout := []) == w[tx.vin[0].prevout.hash].(vout := []);
    }
  }

  // The block and the policy speak of the same place in the chain.
  ghost predicate SamePlace(p: Policy, ctx: Context) { p.nHeight > 0 && ctx.nHeight == p.nHeight && ctx.hashPrev == p.hashPrev }

  // Whatever may follow without the head may follow behind it, unless the head spent one of its inputs.
  lemma FollowsHead(p: Policy, ctx: Context, nTime: nat, u: Utxo, vtx: seq<Tx>, v: Utxo, head: seq<Tx>, acc: Connected, tx: Tx)
    requires SamePlace(p, ctx) && ViewAfter(p, u, vtx) == Some(v) && Acceptable(p, v, tx) && tx.Spends() && !tx.IsCoinBase()
    requires Canonical(v) && Canonical(acc.utxo) && Covers(v, acc.utxo, head) && DistinctInputs(tx.vin) && ProperOutputs(tx)
    requires UpdateCoins(v, tx, p.nHeight).Some? && forall i :: 0 <= i < |tx.vin| ==> AvoidsAll(head, tx.vin[i].prevout)
    requires acc.nSigOps + p.r.legacySigOps(tx) + p.P2SH(tx, v) <= MAX_BLOCK_SIGOPS
    ensures var c := ConnectTx(p.r, ctx, nTime, acc, tx);
            && c.Some? && Covers(UpdateCoins(v, tx, p.nHeight).value.0, c.value.utxo, head)
            && c.value.nSigOps <= acc.nSigOps + p.r.legacySigOps(tx) + p.P2SH(tx, v)
  {
    CoveredInputs(v, acc.utxo, head, tx.vin);
    SameSigOps(p.r, v, acc.utxo, tx, |tx.vin|);
    SameChecks(p.r, p.hashPrev, p.nHeight - 1, v, acc.utxo, tx, ctx.nHeight >= p.r.checkpointHeight);
    HaveInputsSuffices(acc.utxo, tx.vin);
    CoversNext(v, acc.utxo, head, tx, p.nHeight);
    hide CheckInputs, HaveInputs, UpdateCoins, P2SHSigOps, Covers, SumIn, Canonical, AvoidsAll, DistinctInputs, ProperOutputs, SameInputs;
  }

  // ---------- the whole block ----------

  // A transaction taken from the pool.
  ghost predicate Pooled(r: Rules, tx: Tx) { CheckTransaction(r, tx) && tx.Spends() && !tx.IsCoinStake() }

  // No transaction of the pool spends what the head of the block spends.
  ghost predicate Apart(head: seq<Tx>, vtx: seq<Tx>) {
    forall k, i :: 0 <= k < |vtx| && 0 <= i < |vtx[k].vin| ==> AvoidsAll(head, vtx[k].vin[i].prevout)
  }

  // The head is the beginning of the block, and leaves room for the signature operations kept back for it,
  // those of pay-to-script-hash inputs among them.
  ghost predicate HeadConnects(p: Policy, ctx: Context, u: Utxo, head: seq<Tx>) {
    && SamePlace(p, ctx) && head != [] && Canonical(u)
    && ConnectTxs(p.r, ctx, BIP16_SWITCH_TIME, u, head).Some? && ConnectTxs(p.r, ctx, BIP16_SWITCH_TIME, u, head).value.nSigOps <= 100
  }

  // A block of another time counts no more signature operations, and is otherwise connected alike.
  lemma {:induction false} AtAnyTime(r: Rules, ctx: Context, nTime: nat, u: Utxo, vtx: seq<Tx>)
    requires ctx.nHeight > 0 && ConnectTxs(r, ctx, BIP16_SWITCH_TIME, u, vtx).Some?
    ensures ConnectTxs(r, ctx, nTime, u, vtx).Some?
    ensures var (c, d) := (ConnectTxs(r, ctx, BIP16_SWITCH_TIME, u, vtx).value, ConnectTxs(r, ctx, nTime, u, vtx).value);
            d.utxo == c.utxo && d.nSigOps <= c.nSigOps
  {
    if vtx != [] {
      AtAnyTime(r, ctx, nTime, u, vtx[..|vtx| - 1]);
      hide CheckInputs, UpdateCoins, HaveInputs, P2SHSigOps, SumIn;
    }
  }

  lemma {:induction false} BehindHead(p: Policy, ctx: Context, nTime: nat, u: Utxo, head: seq<Tx>, vtx: seq<Tx>)
    requires HeadConnects(p, ctx, u, head) && ProperTxs(head) && !Overwrites(u, head)
    requires ViewAfter(p, u, vtx).Some? && TotalSigOps(p, u, vtx) <= MAX_BLOCK_SIGOPS
    requires Apart(head, vtx) && forall k :: 0 <= k < |vtx| ==> Pooled(p.r, vtx[k])
    ensures Canonical(ViewAfter(p, u, vtx).value)
    ensures var c := ConnectTxs(p.r, ctx, nTime, u, head + vtx);
            && c.Some? && Canonical(c.value.utxo) && Covers(ViewAfter(p, u, vtx).value, c.value.utxo, head)
            && c.value.nSigOps <= TotalSigOps(p, u, vtx)
  {
    hide ConnectTx, UpdateCoins, Canonical, Covers, Acceptable, AvoidsAll, ProperOutputs, Overwrites;
    if vtx == [] {
      assert head + vtx == head;
      AtAnyTime(p.r, ctx, nTime, u, head);
      HeadCovers(p.r, ctx, nTime, u, head);
      ConnectTxsKeeps(p.r, ctx, nTime, u, head);
    } else {
      var n := |vtx| - 1;
      var front, tx := vtx[..n], vtx[n];
      assert forall k :: 0 <= k < n ==> front[k] == vtx[k];
      BehindHead(p, ctx, nTime, u, head, front);
      assert (head + vtx)[..|head + vtx| - 1] == head + front;
      var acc := ConnectTxs(p.r, ctx, nTime, u, head + front).value;
      CheckedIsProper(p.r, tx);
      hide CheckTransaction;
      FollowsHead(p, ctx, nTime, u, front, ViewAfter(p, u, front).value, head, acc, tx);
      UndoInvertsUpdate(ViewAfter(p, u, front).value, tx, p.nHeight);
      ConnectTxShape(p.r, ctx, nTime, acc, tx);
      UndoInvertsUpdate(acc.utxo, tx, p.nHeight);
    }
  }

  // A prefix of connected transactions connects, and the next one finds its inputs.
  lemma {:induction false} FindsInputs(r: Rules, ctx: Context, nTime: nat, u: Utxo, all: seq<Tx>, k: nat, i: nat)
    requires ctx.nHeight > 0 && ConnectTxs(r, ctx, nTime, u, all).Some? && k < |all| && all[k].Spends() && i < |all[k].vin|
    ensures ConnectTxs(r, ctx, nTime, u, all[..k]).Some?
    ensures Unspent(ConnectTxs(r, ctx, nTime, u, all[..k]).value.utxo, all[k].vin[i].prevout)
  {
    var n := |all| - 1;
    if k < n {
      hide ConnectTx, Unspent;
      assert all[..n][..k] == all[..k];
      FindsInputs(r, ctx, nTime, u, all[..n], k, i);
    } else {
      var acc := ConnectTxs(r, ctx, nTime, u, all[..n]).value;
      ConnectTxShape(r, ctx, nTime, acc, all[n]);
      assert !Avoids(all[n].vin, all[n].vin[i].prevout);
      SpendAllIsThere(acc.utxo, all[n].vin, all[n].vin[i].prevout);
    }
  }

  // An output of the earlier set that one more transaction finds has not been spent by those before it.
  lemma NotSpentBefore(r: Rules, ctx: Context, nTime: nat, u: Utxo, all: seq<Tx>, k: nat, i: nat)
    requires ctx.nHeight > 0 && Canonical(u) && ProperTxs(all) && !Overwrites(u, all) && ConnectTxs(r, ctx, nTime, u, all).Some?
    requires k < |all| && all[k].Spends() && i < |all[k].vin| && all[k].vin[i].prevout.hash in u
    ensures AvoidsAll(all[..k], all[k].vin[i].prevout)
  {
    FindsInputs(r, ctx, nTime, u, all, k, i);
    hide ConnectTxs, Canonical, ProperOutputs, Tx.IsCoinBase, Unspent, AvoidsAll;
    assert ProperTxs(all[..k]);
    SurvivesConnect(r, ctx, nTime, u, all[..k], all[k].vin[i].prevout);
  }

  lemma ConnectsOnlyApart(p: Policy, ctx: Context, nTime: nat, u: Utxo, head: seq<Tx>, vtx: seq<Tx>, k: nat, i: nat)
    requires p.nHeight > 0 && ctx.nHeight > 0 && Canonical(u) && ProperTxs(head + vtx) && !Overwrites(u, head + vtx)
    requires ViewAfter(p, u, vtx).Some? && k < |vtx| && vtx[k].Spends() && i < |vtx[k].vin|
    requires ConnectTxs(p.r, ctx, nTime, u, head).Some? && ConnectTxs(p.r, ctx, nTime, u, head + vtx).Some?
    ensures AvoidsAll(head, vtx[k].vin[i].prevout)
  {
    hide ConnectTxs, ViewAfter, Canonical, Tx.IsCoinBase, Tx.IsCustodianGrant, Tx.Spends, ProperTxs, Overwrites, AvoidsAll;
    var all, o := head + vtx, vtx[k].vin[i].prevout;
    assert all[|head| + k] == vtx[k];
    if o.hash in u {
      NotSpentBefore(p.r, ctx, nTime, u, all, |head| + k, i);
      PrefixAvoids(all[..|head| + k], head, o);
    } else {
      NotCreatedBefore(p, ctx, nTime, u, head, vtx, k, i);
    }
  }

  lemma PrefixAvoids(all: seq<Tx>, head: seq<Tx>, o: OutPoint)
    requires head <= all && AvoidsAll(all, o)
    ensures AvoidsAll(head, o)
  {
    hide Avoids;
    assert forall j :: 0 <= j < |head| ==> head[j] == all[j];
  }

  // An output that is new with the block is of a pool transaction, so the head had it not yet.
  lemma NotCreatedBefore(p: Policy, ctx: Context, nTime: nat, u: Utxo, head: seq<Tx>, vtx: seq<Tx>, k: nat, i: nat)
    requires p.nHeight > 0 && ctx.nHeight > 0 && Canonical(u) && ProperTxs(head + vtx) && ConnectTxs(p.r, ctx, nTime, u, head).Some?
    requires ViewAfter(p, u, vtx).Some? && k < |vtx| && i < |vtx[k].vin| && vtx[k].vin[i].prevout.hash !in u
    ensures AvoidsAll(head, vtx[k].vin[i].prevout)
  {
    hide ConnectTxs, ViewAfter, Canonical, ProperOutputs, Tx.IsCoinBase, AvoidsAll;
    var all, o := head + vtx, vtx[k].vin[i].prevout;
    assert ProperTxs(head) by { assert forall j :: 0 <= j < |head| ==> head[j] == all[j]; }
    assert forall j :: 0 <= j < |vtx| ==> all[|head| + j] == vtx[j];
    assert forall j :: 0 <= j < |head| ==> all[j] == head[j];
    ParentsComeFirst(p, u, vtx, k, i);
    if !AvoidsAll(head, o) { SpentComesFrom(p.r, ctx, nTime, u, head, o); }
  }

  // ConnectBlock as CreateNewBlock calls it: the block is not sealed yet, and has no hash that could let it
  // off BIP 30.
  predicate JustCheck(r: Rules, ctx: Context, u: Utxo, b: Block)
    requires ctx.nHeight > 0
  {
    CheckContents(r, b) && !Overwrites(u, b.vtx) && ConnectTxs(r, ctx, b.nTime, u, b.vtx).Some?
  }

  // The block made of a head that connects and of transactions chosen from the pool: it passes the test exactly
  // if it passes the checks on a block by itself, repeats no transaction, and no chosen transaction spends
  // an output that the head spends. The pool transactions were chosen on a view that does not know the head.
  lemma {:induction false} TemplateConnectsIff(p: Policy, ctx: Context, u: Utxo, b: Block, head: seq<Tx>, vtx: seq<Tx>)
    requires HeadConnects(p, ctx, u, head) && b.vtx == head + vtx
    requires ViewAfter(p, u, vtx).Some? && TotalSigOps(p, u, vtx) < MAX_BLOCK_SIGOPS
    requires forall k :: 0 <= k < |vtx| ==> Pooled(p.r, vtx[k])
    ensures JustCheck(p.r, ctx, u, b) <==> CheckContents(p.r, b) && !Overwrites(u, b.vtx) && Apart(head, vtx)
  {
    hide ConnectTxs, ViewAfter, TotalSigOps, Canonical, AvoidsAll, CheckContents, CheckTransaction;
    if CheckContents(p.r, b) && !Overwrites(u, b.vtx) {
      ContentsAreProper(p.r, b);
      assert ProperTxs(head) && !Overwrites(u, head) by { assert forall j :: 0 <= j < |head| ==> head[j] == b.vtx[j]; }
      if Apart(head, vtx) { BehindHead(p, ctx, b.nTime, u, head, vtx); }
      if JustCheck(p.r, ctx, u, b) {
        AtAnyTime(p.r, ctx, b.nTime, u, head);
        forall k, i | 0 <= k < |vtx| && 0 <= i < |vtx[k].vin| ensures AvoidsAll(head, vtx[k].vin[i].prevout) {
          ConnectsOnlyApart(p, ctx, b.nTime, u, head, vtx, k, i);
        }
      }
    }
  }

  // A block that passes the test lacks nothing but its seal. A head that spends nothing, as that of a block of
  // proof of work, is apart from everything, so its block connects exactly if it passes the checks on a block by itself
  // and repeats no transaction.
  lemma {:induction false} SealedConnectsIff(p: Policy, ctx: Context, u: Utxo, b: Block, head: seq<Tx>, vtx: seq<Tx>)
    requires HeadConnects(p, ctx, u, head) && b.vtx == head + vtx && EnforceBIP30(ctx)
    requires ViewAfter(p, u, vtx).Some? && TotalSigOps(p, u, vtx) < MAX_BLOCK_SIGOPS
    requires forall k :: 0 <= k < |vtx| ==> Pooled(p.r, vtx[k])
    ensures ConnectBlock(p.r, ctx, u, b).Some? <==> JustCheck(p.r, ctx, u, b) && p.r.checkSealed(b)
    ensures (forall i :: 0 <= i < |head| ==> !head[i].Spends()) ==>
              (ConnectBlock(p.r, ctx, u, b).Some? <==> CheckBlock(p.r, b) && !Overwrites(u, b.vtx))
  {
    TemplateConnectsIff(p, ctx, u, b, head, vtx);
    hide ConnectTxs, ViewAfter, TotalSigOps, Canonical, Avoids, CheckContents, CheckTransaction, HeadConnects, EnforceBIP30;
  }

  // ---------- what is left to check ----------

  // The checks on a block by itself, of its head.
  predicate HeadFits(r: Rules, head: seq<Tx>, nTime: nat) {
    && head != [] && head[0].IsCoinBase()
    && (forall i :: 1 <= i < |head| ==> !head[i].IsCoinBase())
    && (forall i :: 2 <= i < |head| ==> !head[i].IsCoinStake())
    && (|head| > 1 && head[1].IsCoinStake() ==> |head[0].vout| == 1 && head[0].vout[0].IsEmpty())
    && forall i :: 0 <= i < |head| ==> CheckTransaction(r, head[i]) && head[i].nTime <= nTime
  }

  // The pool transactions pass every check that is made of single transactions.
  lemma {:induction false} ContentsIff(r: Rules, b: Block, head: seq<Tx>, vtx: seq<Tx>)
    requires b.vtx == head + vtx && head != []
    requires forall k :: 0 <= k < |vtx| ==> Pooled(r, vtx[k]) && vtx[k].nTime <= b.nTime
    ensures CheckContents(r, b) <==> HeadFits(r, head, b.nTime) && DistinctIds(b.vtx) && r.checkOther(b)
  {
    hide CheckTransaction, DistinctIds, Tx.IsCoinStake, Tx.IsCustodianGrant;
    assert forall i :: 0 <= i < |head| ==> b.vtx[i] == head[i];
    assert forall i :: |head| <= i < |b.vtx| ==> b.vtx[i] == vtx[i - |head|];
    assert forall k :: 0 <= k < |vtx| ==> vtx[k] == b.vtx[|head| + k] && !vtx[k].IsCoinBase() && !vtx[k].IsCoinStake();
  }

  // ---------- the procedure ----------

  const MAX_CLOCK_DRIFT: int := 2 * 60 * 60

  // What FillBlock delivers is what TemplateConnectsIff asks for.
  lemma FilledIsReady(mapTx: map<Hash, Tx>, p: Policy, u: Utxo, vtx: seq<Tx>, v: Utxo, nBlockSize: nat, nBlockSigOps: nat)
    requires p.nHeight > 0 && PoolOk(mapTx, p) && Filled(p, u, vtx, v, nBlockSize, nBlockSigOps) && FromPool(mapTx, p, vtx, Ids(vtx))
    ensures ViewAfter(p, u, vtx).Some? && TotalSigOps(p, u, vtx) < MAX_BLOCK_SIGOPS
    ensures forall k :: 0 <= k < |vtx| ==> Pooled(p.r, vtx[k])
  {
    hide ViewAfter, TotalSigOps, TotalSize, Canonical, CheckTransaction;
    forall k | 0 <= k < |vtx| ensures Pooled(p.r, vtx[k]) { assert PoolTx(mapTx[vtx[k].hash], vtx[k].hash, p); }
  }

  method GetMaxTransactionTime(vtx: seq<Tx>) returns (nTime: nat)
    ensures forall k :: 0 <= k < |vtx| ==> vtx[k].nTime <= nTime
    ensures nTime == 0 || exists k :: 0 <= k < |vtx| && vtx[k].nTime == nTime
  {
    nTime := 0;
    for i := 0 to |vtx|
      invariant forall k :: 0 <= k < i ==> vtx[k].nTime <= nTime
      invariant nTime == 0 || exists k :: 0 <= k < i && vtx[k].nTime == nTime
    {
      if vtx[i].nTime > nTime { nTime := vtx[i].nTime; }
    }
  }

  // The time of the header: after the median of the last blocks and every transaction of the block, not far
  // before its parent, and for proof of work not before the clock.
  ghost predicate HeaderTime(b: Block, nMedianTimePast: nat, nPrevTime: nat, nAdjustedTime: nat) {
    && (forall i :: 0 <= i < |b.vtx| ==> b.vtx[i].nTime <= b.nTime)
    && nMedianTimePast < b.nTime && nPrevTime - MAX_CLOCK_DRIFT <= b.nTime && (!b.IsProofOfStake() ==> nAdjustedTime <= b.nTime)
    && (|| b.nTime == nMedianTimePast + 1 || b.nTime == nPrevTime - MAX_CLOCK_DRIFT
        || (!b.IsProofOfStake() && b.nTime == nAdjustedTime) || exists i :: 0 <= i < |b.vtx| && b.vtx[i].nTime == b.nTime)
  }

  // In numbers: the earliest time after the median and not before the transactions, two hours before the parent or,
  // for proof of work, the clock.
  lemma HeaderTimeIs(b: Block, nMedianTimePast: nat, nPrevTime: nat, nAdjustedTime: nat, t: nat)
    requires HeaderTime(b, nMedianTimePast, nPrevTime, nAdjustedTime)
    ensures b.nTime > nMedianTimePast && b.nTime + 7200 >= nPrevTime && (b.IsProofOfStake() || b.nTime >= nAdjustedTime)
    ensures forall i :: 0 <= i < |b.vtx| ==> b.nTime >= b.vtx[i].nTime
    ensures (&& t > nMedianTimePast && t + 7200 >= nPrevTime && (b.IsProofOfStake() || t >= nAdjustedTime)
             && forall i :: 0 <= i < |b.vtx| ==> t >= b.vtx[i].nTime) ==> t >= b.nTime
  {}

  method FillTime(hash: Hash, vtx: seq<Tx>, nMedianTimePast: nat, nPrevTime: nat, nAdjustedTime: nat) returns (b: Block)
    ensures b.hash == hash && b.vtx == vtx && HeaderTime(b, nMedianTimePast, nPrevTime, nAdjustedTime)
  {
    var nMax := GetMaxTransactionTime(vtx);
    var nTime := Max(nMedianTimePast + 1, nMax);
    nTime := Max(nTime, nPrevTime - MAX_CLOCK_DRIFT);
    b := Block(hash, nTime, vtx);
    if !b.IsProofOfStake() { b := b.(nTime := Max(b.nTime, nAdjustedTime)); }
  }

  // Behind a coinstake the block is of the coinstake's time, as proof of stake demands, if that is late enough itself:
  // no transaction that has been chosen is later.
  lemma StakeBlockTime(p: Policy, u: Utxo, b: Block, head: seq<Tx>, nMedianTimePast: nat, nPrevTime: nat, nAdjustedTime: nat)
    requires HeaderTime(b, nMedianTimePast, nPrevTime, nAdjustedTime) && |head| > 1 && head <= b.vtx && b.IsProofOfStake()
    requires p.nStakeTime == Some(head[1].nTime) && AllFit(p, u, b.vtx[|head|..])
    requires forall i :: 0 <= i < |head| ==> head[i].nTime <= head[1].nTime
    requires nMedianTimePast < head[1].nTime && nPrevTime - 2 * 60 * 60 <= head[1].nTime
    ensures b.nTime == head[1].nTime
  {
    hide GoodSpend, AllSigOps, SigOps, After;
    forall i | 0 <= i < |b.vtx| ensures b.vtx[i].nTime <= head[1].nTime {
      if i >= |head| {
        assert b.vtx[i] == b.vtx[|head|..][i - |head|];
        assert FitsBehind(p, u, b.vtx[|head|..][..i - |head|], b.vtx[|head|..][i - |head|]);
      }
    }
    assert b.vtx[1] == head[1];
  }

  // CreateNewBlock from the coins on: the block is filled behind its head, gets its time, and is tested on a
  // fresh view of the coins. Once it is filled, what decides is its head, the repetition of transactions, and
  // what the head spends.
  method CreateNewBlock(mapTx: map<Hash, Tx>, p: Policy, view: map<Hash, Coins>, ctx: Context, head: seq<Tx>,
                        nMedianTimePast: nat, nPrevTime: nat, nAdjustedTime: nat)
    returns (b: Block, ok: bool, fFreed: bool)
    requires PoolOk(mapTx, p) && ViewOk(view) && HeadConnects(p, ctx, Canon(view), head)
    ensures head <= b.vtx && FromPool(mapTx, p, b.vtx[|head|..], Ids(b.vtx[|head|..]))
    ensures HeaderTime(b, nMedianTimePast, nPrevTime, nAdjustedTime)
    ensures fFreed <==> ReachesFreed(mapTx, p, view, Ids(b.vtx[|head|..]))
    ensures NoneDangles(mapTx, p, view) ==> !fFreed
    ensures AllFit(p, Canon(view), b.vtx[|head|..])
    ensures ok <==> JustCheck(p.r, ctx, Canon(view), b)
    ensures ok <==> && HeadFits(p.r, head, b.nTime) && DistinctIds(b.vtx) && p.r.checkOther(b)
                    && !Overwrites(Canon(view), b.vtx) && Apart(head, b.vtx[|head|..])
  {
    assert p.nHeight > 0 && ctx.nHeight > 0 && head != [];
    hide ViewOk, CheckContents, ConnectTxs, Filled, FromPool, HandedOut, Tried, Exhausted, ReachesFreed, Canonical, Canon, Ids,
         NoneDangles, AllFit, HeadFits, DistinctIds, Overwrites, Apart, JustCheck, HeadConnects, Pooled;
    var vtx, nBlockSize, nBlockSigOps, nPops;
    ghost var order;
    vtx, nBlockSize, nBlockSigOps, nPops, fFreed, order := FillBlock(mapTx, p, view);
    FilledIsReady(mapTx, p, Canon(view), vtx, ViewAfter(p, Canon(view), vtx).value, nBlockSize, nBlockSigOps);
    b := FillTime(ctx.hash, head + vtx, nMedianTimePast, nPrevTime, nAdjustedTime);
    assert b.vtx[|head|..] == vtx;
    forall k | 0 <= k < |vtx| ensures vtx[k].nTime <= b.nTime { assert b.vtx[|head| + k] == vtx[k]; }
    TemplateConnectsIff(p, ctx, Canon(view), b, head, vtx);
    ContentsIff(p.r, b, head, vtx);
    ok := JustCheck(p.r, ctx, Canon(view), b);
  }
}
