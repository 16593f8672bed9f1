/** Inputs at which a promise fails that holds only under a condition: one block for each condition on
    connecting and disconnecting. */
module Failures {
  import opened Ledger
  import opened Blocks
  import opened Versions
  import opened MoneySupply
  import opened CoinsView
  import opened BlockAssembly
  import opened BlockTemplate

  // A node to which every script is right and every fee enough.
  const Lenient := Rules(0, 0, 0, (h: Hash, c: char) => 0, (s: Script) => false, (s: Script) => false, (s: Script) => false,
                         (s: Script) => false, (s: Script) => None, (s: Script) => None,
                         (h: Hash, n: nat, v: int, d: int, c: char) => None, false, (tx: Tx) => 0, (tx: Tx) => 0,
                         (s: Script, tx: Tx, n: nat) => 0, (s: Script, tx: Tx, n: nat) => true, (b: Block) => true, (b: Block) => true)

  const Nowhere := TxIn(OutPoint(0, UINT_MAX), [0, 0])
  const Reward := Tx(5, 1, 0, [Nowhere], [TxOut(0, [])], 'S')
  const Payment := TxOut(COIN, [1])
  const Spender := Tx(6, 1, 0, [TxIn(OutPoint(1, 0), [])], [Payment], 'S')

  function OneRecord(nVersion: int, cUnit: char): Utxo {
    map[1 := Coins(false, [Payment], 1, nVersion, false, 0, cUnit)]
  }

  lemma OneOutput(o: TxOut)
    ensures SumOut([o]) == o.nValue && SumOut([]) == 0
  {
    assert [o][..0] == [];
  }

  lemma Checked(tx: Tx)
    requires |tx.vin| == 1 && |tx.vout| == 1 && IsValidUnit(tx.cUnit) && MoneyRange(tx.vout[0].nValue)
    requires CheckOutput(Lenient, tx, tx.vout[0]) && CheckVin(tx)
    ensures CheckTransaction(Lenient, tx)
  {
    OneOutput(tx.vout[0]);
    forall i | 0 <= i <= 1 ensures MoneyRange(SumOut(tx.vout[..i])) {
      assert tx.vout[..i] == if i == 0 then [] else [tx.vout[0]];
    }
  }

  // The reward adds its record to anything.
  lemma RewardConnects(ctx: Context, nTime: nat, u: Utxo)
    requires ctx.nHeight > 0
    ensures ConnectTxs(Lenient, ctx, nTime, u, [Reward])
         == Some(Connected(u[5 := CoinsOf(Reward, ctx.nHeight)], [], 0, map[], map['S' := 0]))
  {
    OneOutput(TxOut(0, []));
    assert [Reward][..0] == [];
    assert !Reward.Spends() && Reward.IsCoinBase();
  }

  lemma BlockIsChecked()
    ensures CheckBlock(Lenient, Block(20, 0, [Reward, Spender])) && CheckBlock(Lenient, Block(20, 0, [Reward]))
  {
    Checked(Reward);
    Checked(Spender);
  }

  // The one input of the spender is worth what it pays out, whatever its version and its unit.
  lemma SpenderPasses(u: Utxo, nVersion: int, cUnit: char)
    requires 1 in u && u[1] == OneRecord(nVersion, cUnit)[1]
    ensures HaveInputs(u, Spender.vin) && SumIn(u, Spender.vin) == COIN
    ensures CheckInputs(Lenient, 10, 1, u, Spender, true) && SigOpsWith(Lenient, 0, u, 0, Spender) == Some(0)
  {
    assert Spender.vin[..1] == Spender.vin && Spender.vin[..0] == [];
    assert SumIn(u, []) == 0;
    assert SumIn(u, Spender.vin) == COIN;
    OneOutput(Payment);
    assert CheckInput(Lenient, 1, u, Spender, 0);
    assert CheckFee(Lenient, 10, Spender, COIN);
  }

  lemma SpendingBlock(nVersion: int, cUnit: char)
    ensures var ctx := Context(20, 10, 2);
            var b := Block(20, 0, [Reward, Spender]);
            var u := OneRecord(nVersion, cUnit);
            && EnforceBIP30(ctx) && ConnectBlock(Lenient, ctx, u, b).Some?
            && ConnectTxs(Lenient, ctx, 0, u, b.vtx) == ConnectBlock(Lenient, ctx, u, b)
            && var c := ConnectBlock(Lenient, ctx, u, b).value;
            && c.utxo == map[5 := CoinsOf(Reward, 2), 6 := CoinsOf(Spender, 2)]
            && c.valueIn == map['S' := COIN] && c.valueOut == map['S' := COIN]
  {
    var ctx := Context(20, 10, 2);
    var u := OneRecord(nVersion, cUnit);
    BlockIsChecked();
    RewardConnects(ctx, 0, u);
    var v := u[5 := CoinsOf(Reward, 2)];
    SpenderPasses(v, nVersion, cUnit);
    OneOutput(Payment);
    assert [Reward, Spender][..1] == [Reward];
    SpenderSpends(v, nVersion, cUnit);
    hide CheckInputs, SigOpsWith, UpdateCoins, CheckBlock, SumIn, HaveInputs;
    assert Spender.Spends() && !Spender.IsCoinBase();
    assert ConnectTx(Lenient, ctx, 0, Connected(v, [], 0, map[], map['S' := 0]), Spender).Some?;
    assert !Overwrites(u, [Reward, Spender]);
  }

  lemma SpenderSpends(v: Utxo, nVersion: int, cUnit: char)
    requires v == OneRecord(nVersion, cUnit)[5 := CoinsOf(Reward, 2)]
    ensures UpdateCoins(v, Spender, 2).Some? && SpendInputs(v, Spender).Some?
    ensures 1 !in SpendInputs(v, Spender).value.0
    ensures UpdateCoins(v, Spender, 2).value.0 == map[5 := CoinsOf(Reward, 2), 6 := CoinsOf(Spender, 2)]
  {
    assert Spender.vin[..0] == [] && SpendAll(v, []) == Some((v, []));
    var w := v[1].vout[0 := NullOut];
    assert w[..0] == [] && Trim(w) == [];
    assert v - {1} == map[5 := CoinsOf(Reward, 2)];
  }

  // The output of a transaction of version -1 is spent, and the block disconnected: the record comes back with
  // version 127.
  lemma VersionIsLost()
    ensures var u := OneRecord(-1, 'S');
            var (ctx, b) := (Context(20, 10, 2), Block(20, 0, [Reward, Spender]));
            && Canonical(u) && EnforceBIP30(ctx) && ConnectBlock(Lenient, ctx, u, b).Some?
            && var c := ConnectBlock(Lenient, ctx, u, b).value;
            var back := DisconnectBlock(c.utxo, b, 2, StoredBlockUndo(c.vtxundo));
            back.Some? && back.value == Undone(OneRecord(127, 'S'), true)
  {
    SpendingBlock(-1, 'S');
    SpentToItsEnd(-1, 'S');
    hide ConnectBlock, DisconnectBlock, ConnectTxs, Stays, StoredBlockUndo, ReplacesNothing;
    var u := OneRecord(-1, 'S');
    var ctx, b := Context(20, 10, 2), Block(20, 0, [Reward, Spender]);
    DisconnectRestores(Lenient, ctx, u, b);
    DisconnectRestoresIff(Lenient, ctx, u, b);
    StoredOnly(DisconnectBlock(ConnectBlock(Lenient, ctx, u, b).value.utxo, b, 2,
                               StoredBlockUndo(ConnectBlock(Lenient, ctx, u, b).value.vtxundo)).value.utxo);
  }

  lemma StoredOnly(v: Utxo)
    requires Faded(v, OneRecord(-1, 'S')) && v != OneRecord(-1, 'S')
    ensures v == OneRecord(127, 'S')
  {}

  lemma SpentToItsEnd(nVersion: int, cUnit: char)
    requires ConnectTxs(Lenient, Context(20, 10, 2), 0, OneRecord(nVersion, cUnit), [Reward, Spender]).Some?
    ensures !Stays(Lenient, Context(20, 10, 2), 0, OneRecord(nVersion, cUnit), [Reward, Spender], 1)
  {
    RewardConnects(Context(20, 10, 2), 0, OneRecord(nVersion, cUnit));
    SpenderSpends(OneRecord(nVersion, cUnit)[5 := CoinsOf(Reward, 2)], nVersion, cUnit);
    assert [Reward, Spender][..1] == [Reward];
    hide ConnectTxs, SpendInputs;
  }

  // A block of one of the two heights and hashes let off BIP 30 connects over a record that is still unspent;
  // disconnecting it does not bring that record back.
  lemma LetOffBlockLoses()
    ensures exists ctx: Context, u: Utxo, b: Block ::
              && ctx.nHeight > 0 && !EnforceBIP30(ctx) && Canonical(u) && ConnectBlock(Lenient, ctx, u, b).Some?
              && var c := ConnectBlock(Lenient, ctx, u, b).value;
              var back := DisconnectBlock(c.utxo, b, ctx.nHeight, StoredBlockUndo(c.vtxundo));
              back.Some? ==> !Faded(back.value.utxo, u)
  {
    var ctx := Context(0x00000000000a4d0a398161ffc163c503763b1f4360639393e0e4c8e300e0caec, 10, 91842);
    var b := Block(20, 0, [Reward]);
    var u := map[5 := OneRecord(1, 'S')[1]];
    BlockIsChecked();
    RewardConnects(ctx, 0, u);
    assert [Reward][..0] == [];
    assert !ReplacesNothing(Lenient, ctx, 0, u, [Reward]);
    assert ConnectBlock(Lenient, ctx, u, b).Some?;
    DisconnectRestoresIff(Lenient, ctx, u, b);
  }

  // A transaction of shares spends an output of the other unit. The block connects, books nothing for that
  // unit, and takes the output out of its total.
  lemma MixedUnitsMisbooked()
    ensures var u := OneRecord(1, 'B');
            var (ctx, b) := (Context(20, 10, 2), Block(20, 0, [Reward, Spender]));
            && ConnectBlock(Lenient, ctx, u, b).Some?
            && var c := ConnectBlock(Lenient, ctx, u, b).value;
            && Amount(c.valueOut, 'B') - Amount(c.valueIn, 'B') == 0
            && Total(c.utxo, 'B') - Total(u, 'B') == -COIN
  {
    var u := OneRecord(1, 'B');
    SpendingBlock(1, 'B');
    var five, six := CoinsOf(Reward, 2), CoinsOf(Spender, 2);
    TotalUpdate(map[], 'B', 1, u[1]);
    assert map[][1 := u[1]] == u;
    TotalUpdate(map[], 'B', 5, five);
    TotalUpdate(map[5 := five], 'B', 6, six);
    assert map[5 := five][6 := six] == map[5 := five, 6 := six];
    assert [Payment][..0] == [] && SumLive([]) == 0;
    assert SumLive([Payment]) == COIN && Share(u[1], 'B') == COIN && Share(five, 'B') == 0 == Share(six, 'B');
    assert Total(map[], 'B') == 0;
    hide Total, Share;
  }

  // ---------- a block template that does not connect ----------

  const Stake := Tx(7, 1, 0, [TxIn(OutPoint(1, 0), [])], [TxOut(0, []), Payment], 'S')
  const Mining := Policy(Lenient, 10, 2, (tx: Tx) => tx.Spends(), 0, None, 2000)

  // The same input as the spender's, by a coinstake.
  lemma StakePasses(u: Utxo)
    requires 1 in u && u[1] == OneRecord(1, 'S')[1]
    ensures HaveInputs(u, Stake.vin) && SumIn(u, Stake.vin) == COIN
    ensures CheckInputs(Lenient, 10, 1, u, Stake, true) && SigOpsWith(Lenient, BIP16_SWITCH_TIME, u, 0, Stake) == Some(0)
    ensures UpdateCoins(u, Stake, 2).Some?
  {
    assert Stake.vin[..1] == Stake.vin && Stake.vin[..0] == [];
    assert SumIn(u, []) == 0 && SpendAll(u, []) == Some((u, []));
    assert SumIn(u, Stake.vin) == COIN;
    NoSigOps(u, Stake, 1);
    OneOutput(TxOut(0, []));
    assert Stake.vout[..1] == [TxOut(0, [])];
    assert CheckInput(Lenient, 1, u, Stake, 0);
    assert Stake.ValueOut() == COIN;
    assert CheckFee(Lenient, 10, Stake, COIN);
  }

  lemma HeadPasses()
    ensures HeadConnects(Mining, Context(20, 10, 2), OneRecord(1, 'S'), [Reward, Stake])
  {
    var ctx, u := Context(20, 10, 2), OneRecord(1, 'S');
    RewardConnects(ctx, BIP16_SWITCH_TIME, u);
    StakePasses(u[5 := CoinsOf(Reward, 2)]);
    assert [Reward, Stake][..1] == [Reward];
    hide CheckInputs, SigOpsWith, UpdateCoins, SumIn, HaveInputs;
    assert Stake.Spends() && !Stake.IsCoinBase();
    assert ConnectTx(Lenient, ctx, BIP16_SWITCH_TIME, Connected(u[5 := CoinsOf(Reward, 2)], [], 0, map[], map['S' := 0]), Stake).Some?;
  }

  lemma {:induction false} NoSigOps(u: Utxo, tx: Tx, k: nat)
    requires HaveInputs(u, tx.vin) && k <= |tx.vin|
    ensures P2SHSigOps(Lenient, u, tx, k) == 0
  {
    if k > 0 { NoSigOps(u, tx, k - 1); }
  }

  lemma SpenderIsPoolTx()
    ensures PoolTx(Spender, 6, Mining) && DistinctInputs(Spender.vin)
  {
    Checked(Spender);
    hide CheckTransaction;
  }

  lemma SpenderMayFollow()
    ensures MayFollow(Mining, OneRecord(1, 'S'), [], Spender) && ViewAfter(Mining, OneRecord(1, 'S'), []) == Some(OneRecord(1, 'S'))
    ensures Acceptable(Mining, OneRecord(1, 'S'), Spender) && Mining.P2SH(Spender, OneRecord(1, 'S')) == 0
  {
    SpenderPasses(OneRecord(1, 'S'), 1, 'S');
    OneOutput(Payment);
    NoSigOps(OneRecord(1, 'S'), Spender, 1);
    hide CheckInputs, SumIn, HaveInputs;
  }

  // In any pool that has the spender it is placed when it is the first to be tried.
  lemma SpenderIsPlaced(mapTx: map<Hash, Tx>)
    requires 6 in mapTx && mapTx[6] == Spender
    ensures Tried(mapTx, Mining, OneRecord(1, 'S'), [6]) == [Spender]
    ensures ViewAfter(Mining, OneRecord(1, 'S'), [Spender]).Some? && TotalSigOps(Mining, OneRecord(1, 'S'), [Spender]) == 100
  {
    var u := OneRecord(1, 'S');
    SpenderIsPoolTx();
    SpenderMayFollow();
    AcceptableAdds(Mining, u, Spender, 6);
    hide CheckInputs, UpdateCoins, SumIn, HaveInputs, CheckTransaction, MayFollow, Acceptable, PoolTx;
    assert [6][..0] == [] && Tried(mapTx, Mining, u, []) == [];
    OneMore(Mining, u, [], u, Spender);
    assert [] + [Spender] == [Spender];
  }

  // The pool holds one transaction, and it spends what the coinstake spends. It is chosen, and the block
  // of coinbase, coinstake and this transaction does not connect.
  lemma TemplateFails()
    ensures var (u, b) := (OneRecord(1, 'S'), Block(20, 0, [Reward, Stake, Spender]));
            && PoolOk(map[6 := Spender], Mining) && Tried(map[6 := Spender], Mining, u, [6]) == [Spender]
            && HeadConnects(Mining, Context(20, 10, 2), u, [Reward, Stake])
            && !JustCheck(Lenient, Context(20, 10, 2), u, b)
  {
    var ctx, u, b := Context(20, 10, 2), OneRecord(1, 'S'), Block(20, 0, [Reward, Stake, Spender]);
    HeadPasses();
    SpenderIsPoolTx();
    SpenderIsPlaced(map[6 := Spender]);
    hide HeadConnects, JustCheck, ViewAfter, TotalSigOps, Tried, CheckTransaction;
    assert b.vtx == [Reward, Stake] + [Spender];
    TemplateConnectsIff(Mining, ctx, u, b, [Reward, Stake], [Spender]);
    assert !AvoidsAll([Reward, Stake], OutPoint(1, 0)) by { assert Stake.vin[0].prevout == OutPoint(1, 0) && [Reward, Stake][1] == Stake; }
    assert [Spender][0].vin[0].prevout == OutPoint(1, 0);
  }

  // ---------- a pool on which a freed entry is met ----------

  // Waits for the spender, and then misses an input.
  const Child := Tx(2, 1, 0, [TxIn(OutPoint(6, 0), []), TxIn(OutPoint(3, 0), [])], [Payment], 'S')
  const Pool: map<Hash, Tx> := map[6 := Spender, 2 := Child]

  lemma PoolIsOk()
    ensures PoolOk(Pool, Mining)
  {
    Checked(Spender);
    OneOutput(Payment);
    forall i | 0 <= i <= 1 ensures MoneyRange(SumOut(Child.vout[..i])) { assert Child.vout[..i] == if i == 0 then [] else [Payment]; }
    assert CheckOutput(Lenient, Child, Payment);
    assert CheckTransaction(Lenient, Child);
    hide CheckTransaction;
  }

  lemma ChildDangles()
    ensures Dangles(Pool, Mining, OneRecord(1, 'S'), 2) && 6 in Entered(Child, Pool, OneRecord(1, 'S'))
    ensures Candidate(Pool, Mining, OneRecord(1, 'S'), 6) && Awaited(Spender, OneRecord(1, 'S')) == {}
  {
    var view := OneRecord(1, 'S');
    SeenIs(Child, Pool, view, 0, 1);
    assert Child.vin[0].prevout.hash in AwaitedBy(Child, view, 1);
    SeenIs(Spender, Pool, view, 0, 1);
  }

  lemma OneOf(s: seq<Hash>, h: Hash)
    requires Unique(s) && h in s && forall x :: x in s ==> x == h
    ensures s == [h]
  {
    assert s[0] in s && s[|s| - 1] in s;
  }

  // The child is no candidate, so nothing but the spender is handed out, and it is placed.
  lemma OnlySpender(order: seq<Hash>)
    requires HandedOut(Pool, Mining, OneRecord(1, 'S'), order) && 6 in order
    ensures Spender in Tried(Pool, Mining, OneRecord(1, 'S'), order)
  {
    ChildDangles();
    hide Missing, Awaited, Entered, Tried, Ids, Unique;
    OneOf(order, 6);
    SpenderIsPlaced(Pool);
  }

  // Whatever the order: the spender is placed, and its freed dependent is met.
  lemma EveryRunMeetsFreed(order: seq<Hash>, vtx: seq<Tx>)
    requires HandedOut(Pool, Mining, OneRecord(1, 'S'), order) && vtx == Tried(Pool, Mining, Canon(OneRecord(1, 'S')), order)
    requires !ReachesFreed(Pool, Mining, OneRecord(1, 'S'), Ids(vtx)) ==> Exhausted(Pool, Mining, OneRecord(1, 'S'), order, vtx)
    ensures PoolOk(Pool, Mining) && ReachesFreed(Pool, Mining, OneRecord(1, 'S'), Ids(vtx))
  {
    var view := OneRecord(1, 'S');
    assert Canon(view) == view;
    hide PoolOk, Entered, Awaited, Tried, Canon, Dangles, Candidate, HandedOut, OneRecord;
    PoolIsOk();
    ChildDangles();
    if 6 in order {
      OnlySpender(order);
      assert FreedUnder(Pool, Mining, view, 6) && Spender in vtx;
    }
  }
}
