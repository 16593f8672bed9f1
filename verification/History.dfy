/** What a replayed chain leaves unspent, read off its blocks: the outputs created and not spent since. */
module History {
  import opened Ledger
  import opened Blocks
  import opened CoinsView
  import opened BlockTree

  // A transaction at place k of a block of height nHeight.
  datatype Event = Event(tx: Tx, nHeight: nat, k: nat)

  function Events(vtx: seq<Tx>, nHeight: nat): seq<Event> {
    if vtx == [] then [] else Events(vtx[..|vtx| - 1], nHeight) + [Event(vtx[|vtx| - 1], nHeight, |vtx| - 1)]
  }

  // All transactions of the chain in order, but for those of genesis, which are never connected.
  ghost function ChainEvents(g: Hash, b: BlockIndex?): seq<Event>
    requires b != null ==> InTree(g, b)
    decreases Height(b) + 1
  {
    if b == null || b.pprev == null then [] else ChainEvents(g, b.pprev) + Events(b.block.vtx, b.nHeight)
  }

  // The transaction spends o, or has its id.
  ghost predicate Touches(tx: Tx, o: OutPoint) { tx.hash == o.hash || (tx.Spends() && !Avoids(tx.vin, o)) }

  // Event k has created o, and nothing has touched it since.
  ghost predicate Live(es: seq<Event>, o: OutPoint, k: int) {
    && 0 <= k < |es| && es[k].tx.hash == o.hash && o.n < |es[k].tx.vout|
    && forall j :: k < j < |es| ==> !Touches(es[j].tx, o)
  }

  ghost predicate SomeLive(es: seq<Event>, o: OutPoint) { exists k :: Live(es, o, k) }

  // The record says of its outputs where they come from: height, whether the transaction was the first of its
  // block or a coinstake, its time, unit and version.
  ghost predicate Describes(e: Event, c: Coins, o: OutPoint) {
    && o.n < |c.vout| && o.n < |e.tx.vout| && c.vout[o.n] == e.tx.vout[o.n]
    && c.nHeight == e.nHeight && (c.fCoinBase <==> e.k == 0) && (c.fCoinStake <==> e.tx.IsCoinStake())
    && c.nTime == e.tx.nTime && c.cUnit == e.tx.cUnit && c.nVersion == e.tx.nVersion
  }

  ghost predicate TellsOf(u: Utxo, es: seq<Event>, o: OutPoint) {
    && (Unspent(u, o) <==> SomeLive(es, o))
    && forall k :: Live(es, o, k) ==> Unspent(u, o) && Describes(es[k], u[o.hash], o)
  }

  ghost predicate Tells(u: Utxo, es: seq<Event>) { forall o :: TellsOf(u, es, o) }

  // ---------- one transaction ----------

  lemma LiveNext(es: seq<Event>, e: Event, o: OutPoint, k: int)
    ensures Live(es + [e], o, k) <==> if k == |es| then e.tx.hash == o.hash && o.n < |e.tx.vout| else Live(es, o, k) && !Touches(e.tx, o)
  {
    var all := es + [e];
    if 0 <= k < |es| { assert all[k] == es[k] && all[|es|] == e; }
    if Live(all, o, k) && k != |es| { assert forall j :: k < j < |es| ==> all[j] == es[j]; }
  }

  lemma {:induction false} SomeLiveNext(es: seq<Event>, e: Event, o: OutPoint)
    ensures SomeLive(es + [e], o) <==> if Touches(e.tx, o) then e.tx.hash == o.hash && o.n < |e.tx.vout| else SomeLive(es, o)
  {
    hide Live, Touches;
    assert Touches(e.tx, o) || e.tx.hash != o.hash by { assert e.tx.hash == o.hash ==> Touches(e.tx, o) by { TouchesOwn(e.tx, o); } }
    LiveNext(es, e, o, |es|);
    if k :| Live(es + [e], o, k) { LiveNext(es, e, o, k); }
    if k :| Live(es, o, k) { LiveNext(es, e, o, k); LiveIsEvent(es, o, k); }
  }

  lemma TouchesOwn(tx: Tx, o: OutPoint)
    ensures tx.hash == o.hash ==> Touches(tx, o)
  {}

  lemma LiveIsEvent(es: seq<Event>, o: OutPoint, k: int)
    requires Live(es, o, k)
    ensures 0 <= k < |es|
  {}

  lemma {:induction false} TellsNext(u: Utxo, es: seq<Event>, e: Event)
    requires Canonical(u) && ProperOutputs(e.tx) && UpdateCoins(u, e.tx, e.nHeight).Some? && (e.tx.IsCoinBase() <==> e.k == 0)
    requires Tells(u, es)
    ensures Tells(UpdateCoins(u, e.tx, e.nHeight).value.0, es + [e])
  {
    forall o ensures TellsOf(UpdateCoins(u, e.tx, e.nHeight).value.0, es + [e], o) { TellsNextOf(u, es, e, o); }
  }

  lemma {:induction false} TellsNextOf(u: Utxo, es: seq<Event>, e: Event, o: OutPoint)
    requires Canonical(u) && ProperOutputs(e.tx) && UpdateCoins(u, e.tx, e.nHeight).Some? && (e.tx.IsCoinBase() <==> e.k == 0)
    requires TellsOf(u, es, o)
    ensures TellsOf(UpdateCoins(u, e.tx, e.nHeight).value.0, es + [e], o)
  {
    UpdateCoinsMeaning(u, e.tx, e.nHeight, o);
    SomeLiveNext(es, e, o);
    hide UpdateCoins, Live, SomeLive, Canonical, Avoids, ProperOutputs;
    var v := UpdateCoins(u, e.tx, e.nHeight).value.0;
    forall k | Live(es + [e], o, k) ensures Unspent(v, o) && Describes((es + [e])[k], v[o.hash], o) {
      LiveNext(es, e, o, k);
      LiveIsEvent(es + [e], o, k);
      if k < |es| { assert Record(v, o) == Record(u, o); }
    }
  }

  // ---------- a block, and a chain ----------

  lemma {:induction false} TellsBlock(r: Rules, ctx: Context, nTime: nat, u: Utxo, es: seq<Event>, vtx: seq<Tx>)
    requires ctx.nHeight > 0 && Canonical(u) && ProperTxs(vtx) && ConnectTxs(r, ctx, nTime, u, vtx).Some?
    requires Tells(u, es)
    ensures Tells(ConnectTxs(r, ctx, nTime, u, vtx).value.utxo, es + Events(vtx, ctx.nHeight))
  {
    hide ConnectTx, Tells, Canonical, ProperOutputs;
    if vtx != [] {
      var n := |vtx| - 1;
      ConnectTxsKeeps(r, ctx, nTime, u, vtx[..n]);
      TellsBlock(r, ctx, nTime, u, es, vtx[..n]);
      var acc := ConnectTxs(r, ctx, nTime, u, vtx[..n]).value;
      ConnectTxShape(r, ctx, nTime, acc, vtx[n]);
      TellsNext(acc.utxo, es + Events(vtx[..n], ctx.nHeight), Event(vtx[n], ctx.nHeight, n));
      assert es + Events(vtx, ctx.nHeight) == es + Events(vtx[..n], ctx.nHeight) + [Event(vtx[n], ctx.nHeight, n)];
    } else {
      assert es + [] == es;
    }
  }

  lemma {:induction false} TellsChain(r: Rules, g: Hash, b: BlockIndex?)
    requires b != null ==> InTree(g, b)
    requires Replay(r, g, b).Some?
    ensures Tells(Replay(r, g, b).value, ChainEvents(g, b))
    decreases Height(b) + 1
  {
    hide Tells, ConnectTxs, Canonical, ProperTxs;
    if b != null && b.pprev != null {
      TellsChain(r, g, b.pprev);
      ReplayIsCanonical(r, g, b.pprev);
      CheckBlockIsProper(r, b.block);
      TellsBlock(r, b.Ctx(), b.block.nTime, Replay(r, g, b.pprev).value, ChainEvents(g, b.pprev), b.block.vtx);
    } else {
      NothingTold();
    }
  }

  lemma NothingTold()
    ensures Tells(map[], [])
  {
    forall o ensures TellsOf(map[], [], o) { assert !SomeLive([], o); }
  }

  // The coins of a replayed chain are exactly the outputs that its transactions created and none after them spent
  // or replaced, and each is recorded with the place it comes from.
  lemma CoinsAreUnspentOutputs(r: Rules, g: Hash, b: BlockIndex?, o: OutPoint)
    requires b != null ==> InTree(g, b)
    requires Replay(r, g, b).Some?
    ensures var (u, es) := (Replay(r, g, b).value, ChainEvents(g, b));
            && (Unspent(u, o) <==> exists k :: Live(es, o, k))
            && forall k :: Live(es, o, k) ==>
                 && Unspent(u, o) && u[o.hash].vout[o.n] == es[k].tx.vout[o.n] && u[o.hash].nHeight == es[k].nHeight
                 && (u[o.hash].fCoinBase <==> es[k].k == 0) && (u[o.hash].fCoinStake <==> es[k].tx.IsCoinStake())
                 && u[o.hash].nTime == es[k].tx.nTime && u[o.hash].cUnit == es[k].tx.cUnit && u[o.hash].nVersion == es[k].tx.nVersion
  {
    TellsChain(r, g, b);
    hide Replay, ChainEvents, Live;
    assert TellsOf(Replay(r, g, b).value, ChainEvents(g, b), o);
  }

  lemma {:induction false} EventsAre(vtx: seq<Tx>, nHeight: nat)
    ensures |Events(vtx, nHeight)| == |vtx| && forall i :: 0 <= i < |vtx| ==> Events(vtx, nHeight)[i] == Event(vtx[i], nHeight, i)
  {
    if vtx != [] { EventsAre(vtx[..|vtx| - 1], nHeight); }
  }

  // a before c on a chain.
  predicate Earlier(a: Event, c: Event) { a.nHeight < c.nHeight || (a.nHeight == c.nHeight && a.k < c.k) }

  // The events of a chain are the transactions of its blocks above genesis, each at its place, in their order.
  lemma {:induction false} EventsOfChain(g: Hash, b: BlockIndex?)
    requires b != null ==> InTree(g, b)
    ensures var es := ChainEvents(g, b);
            && (forall i :: 0 <= i < |es| ==> 0 < es[i].nHeight <= Height(b) && EventAt(g, b, es[i]))
            && (forall i, j :: 0 <= i < j < |es| ==> Earlier(es[i], es[j]))
            && forall e: Event :: 0 < e.nHeight <= Height(b) && EventAt(g, b, e) ==> e in es
    decreases Height(b) + 1
  {
    if b != null && b.pprev != null {
      EventsOfChain(g, b.pprev);
      EventsAre(b.block.vtx, b.nHeight);
      var was, now := ChainEvents(g, b.pprev), Events(b.block.vtx, b.nHeight);
      forall e: Event | 0 < e.nHeight < b.nHeight ensures EventAt(g, b, e) <==> EventAt(g, b.pprev, e) { EventBelow(g, b, e); }
      forall k | 0 <= k < |now| ensures EventAt(g, b, now[k]) {}
      forall e: Event | e.nHeight == b.nHeight && EventAt(g, b, e) ensures e in now { assert now[e.k] == e; }
      hide EventAt, Events;
    }
  }

  // The event is transaction k of the block at that height of the chain.
  ghost predicate EventAt(g: Hash, b: BlockIndex?, e: Event)
    requires b != null ==> InTree(g, b)
    requires 0 < e.nHeight <= Height(b)
  {
    AncestorHeight(g, b, e.nHeight);
    var a := Ancestor(g, b, e.nHeight);
    e.k < |a.block.vtx| && e.tx == a.block.vtx[e.k]
  }

  lemma EventBelow(g: Hash, b: BlockIndex, e: Event)
    requires InTree(g, b) && 0 < e.nHeight < b.nHeight
    ensures EventAt(g, b, e) <==> EventAt(g, b.pprev, e)
  {
    assert Ancestor(g, b, e.nHeight) == Ancestor(g, b.pprev, e.nHeight);
  }
}
