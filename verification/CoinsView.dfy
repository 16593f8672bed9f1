/** CCoins and the layered coin views, with their state changed in place, proved against the
    transitions of Ledger and Blocks. */
module CoinsView {
  import opened Ledger
  import opened Blocks
  import opened Versions

  // ---------- CCoins ----------

  // CCoins::Cleanup
  method Cleanup(vout: seq<TxOut>) returns (r: seq<TxOut>)
    ensures r == Trim(vout)
  {
    r := vout;
    while |r| > 0 && r[|r| - 1].IsNull()
      invariant Trim(r) == Trim(vout)
    {
      r := r[..|r| - 1];
    }
  }

  // CCoins::Spend: refused for an output that is not there, otherwise the output becomes null,
  // trailing nulls go, and the undo record carries the metadata only for the last output.
  method Spend(c: Coins, n: nat) returns (ok: bool, d: Coins, undo: TxInUndo)
    ensures ok <==> c.IsAvailable(n)
    ensures !ok ==> d == c
    ensures ok ==> d == Spent(c, n)
    ensures ok ==> undo == if d.vout == [] then LastUndo(c.vout[n], c) else PlainUndo(c.vout[n])
  {
    ok, d, undo := false, c, PlainUndo(NullOut);
    if n >= |c.vout| || c.vout[n].IsNull() { return; }
    undo := PlainUndo(c.vout[n]);
    var vout := Cleanup(c.vout[n := NullOut]);
    d := c.(vout := vout);
    if |d.vout| == 0 {
      undo := undo.(nHeight := d.nHeight, fCoinBase := d.fCoinBase, nVersion := d.nVersion,
                    fCoinStake := d.fCoinStake, nTime := d.nTime, cUnit := d.cUnit);
    }
    ok := true;
  }

  // ---------- reading a view canonically ----------

  // A view may hold pruned records; they mean the same as no record.
  function Canon(view: map<Hash, Coins>): Utxo {
    map h | h in view && view[h].vout != [] :: view[h]
  }

  ghost predicate ViewOk(view: map<Hash, Coins>) {
    forall h {:trigger view[h]} :: h in view ==> Trimmed(view[h].vout) && (view[h].vout != [] ==> view[h].nHeight > 0)
  }

  lemma CanonIsCanonical(view: map<Hash, Coins>)
    requires ViewOk(view)
    ensures Canonical(Canon(view))
  {}

  lemma PrunedIsEmpty(c: Coins)
    requires Trimmed(c.vout)
    ensures c.IsPruned() <==> c.vout == []
  {}

  lemma CanonUpdate(view: map<Hash, Coins>, h: Hash, c: Coins)
    ensures Canon(view[h := c]) == if c.vout == [] then Canon(view) - {h} else Canon(view)[h := c]
  {}

  // ---------- the block index entries a view points at ----------

  class BlockIndex {
    const pprev: BlockIndex?
    const nHeight: nat
    const block: Block                              // what ReadFromDisk finds for this entry
    var pnext: BlockIndex?
    var undo: Option<seq<seq<TxInUndo>>>            // what is stored at nUndoPos, if anything
    var mapMoneySupply: Amounts

    constructor (pprev: BlockIndex?, nHeight: nat, block: Block)
      ensures this.pprev == pprev && this.nHeight == nHeight && this.block == block
      ensures pnext == null && undo == None && mapMoneySupply == map[]
    {
      this.pprev, this.nHeight, this.block := pprev, nHeight, block;
      pnext, undo, mapMoneySupply := null, None, map[];
    }

    predicate IsInMainChain(pindexBest: BlockIndex?)
      reads this`pnext
    {
      pnext != null || this == pindexBest
    }

    function Ctx(): Context
      requires pprev != null
    {
      Context(block.hash, pprev.block.hash, nHeight)
    }
  }

  // ---------- the views ----------

  // The entries of was, with those of m whose key is in done written over them.
  function Overlay(was: map<Hash, Coins>, m: map<Hash, Coins>, done: set<Hash>): map<Hash, Coins> {
    was + map h | h in m && h in done :: m[h]
  }

  // The same, for a store that erases an entry instead of writing a pruned record, and keeps a record in
  // the form that reading it gives.
  function Stored(was: map<Hash, Coins>, m: map<Hash, Coins>, done: set<Hash>): map<Hash, Coins> {
    map h | h in Overlay(was, m, done) && (h in m && h in done ==> m[h].vout != []) ::
      if h in m && h in done then StoredCoins(m[h]) else was[h]
  }

  // What a database that was only ever written to holds.
  ghost predicate Written(coins: map<Hash, Coins>) { forall h {:trigger coins[h]} :: h in coins ==> coins[h].nVersion >= 0 }

  lemma OverlayStep(was: map<Hash, Coins>, m: map<Hash, Coins>, done: set<Hash>, h: Hash)
    requires h in m && h !in done
    ensures Overlay(was, m, done + {h}) == Overlay(was, m, done)[h := m[h]]
  {
    assert (map k | k in m && k in done + {h} :: m[k]) == (map k | k in m && k in done :: m[k])[h := m[h]];
  }

  // What the store has under k, entry by entry.
  lemma StoredAt(was: map<Hash, Coins>, m: map<Hash, Coins>, done: set<Hash>, k: Hash)
    ensures var s := Stored(was, m, done);
            if k in m && k in done then (k in s <==> m[k].vout != []) && (k in s ==> s[k] == StoredCoins(m[k]))
            else (k in s <==> k in was) && (k in s ==> s[k] == was[k])
  {}

  lemma StoredStep(was: map<Hash, Coins>, m: map<Hash, Coins>, done: set<Hash>, h: Hash)
    requires h in m && h !in done
    ensures Stored(was, m, done + {h})
         == if m[h].vout == [] then Stored(was, m, done) - {h} else Stored(was, m, done)[h := StoredCoins(m[h])]
  {
    hide Stored, StoredCoins;
    var s, s' := Stored(was, m, done), Stored(was, m, done + {h});
    StoredAt(was, m, done + {h}, h);
    forall k ensures k != h ==> (k in s' <==> k in s) && (k in s ==> s'[k] == s[k]) {
      StoredAt(was, m, done, k);
      StoredAt(was, m, done + {h}, k);
    }
  }

  lemma StoredCanon(was: map<Hash, Coins>, m: map<Hash, Coins>)
    requires ViewOk(was + m)
    ensures ViewOk(Stored(was, m, m.Keys)) && Faded(Canon(Stored(was, m, m.Keys)), Canon(was + m))
    ensures Written(was) ==> Written(Stored(was, m, m.Keys)) && Canon(Stored(was, m, m.Keys)) == StoredUtxo(Canon(was + m))
  {
    hide Stored;
    var s, w := Stored(was, m, m.Keys), was + m;
    forall k
      ensures k in Canon(s) <==> k in Canon(w)
      ensures k in s ==> k in w && FadedCoins(s[k], w[k]) && (Written(was) ==> s[k].nVersion >= 0)
    {
      StoredAt(was, m, m.Keys, k);
    }
    hide Trimmed;
    assert Faded(Canon(s), Canon(w));
    if Written(was) { AllStored(Canon(s), Canon(w)); }
  }

  lemma MergeAssociates(a: map<Hash, Coins>, b: map<Hash, Coins>, c: map<Hash, Coins>)
    ensures (a + b) + c == a + (b + c)
  {}

  lemma CacheFill(below: map<Hash, Coins>, cache: map<Hash, Coins>, h: Hash)
    requires h in below && h !in cache
    ensures below + cache[h := below[h]] == below + cache
  {}

  // The loop of CCoinsViewCache::BatchWrite, on the cache it fills.
  method WriteOver(cache: map<Hash, Coins>, mapCoins: map<Hash, Coins>) returns (r: map<Hash, Coins>)
    ensures r == cache + mapCoins
  {
    r := cache;
    var todo := mapCoins.Keys;
    assert mapCoins.Keys - todo == {} && Overlay(cache, mapCoins, {}) == cache;
    while todo != {}
      invariant todo <= mapCoins.Keys
      invariant r == Overlay(cache, mapCoins, mapCoins.Keys - todo)
      decreases |todo|
    {
      var h :| h in todo;
      OverlayStep(cache, mapCoins, mapCoins.Keys - todo, h);
      assert mapCoins.Keys - (todo - {h}) == mapCoins.Keys - todo + {h};
      todo := todo - {h};
      r := r[h := mapCoins[h]];
    }
    assert mapCoins.Keys - todo == mapCoins.Keys;
  }

  // CCoinsViewDB: a batch write erases the records that are pruned.
  class CoinsViewDB {
    var coins: map<Hash, Coins>
    var best: BlockIndex?

    constructor ()
      ensures coins == map[] && best == null
    {
      coins, best := map[], null;
    }

    method BatchWrite(mapCoins: map<Hash, Coins>, pindex: BlockIndex?)
      requires ViewOk(mapCoins)
      modifies this`coins, this`best
      ensures coins == Stored(old(coins), mapCoins, mapCoins.Keys)
      ensures best == if pindex != null then pindex else old(best)
    {
      var todo := mapCoins.Keys;
      ghost var was := coins;
      assert mapCoins.Keys - todo == {} && Stored(was, mapCoins, {}) == was;
      while todo != {}
        invariant todo <= mapCoins.Keys && best == old(best)
        invariant coins == Stored(was, mapCoins, mapCoins.Keys - todo)
        decreases |todo|
      {
        var h :| h in todo;
        StoredStep(was, mapCoins, mapCoins.Keys - todo, h);
        assert mapCoins.Keys - (todo - {h}) == mapCoins.Keys - todo + {h};
        todo := todo - {h};
        PrunedIsEmpty(mapCoins[h]);
        if mapCoins[h].IsPruned() { coins := coins - {h}; } else { coins := coins[h := StoredCoins(mapCoins[h])]; }
      }
      assert mapCoins.Keys - todo == mapCoins.Keys;
      if pindex != null { best := pindex; }
    }
  }

  // CCoinsViewCache over another cache, or over the database.
  class CoinsViewCache {
    const base: CoinsViewCache?
    const db: CoinsViewDB
    var cacheCoins: map<Hash, Ledger.Coins>
    var pindexTip: BlockIndex?
    ghost const Repr: set<CoinsViewCache>

    // The layers are fixed when a view is made.
    ghost predicate Layered()
      decreases Repr
    {
      && this in Repr
      && (base == null ==> Repr == {this})
      && (base != null ==> base in Repr && this !in base.Repr && Repr == base.Repr + {this}
                           && base.db == db && base.Layered())
    }

    // What a lookup through this view and everything under it finds.
    ghost function View(): map<Hash, Ledger.Coins>
      requires Layered()
      reads Repr`cacheCoins, db`coins
      decreases Repr
    {
      if base == null then db.coins + cacheCoins else base.View() + cacheCoins
    }

    ghost function Best(): BlockIndex?
      requires Layered()
      reads Repr`pindexTip, db`best
      decreases Repr
    {
      if pindexTip != null then pindexTip else if base == null then db.best else base.Best()
    }

    ghost predicate Ok()
      requires Layered()
      reads Repr`cacheCoins, db`coins
    {
      ViewOk(View())
    }

    ghost function Coins(): Utxo
      requires Layered()
      reads Repr`cacheCoins, db`coins
    {
      Canon(View())
    }

    // What lookups in the view below find.
    ghost function Below(): (map<Hash, Ledger.Coins>, BlockIndex?)
      requires Layered()
      reads Repr`cacheCoins, Repr`pindexTip, db`coins, db`best
    {
      if base == null then (map[], null) else (base.View(), base.Best())
    }

    constructor OverDB(db: CoinsViewDB)
      ensures Layered() && Repr == {this} && base == null && this.db == db
      ensures View() == db.coins && Best() == db.best
    {
      base, this.db, cacheCoins, pindexTip := null, db, map[], null;
      Repr := {this};
    }

    constructor Over(base: CoinsViewCache)
      requires base.Layered()
      ensures Layered() && Repr == base.Repr + {this} && this.base == base && db == base.db
      ensures View() == base.View() && Best() == base.Best()
    {
      this.base, db, cacheCoins, pindexTip := base, base.db, map[], null;
      Repr := base.Repr + {this};
    }

    // GetCoins / FetchCoins: a hit below is copied into this cache, which no lookup can notice.
    method GetCoins(txid: Hash) returns (found: bool, coins: Ledger.Coins)
      requires Layered()
      modifies Repr`cacheCoins
      ensures View() == old(View()) && Best() == old(Best())
      ensures Below() == old(Below())
      ensures found <==> txid in View()
      ensures found ==> coins == View()[txid] && txid in cacheCoins && cacheCoins[txid] == coins
      ensures !found ==> coins == NoCoins
      decreases Repr
    {
      if txid in cacheCoins { return true, cacheCoins[txid]; }
      ghost var below := if base == null then db.coins else base.View();
      coins := NoCoins;
      if base == null {
        found := txid in db.coins;
        if found { coins := db.coins[txid]; }
      } else {
        found, coins := base.GetCoins(txid);
      }
      if found {
        CacheFill(below, cacheCoins, txid);
        cacheCoins := cacheCoins[txid := coins];
      }
    }

    method HaveCoins(txid: Hash) returns (found: bool)
      requires Layered()
      modifies Repr`cacheCoins
      ensures View() == old(View()) && Best() == old(Best())
      ensures Below() == old(Below())
      ensures found <==> txid in View()
    {
      var c;
      found, c := GetCoins(txid);
    }

    method SetCoins(txid: Hash, c: Ledger.Coins)
      requires Layered()
      modifies this`cacheCoins
      ensures View() == old(View())[txid := c] && Best() == old(Best())
      ensures Below() == old(Below())
    {
      cacheCoins := cacheCoins[txid := c];
      assert View() == old(View())[txid := c];
    }

    method GetBestBlock() returns (pindex: BlockIndex?)
      requires Layered()
      modifies Repr`pindexTip
      ensures View() == old(View()) && Best() == old(Best()) == pindex == pindexTip
      ensures Below() == old(Below())
      decreases Repr
    {
      if pindexTip == null {
        if base == null { pindexTip := db.best; }
        else {
          var below := base.GetBestBlock();
          pindexTip := below;
        }
      }
      pindex := pindexTip;
    }

    method SetBestBlock(pindex: BlockIndex)
      requires Layered()
      modifies this`pindexTip
      ensures View() == old(View()) && Best() == pindex == pindexTip
      ensures Below() == old(Below())
    {
      pindexTip := pindex;
    }

    method BatchWrite(mapCoins: map<Hash, Ledger.Coins>, pindex: BlockIndex?)
      requires Layered()
      modifies this`cacheCoins, this`pindexTip
      ensures View() == old(View()) + mapCoins && pindexTip == pindex
      ensures pindex != null ==> Best() == pindex
    {
      ghost var was, below := cacheCoins, if base == null then db.coins else base.View();
      cacheCoins := WriteOver(cacheCoins, mapCoins);
      pindexTip := pindex;
      MergeAssociates(below, was, mapCoins);
    }

    // Flush hands everything down. Lookups through this view then find what they found before, but for
    // pruned records, which the database drops, and negative versions, which it does not keep; a view below
    // now finds the same.
    method Flush()
      requires Layered() && Ok()
      modifies Repr`cacheCoins, Repr`pindexTip, db`coins, db`best
      ensures Ok() && pindexTip == old(pindexTip)
      ensures base != null ==> base.View() == View() == old(View()) && base.pindexTip == pindexTip && db.coins == old(db.coins)
      ensures pindexTip != null ==> Best() == old(Best()) && (base != null ==> base.Best() == Best())
      ensures Faded(Coins(), old(Coins()))
      ensures old(Written(db.coins)) ==> Written(db.coins) && (base == null ==> Coins() == StoredUtxo(old(Coins())))
    {
      FadedSame(Coins());
      hide Canon, Faded, Written, StoredUtxo, ViewOk;
      if base == null { FlushToDatabase(); } else { FlushToView(); }
    }

    method FlushToDatabase()
      requires Layered() && Ok() && base == null
      modifies this`cacheCoins, db`coins, db`best
      ensures Ok() && pindexTip == old(pindexTip) && (pindexTip != null ==> Best() == old(Best()))
      ensures Faded(Coins(), old(Coins()))
      ensures old(Written(db.coins)) ==> Written(db.coins) && Coins() == StoredUtxo(old(Coins()))
    {
      ghost var view := View();
      assert ViewOk(cacheCoins) by { assert forall h :: h in cacheCoins ==> view[h] == cacheCoins[h]; }
      StoredCanon(db.coins, cacheCoins);
      hide Stored, Canon, Faded, Written, StoredUtxo, ViewOk;
      db.BatchWrite(cacheCoins, pindexTip);
      cacheCoins := map[];
      assert View() == db.coins;
    }

    method FlushToView()
      requires Layered() && base != null
      modifies this`cacheCoins, base`cacheCoins, base`pindexTip
      ensures pindexTip == old(pindexTip) == base.pindexTip && base.View() == View() == old(View())
      ensures pindexTip != null ==> base.Best() == Best() == old(Best())
    {
      base.BatchWrite(cacheCoins, pindexTip);
      cacheCoins := map[];
      assert View() == base.View();
    }
  }
}
