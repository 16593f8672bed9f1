/** The memory pool: the index from outpoints to the pool transactions that spend them, and removal of
    transactions with everything that depends on them. */
module Mempool {
  import opened Basics
  import opened Ledger

  // Which input of which pool transaction.
  datatype InPoint = InPoint(hash: Hash, n: nat)

  // ---------- the index ----------

  // mapNextTx holds exactly the inputs of the pool transactions, so no two of them spend one outpoint.
  ghost predicate Exact(mapTx: map<Hash, Tx>, mapNextTx: map<OutPoint, InPoint>) {
    && (forall h :: h in mapTx ==> mapTx[h].hash == h)
    && (forall h, i :: h in mapTx && 0 <= i < |mapTx[h].vin| ==>
          mapTx[h].vin[i].prevout in mapNextTx && mapNextTx[mapTx[h].vin[i].prevout] == InPoint(h, i))
    && (forall o :: o in mapNextTx ==> At(mapTx, mapNextTx[o], o))
  }

  predicate At(mapTx: map<Hash, Tx>, p: InPoint, o: OutPoint) {
    p.hash in mapTx && p.n < |mapTx[p.hash].vin| && mapTx[p.hash].vin[p.n].prevout == o
  }

  lemma NoDoubleSpend(mapTx: map<Hash, Tx>, mapNextTx: map<OutPoint, InPoint>, g: Hash, i: nat, h: Hash, j: nat)
    requires Exact(mapTx, mapNextTx) && g in mapTx && h in mapTx && i < |mapTx[g].vin| && j < |mapTx[h].vin|
    requires mapTx[g].vin[i].prevout == mapTx[h].vin[j].prevout
    ensures g == h && i == j
  {
    assert mapNextTx[mapTx[g].vin[i].prevout] == InPoint(g, i);
  }

  // A transaction hash identifies a transaction.
  predicate Known(mapTx: map<Hash, Tx>, tx: Tx) { tx.hash in mapTx ==> mapTx[tx.hash] == tx }

  // Hashes commit to inputs, so pool transactions cannot depend on one another in a circle.
  ghost predicate Ranked(mapTx: map<Hash, Tx>, rank: Hash -> nat) {
    forall h, i :: h in mapTx && 0 <= i < |mapTx[h].vin| ==> rank(mapTx[h].vin[i].prevout.hash) < rank(h)
  }

  // tx spends one of the first nOut outputs of the transaction p.
  ghost predicate Uses(tx: Tx, p: Hash, nOut: nat) {
    exists i :: 0 <= i < |tx.vin| && tx.vin[i].prevout.hash == p && tx.vin[i].prevout.n < nOut
  }

  ghost predicate UsesAny(mapTx: map<Hash, Tx>, tx: Tx, gone: set<Hash>)
    requires gone <= mapTx.Keys
  {
    exists p :: p in gone && Uses(tx, p, |mapTx[p].vout|)
  }

  // Nothing left behind spends an output of a transaction that is gone.
  ghost predicate Closed(mapTx: map<Hash, Tx>, gone: set<Hash>)
    requires gone <= mapTx.Keys
  {
    forall h :: h in mapTx && h !in gone ==> !UsesAny(mapTx, mapTx[h], gone)
  }

  // What goes with tx: itself, what spends its outputs, and what spends outputs of what goes.
  ghost predicate Dependents(mapTx: map<Hash, Tx>, tx: Tx, nOut: nat, gone: set<Hash>)
    requires gone <= mapTx.Keys
  {
    && Closed(mapTx, gone)
    && (forall h :: h in mapTx && h !in gone ==> !Uses(mapTx[h], tx.hash, nOut))
    && forall h :: h in gone ==> h == tx.hash || Uses(mapTx[h], tx.hash, nOut) || UsesAny(mapTx, mapTx[h], gone)
  }

  ghost predicate Above(rank: Hash -> nat, h: Hash, gone: set<Hash>) { forall g :: g in gone ==> rank(g) > rank(h) }

  // The pool transactions that may depend on h.
  ghost function Higher(mapTx: map<Hash, Tx>, rank: Hash -> nat, h: Hash): set<Hash> {
    set g | g in mapTx && rank(g) > rank(h)
  }

  // ---------- erasing one transaction ----------

  function Prevouts(vin: seq<TxIn>): set<OutPoint> { set i | 0 <= i < |vin| :: vin[i].prevout }

  lemma EraseKeeps(mapTx: map<Hash, Tx>, mapNextTx: map<OutPoint, InPoint>, tx: Tx)
    requires Exact(mapTx, mapNextTx) && tx.hash in mapTx && mapTx[tx.hash] == tx
    ensures Exact(mapTx - {tx.hash}, mapNextTx - Prevouts(tx.vin))
  {
    var m, n := mapTx - {tx.hash}, mapNextTx - Prevouts(tx.vin);
    forall h, i | h in m && 0 <= i < |m[h].vin| ensures m[h].vin[i].prevout in n && n[m[h].vin[i].prevout] == InPoint(h, i) {
      var o := m[h].vin[i].prevout;
      if o in Prevouts(tx.vin) {
        var j: nat :| j < |tx.vin| && tx.vin[j].prevout == o;
        NoDoubleSpend(mapTx, mapNextTx, h, i, tx.hash, j);
      }
    }
    assert forall j :: 0 <= j < |tx.vin| ==> tx.vin[j].prevout in Prevouts(tx.vin);
    forall o | o in n ensures At(m, n[o], o) {
      assert At(mapTx, mapNextTx[o], o);
    }
  }

  lemma Smaller(mapTx: map<Hash, Tx>, rank: Hash -> nat, gone: set<Hash>)
    requires Ranked(mapTx, rank)
    ensures Ranked(mapTx - gone, rank)
  {}

  // ---------- putting removals together ----------

  lemma UsesAnySplit(mapTx: map<Hash, Tx>, tx: Tx, gone: set<Hash>, more: set<Hash>)
    requires gone <= mapTx.Keys && more <= (mapTx - gone).Keys
    ensures UsesAny(mapTx, tx, gone + more) <==> UsesAny(mapTx, tx, gone) || UsesAny(mapTx - gone, tx, more)
  {
    var m := mapTx - gone;
    if UsesAny(mapTx, tx, gone + more) {
      var p :| p in gone + more && Uses(tx, p, |mapTx[p].vout|);
      assert p in more ==> m[p] == mapTx[p];
    }
    if UsesAny(mapTx, tx, gone) {
      var p :| p in gone && Uses(tx, p, |mapTx[p].vout|);
      assert p in gone + more;
    }
    if UsesAny(m, tx, more) {
      var p :| p in more && Uses(tx, p, |m[p].vout|);
      assert p in gone + more && m[p] == mapTx[p];
    }
  }

  // First `gone` is taken out of the pool, then what goes with a spender of tx's output j.
  lemma AddSpender(mapTx: map<Hash, Tx>, tx: Tx, j: nat, gone: set<Hash>, s: Hash, more: set<Hash>)
    requires gone <= mapTx.Keys && Dependents(mapTx, tx, j, gone) && s in mapTx - gone
    requires more <= (mapTx - gone).Keys && s in more
    requires Uses(mapTx[s], tx.hash, j + 1) && Dependents(mapTx - gone, mapTx[s], |mapTx[s].vout|, more)
    requires mapTx[s].hash == s
    requires forall h :: h in mapTx - gone && Uses(mapTx[h], tx.hash, j + 1) ==> Uses(mapTx[h], tx.hash, j) || h == s
    ensures Dependents(mapTx, tx, j + 1, gone + more)
  {
    var m := mapTx - gone;
    var all := gone + more;
    forall h | h in mapTx && h !in all ensures !UsesAny(mapTx, mapTx[h], all) && !Uses(mapTx[h], tx.hash, j + 1) {
      assert h in m && m[h] == mapTx[h];
      UsesAnySplit(mapTx, mapTx[h], gone, more);
    }
    forall h | h in all ensures h == tx.hash || Uses(mapTx[h], tx.hash, j + 1) || UsesAny(mapTx, mapTx[h], all) {
      if h in gone {
        if Uses(mapTx[h], tx.hash, j) { UsesMore(mapTx[h], tx.hash, j, j + 1); }
      } else if h != s {
        assert m[h] == mapTx[h];
        if Uses(m[h], s, |mapTx[s].vout|) { assert s in more && m[s] == mapTx[s]; assert UsesAny(m, m[h], more); }
      }
      UsesAnySplit(mapTx, mapTx[h], gone, more);
    }
  }

  lemma UsesMore(tx: Tx, p: Hash, a: nat, b: nat)
    requires Uses(tx, p, a) && a <= b
    ensures Uses(tx, p, b)
  {
    var i :| 0 <= i < |tx.vin| && tx.vin[i].prevout.hash == p && tx.vin[i].prevout.n < a;
  }

  // Once tx's outputs have been gone through, tx itself follows.
  lemma AddItself(mapTx: map<Hash, Tx>, tx: Tx, gone: set<Hash>)
    requires gone <= mapTx.Keys && Dependents(mapTx, tx, |tx.vout|, gone)
    requires tx.hash in mapTx && mapTx[tx.hash] == tx
    ensures Dependents(mapTx, tx, |tx.vout|, gone + {tx.hash})
  {
    var all := gone + {tx.hash};
    forall h | h in mapTx ensures UsesAny(mapTx, mapTx[h], all) <==> UsesAny(mapTx, mapTx[h], gone) || Uses(mapTx[h], tx.hash, |tx.vout|) {
      if UsesAny(mapTx, mapTx[h], gone) { var p :| p in gone && Uses(mapTx[h], p, |mapTx[p].vout|); assert p in all; }
      if Uses(mapTx[h], tx.hash, |tx.vout|) { assert tx.hash in all; }
    }
  }

  // No pool transaction spends what tx spends.
  ghost predicate NoConflict(mapTx: map<Hash, Tx>, tx: Tx) {
    forall h, i, j :: h in mapTx && 0 <= i < |mapTx[h].vin| && 0 <= j < |tx.vin| ==> mapTx[h].vin[i].prevout != tx.vin[j].prevout
  }

  // The index finds the only spender of an output, or says that there is none.
  lemma OnlySpender(mapTx: map<Hash, Tx>, mapNextTx: map<OutPoint, InPoint>, p: Hash, j: nat)
    requires Exact(mapTx, mapNextTx)
    ensures var o := OutPoint(p, j);
            if o in mapNextTx then
              && var s := mapNextTx[o];
              && s.hash in mapTx && mapTx[s.hash].hash == s.hash && s.n < |mapTx[s.hash].vin|
              && mapTx[s.hash].vin[s.n].prevout.hash == p && Uses(mapTx[s.hash], p, j + 1)
              && forall h :: h in mapTx && Uses(mapTx[h], p, j + 1) ==> Uses(mapTx[h], p, j) || h == s.hash
            else forall h :: h in mapTx && Uses(mapTx[h], p, j + 1) ==> Uses(mapTx[h], p, j)
  {
    var o := OutPoint(p, j);
    if o in mapNextTx { assert At(mapTx, mapNextTx[o], o); }
    forall h | h in mapTx && Uses(mapTx[h], p, j + 1)
      ensures Uses(mapTx[h], p, j) || (o in mapNextTx && h == mapNextTx[o].hash)
    {
      var i :| 0 <= i < |mapTx[h].vin| && mapTx[h].vin[i].prevout.hash == p && mapTx[h].vin[i].prevout.n < j + 1;
      if mapTx[h].vin[i].prevout.n == j { assert mapTx[h].vin[i].prevout == o; }
    }
  }

  lemma NoSpender(mapTx: map<Hash, Tx>, tx: Tx, j: nat, gone: set<Hash>)
    requires gone <= mapTx.Keys && Dependents(mapTx, tx, j, gone)
    requires forall h :: h in mapTx - gone && Uses(mapTx[h], tx.hash, j + 1) ==> Uses(mapTx[h], tx.hash, j)
    ensures Dependents(mapTx, tx, j + 1, gone)
  {
    forall h | h in mapTx && h !in gone ensures !Uses(mapTx[h], tx.hash, j + 1) { assert h in mapTx - gone; }
    forall h | h in gone && Uses(mapTx[h], tx.hash, j) ensures Uses(mapTx[h], tx.hash, j + 1) { UsesMore(mapTx[h], tx.hash, j, j + 1); }
  }

  lemma NothingYet(mapTx: map<Hash, Tx>, tx: Tx)
    ensures Dependents(mapTx, tx, 0, {})
  {}

  lemma AboveMore(rank: Hash -> nat, h: Hash, gone: set<Hash>, s: Hash, more: set<Hash>)
    requires Above(rank, h, gone) && Above(rank, s, more - {s}) && rank(s) > rank(h)
    ensures Above(rank, h, gone + more)
  {}

  lemma TakeBoth(mapTx: map<Hash, Tx>, gone: set<Hash>, more: set<Hash>)
    ensures mapTx - gone - more == mapTx - (gone + more)
  {}

  // Another transaction that spends one of the first k outpoints tx spends.
  ghost predicate Conflicting(t: Tx, tx: Tx, k: nat)
    requires k <= |tx.vin|
  {
    t != tx && exists i, j :: 0 <= i < |t.vin| && 0 <= j < k && t.vin[i].prevout == tx.vin[j].prevout
  }

  // What goes because of conflicts with the first k inputs of tx: the conflicting transactions and what
  // depends on them, and nothing else.
  ghost predicate Swept(mapTx: map<Hash, Tx>, tx: Tx, k: nat, gone: set<Hash>)
    requires gone <= mapTx.Keys && k <= |tx.vin|
  {
    && Closed(mapTx, gone)
    && (forall h :: h in mapTx && h !in gone ==> !Conflicting(mapTx[h], tx, k))
    && forall h :: h in gone ==> Conflicting(mapTx[h], tx, k) || UsesAny(mapTx, mapTx[h], gone)
  }

  // Which transactions conflict with tx only from its k-th input on.
  ghost predicate NewConflicts(mapTx: map<Hash, Tx>, tx: Tx, k: nat, s: set<Hash>)
    requires k < |tx.vin|
  {
    forall h :: h in mapTx && Conflicting(mapTx[h], tx, k + 1) ==> Conflicting(mapTx[h], tx, k) || h in s
  }

  // The only pool transaction that spends the k-th outpoint of tx is the only one that may conflict there.
  lemma SpenderConflicts(mapTx: map<Hash, Tx>, mapNextTx: map<OutPoint, InPoint>, tx: Tx, k: nat)
    requires Exact(mapTx, mapNextTx) && k < |tx.vin|
    ensures var o := tx.vin[k].prevout;
            && (o in mapNextTx ==> mapNextTx[o].hash in mapTx && mapTx[mapNextTx[o].hash].hash == mapNextTx[o].hash)
            && if o in mapNextTx && mapTx[mapNextTx[o].hash] != tx then
                 && Conflicting(mapTx[mapNextTx[o].hash], tx, k + 1)
                 && NewConflicts(mapTx, tx, k, {mapNextTx[o].hash})
               else NewConflicts(mapTx, tx, k, {})
  {
    var o := tx.vin[k].prevout;
    if o in mapNextTx { assert At(mapTx, mapNextTx[o], o); }
    forall h | h in mapTx && Conflicting(mapTx[h], tx, k + 1)
      ensures Conflicting(mapTx[h], tx, k) || (o in mapNextTx && h == mapNextTx[o].hash)
    {
      var i, j :| 0 <= i < |mapTx[h].vin| && 0 <= j < k + 1 && mapTx[h].vin[i].prevout == tx.vin[j].prevout;
    }
  }

  lemma {:induction false} SweepMore(mapTx: map<Hash, Tx>, tx: Tx, k: nat, gone: set<Hash>, s: Tx, more: set<Hash>)
    requires gone <= mapTx.Keys && k < |tx.vin| && Swept(mapTx, tx, k, gone)
    requires more <= (mapTx - gone).Keys && s.hash in more && mapTx[s.hash] == s && Dependents(mapTx - gone, s, |s.vout|, more)
    requires Conflicting(s, tx, k + 1)
    requires NewConflicts(mapTx - gone, tx, k, {s.hash})
    ensures Swept(mapTx, tx, k + 1, gone + more)
  {
    var m := mapTx - gone;
    var all := gone + more;
    forall h | h in mapTx && h !in all ensures !UsesAny(mapTx, mapTx[h], all) && !Conflicting(mapTx[h], tx, k + 1) {
      assert h in m && m[h] == mapTx[h];
      UsesAnySplit(mapTx, mapTx[h], gone, more);
    }
    forall h | h in all ensures Conflicting(mapTx[h], tx, k + 1) || UsesAny(mapTx, mapTx[h], all) {
      UsesAnySplit(mapTx, mapTx[h], gone, more);
      if h in gone {
        ConflictMore(mapTx[h], tx, k);
      } else if h != s.hash {
        assert m[h] == mapTx[h] && m[s.hash] == s;
        assert Uses(m[h], s.hash, |s.vout|) ==> UsesAny(m, m[h], more);
      }
    }
  }

  lemma ConflictMore(t: Tx, tx: Tx, k: nat)
    requires k < |tx.vin|
    ensures Conflicting(t, tx, k) ==> Conflicting(t, tx, k + 1)
  {}

  // The k-th outpoint has no other spender left.
  lemma SweepNone(mapTx: map<Hash, Tx>, tx: Tx, k: nat, gone: set<Hash>)
    requires gone <= mapTx.Keys && k < |tx.vin| && Swept(mapTx, tx, k, gone)
    requires NewConflicts(mapTx - gone, tx, k, {})
    ensures Swept(mapTx, tx, k + 1, gone)
  {
    forall h | h in gone { ConflictMore(mapTx[h], tx, k); }
    forall h | h in mapTx && h !in gone ensures !Conflicting(mapTx[h], tx, k + 1) { assert h in mapTx - gone; }
  }

  function Hashes(txs: seq<Tx>): set<Hash> { set k | 0 <= k < |txs| :: txs[k].hash }

  ghost predicate ConflictsWithAny(t: Tx, txs: seq<Tx>) {
    exists k :: 0 <= k < |txs| && Conflicting(t, txs[k], |txs[k].vin|)
  }

  // Of the pool m, what the connected transactions txs leave. They are gone themselves, nothing left spends
  // what they spend, and nothing left spends an output of what was dragged out: the transactions that
  // conflicted with one of them and what depended on those.
  ghost predicate Deleted(m: map<Hash, Tx>, now: map<Hash, Tx>, txs: seq<Tx>, dragged: set<Hash>) {
    && dragged <= m.Keys && now == m - Hashes(txs) - dragged && (forall h :: h in m ==> m[h].hash == h)
    && (forall k :: 0 <= k < |txs| ==> txs[k].hash !in now && NoConflict(now, txs[k]))
    && (forall h :: h in dragged ==> ConflictsWithAny(m[h], txs) || UsesAny(m, m[h], dragged))
    && forall h :: h in now ==> !UsesAny(m, now[h], dragged)
  }

  lemma DeletedNone(m: map<Hash, Tx>)
    requires forall h :: h in m ==> m[h].hash == h
    ensures Deleted(m, m, [], {})
  {}

  lemma {:induction false} DeletedNext(m: map<Hash, Tx>, now: map<Hash, Tx>, txs: seq<Tx>, dragged: set<Hash>, tx: Tx, more: set<Hash>)
    requires Deleted(m, now, txs, dragged) && Known(now, tx)
    requires more <= (now - {tx.hash}).Keys && Swept(now - {tx.hash}, tx, |tx.vin|, more)
    ensures Deleted(m, now - {tx.hash} - more, txs + [tx], dragged + more)
  {
    var m1 := now - {tx.hash};
    var last := m1 - more;
    var all := dragged + more;
    assert Hashes(txs + [tx]) == Hashes(txs) + {tx.hash} by { HashesNext(txs, tx); }
    assert last == m - Hashes(txs + [tx]) - all;
    forall h | h in all ensures ConflictsWithAny(m[h], txs + [tx]) || UsesAny(m, m[h], all) {
      UsesAnyFrom(m, m1, m[h], dragged, more);
      if h in dragged { StillConflicts(m[h], txs, tx); } else { assert m1[h] == m[h]; StillConflicts(m[h], txs, tx); }
    }
    forall h | h in last ensures !UsesAny(m, last[h], all) {
      assert m1[h] == last[h];
      UsesAnyFrom(m, m1, last[h], dragged, more);
    }
    forall k | 0 <= k < |txs + [tx]| ensures (txs + [tx])[k].hash !in last && NoConflict(last, (txs + [tx])[k]) {
      if k < |txs| { Fewer(now, last, txs[k]); } else { SweptClean(m1, tx, more); }
    }
  }

  lemma HashesNext(txs: seq<Tx>, tx: Tx)
    ensures Hashes(txs + [tx]) == Hashes(txs) + {tx.hash}
  {
    var all := txs + [tx];
    forall h | h in Hashes(txs) + {tx.hash} ensures h in Hashes(all) {
      if h == tx.hash { assert all[|txs|].hash == h; }
      else { var k :| 0 <= k < |txs| && txs[k].hash == h; assert all[k].hash == h; }
    }
  }

  lemma UsesAnyFrom(m: map<Hash, Tx>, m1: map<Hash, Tx>, t: Tx, dragged: set<Hash>, more: set<Hash>)
    requires dragged <= m.Keys && more <= m1.Keys <= m.Keys && forall h :: h in m1 ==> h in m && m1[h] == m[h]
    ensures UsesAny(m, t, dragged + more) <==> UsesAny(m, t, dragged) || UsesAny(m1, t, more)
  {
    if UsesAny(m, t, dragged + more) {
      var p :| p in dragged + more && Uses(t, p, |m[p].vout|);
      assert p in more ==> m1[p] == m[p];
    }
    if UsesAny(m, t, dragged) { var p :| p in dragged && Uses(t, p, |m[p].vout|); assert p in dragged + more; }
    if UsesAny(m1, t, more) { var p :| p in more && Uses(t, p, |m1[p].vout|); assert p in dragged + more && m1[p] == m[p]; }
  }

  lemma StillConflicts(t: Tx, txs: seq<Tx>, tx: Tx)
    ensures ConflictsWithAny(t, txs) ==> ConflictsWithAny(t, txs + [tx])
    ensures Conflicting(t, tx, |tx.vin|) ==> ConflictsWithAny(t, txs + [tx])
  {
    var all := txs + [tx];
    if ConflictsWithAny(t, txs) {
      var k :| 0 <= k < |txs| && Conflicting(t, txs[k], |txs[k].vin|);
      assert all[k] == txs[k];
    }
    assert all[|txs|] == tx;
  }

  lemma Fewer(now: map<Hash, Tx>, last: map<Hash, Tx>, tx: Tx)
    requires NoConflict(now, tx) && forall h :: h in last ==> h in now && last[h] == now[h]
    ensures NoConflict(last, tx)
  {}

  lemma SweptClean(m: map<Hash, Tx>, tx: Tx, gone: set<Hash>)
    requires gone <= m.Keys && Swept(m, tx, |tx.vin|, gone) && tx.hash !in m && forall h :: h in m ==> m[h].hash == h
    ensures NoConflict(m - gone, tx)
  {
    var last := m - gone;
    forall h, i, j | h in last && 0 <= i < |last[h].vin| && 0 <= j < |tx.vin| ensures last[h].vin[i].prevout != tx.vin[j].prevout {
      assert m[h] == last[h] && m[h] != tx && !Conflicting(m[h], tx, |tx.vin|);
    }
  }

  // The first i inputs have been added to the index.
  ghost predicate Indexed(was: map<OutPoint, InPoint>, now: map<OutPoint, InPoint>, hash: Hash, vin: seq<TxIn>, i: nat) {
    && i <= |vin|
    && (forall o :: o in was ==> o in now && now[o] == was[o])
    && (forall j :: 0 <= j < i ==> vin[j].prevout in now && now[vin[j].prevout] == InPoint(hash, j))
    && forall o :: o in now && o !in was ==> now[o].hash == hash && now[o].n < i && vin[now[o].n].prevout == o
  }

  lemma IndexOne(was: map<OutPoint, InPoint>, now: map<OutPoint, InPoint>, hash: Hash, vin: seq<TxIn>, i: nat)
    requires Indexed(was, now, hash, vin, i) && i < |vin| && vin[i].prevout !in was
    requires forall j :: 0 <= j < i ==> vin[j].prevout != vin[i].prevout
    ensures Indexed(was, now[vin[i].prevout := InPoint(hash, i)], hash, vin, i + 1)
  {}

  lemma AddKeeps(mapTx: map<Hash, Tx>, was: map<OutPoint, InPoint>, now: map<OutPoint, InPoint>, hash: Hash, tx: Tx)
    requires Exact(mapTx, was) && hash == tx.hash && hash !in mapTx && Indexed(was, now, hash, tx.vin, |tx.vin|)
    ensures Exact(mapTx[hash := tx], now)
  {
    var m := mapTx[hash := tx];
    forall o | o in now ensures At(m, now[o], o) {
      if o in was { assert At(mapTx, was[o], o); }
    }
  }

  class TxMemPool {
    var mapTx: map<Hash, Tx>
    var mapNextTx: map<OutPoint, InPoint>

    ghost predicate Valid()
      reads this
    {
      Exact(mapTx, mapNextTx)
    }

    constructor ()
      ensures Valid() && mapTx == map[]
    {
      mapTx, mapNextTx := map[], map[];
    }

    method AddUnchecked(hash: Hash, tx: Tx)
      requires Valid() && hash == tx.hash && hash !in mapTx
      requires forall i :: 0 <= i < |tx.vin| ==> tx.vin[i].prevout !in mapNextTx
      requires forall i, j :: 0 <= i < j < |tx.vin| ==> tx.vin[i].prevout != tx.vin[j].prevout
      modifies this
      ensures Valid() && mapTx == old(mapTx)[hash := tx]
    {
      mapTx := mapTx[hash := tx];
      var i := 0;
      while i < |tx.vin|
        invariant 0 <= i <= |tx.vin| && mapTx == old(mapTx)[hash := tx]
        invariant Indexed(old(mapNextTx), mapNextTx, hash, tx.vin, i)
      {
        IndexOne(old(mapNextTx), mapNextTx, hash, tx.vin, i);
        hide Indexed;
        mapNextTx := mapNextTx[tx.vin[i].prevout := InPoint(hash, i)];
        i := i + 1;
      }
      AddKeeps(old(mapTx), old(mapNextTx), mapNextTx, hash, tx);
    }

    // Admits a transaction to the pool. `passes` stands for all checks but the two on the pool itself.
    method Accept(tx: Tx, passes: bool) returns (ok: bool)
      requires Valid()
      requires forall i, j :: 0 <= i < j < |tx.vin| ==> tx.vin[i].prevout != tx.vin[j].prevout
      modifies this
      ensures Valid() && mapTx == if ok then old(mapTx)[tx.hash := tx] else old(mapTx)
      ensures ok <==> passes && tx.hash !in old(mapTx) && NoConflict(old(mapTx), tx)
    {
      var hash := tx.hash;
      if hash in mapTx { return false; }
      var i := 0;
      while i < |tx.vin|
        invariant 0 <= i <= |tx.vin| && forall j :: 0 <= j < i ==> tx.vin[j].prevout !in mapNextTx
      {
        if tx.vin[i].prevout in mapNextTx {
          assert At(mapTx, mapNextTx[tx.vin[i].prevout], tx.vin[i].prevout);
          return false;
        }
        i := i + 1;
      }
      if !passes { return false; }
      AddUnchecked(hash, tx);
      return true;
    }

    method Erase(tx: Tx)
      requires Valid() && tx.hash in mapTx && mapTx[tx.hash] == tx
      modifies this
      ensures Valid() && mapTx == old(mapTx) - {tx.hash}
    {
      EraseKeeps(mapTx, mapNextTx, tx);
      var i := 0;
      while i < |tx.vin|
        invariant 0 <= i <= |tx.vin| && mapTx == old(mapTx) && mapNextTx == old(mapNextTx) - Prevouts(tx.vin[..i])
      {
        assert Prevouts(tx.vin[..i + 1]) == Prevouts(tx.vin[..i]) + {tx.vin[i].prevout};
        mapNextTx := mapNextTx - {tx.vin[i].prevout};
        i := i + 1;
      }
      assert tx.vin[..i] == tx.vin;
      mapTx := mapTx - {tx.hash};
    }

    // Takes tx out of the pool, after everything that depends on it if fRecursive.
    method Remove(tx: Tx, fRecursive: bool, ghost rank: Hash -> nat) returns (ghost gone: set<Hash>)
      requires Valid() && Known(mapTx, tx) && Ranked(mapTx, rank)
      modifies this
      ensures Valid() && gone <= old(mapTx).Keys && mapTx == old(mapTx) - gone && tx.hash !in mapTx
      ensures if fRecursive then Dependents(old(mapTx), tx, |tx.vout|, gone) else gone <= {tx.hash}
      ensures Above(rank, tx.hash, gone - {tx.hash})
      decreases |Higher(mapTx, rank, tx.hash)|, fRecursive, 2
    {
      gone := {};
      if fRecursive { gone := RemoveSpenders(tx, rank); }
      ghost var m := old(mapTx);
      if tx.hash in mapTx {
        assert tx.hash in m && m[tx.hash] == tx;
        hide Exact, Dependents;
        Erase(tx);
        if fRecursive { AddItself(m, tx, gone); }
        gone := gone + {tx.hash};
      }
    }

    // Everything that depends on tx.
    method RemoveSpenders(tx: Tx, ghost rank: Hash -> nat) returns (ghost gone: set<Hash>)
      requires Valid() && Ranked(mapTx, rank)
      modifies this
      ensures Valid() && gone <= old(mapTx).Keys && mapTx == old(mapTx) - gone
      ensures Dependents(old(mapTx), tx, |tx.vout|, gone) && Above(rank, tx.hash, gone)
      decreases |Higher(mapTx, rank, tx.hash)|, false, 1
    {
      gone := {};
      NothingYet(mapTx, tx);
      assert mapTx == mapTx - gone && Above(rank, tx.hash, gone);
      hide Exact, Dependents, Uses, Ranked, Above, Higher;
      var i := 0;
      while i < |tx.vout|
        invariant 0 <= i <= |tx.vout| && Valid() && gone <= old(mapTx).Keys && mapTx == old(mapTx) - gone
        invariant Above(rank, tx.hash, gone) && Dependents(old(mapTx), tx, i, gone)
      {
        gone := RemoveSpender(tx, i, old(mapTx), gone, rank);
        i := i + 1;
      }
    }

    // The spender of one output and everything that depends on it. The pool was m before `gone` went.
    method RemoveSpender(tx: Tx, i: nat, ghost m: map<Hash, Tx>, ghost gone: set<Hash>, ghost rank: Hash -> nat)
      returns (ghost all: set<Hash>)
      requires Valid() && Ranked(m, rank) && gone <= m.Keys && mapTx == m - gone
      requires Above(rank, tx.hash, gone) && Dependents(m, tx, i, gone)
      modifies this
      ensures Valid() && all <= m.Keys && mapTx == m - all
      ensures Above(rank, tx.hash, all) && Dependents(m, tx, i + 1, all)
      decreases |Higher(m, rank, tx.hash)|, false, 0
    {
      OnlySpender(mapTx, mapNextTx, tx.hash, i);
      hide Exact, Dependents, Uses, Ranked, Above, Higher;
      var o := OutPoint(tx.hash, i);
      if o in mapNextTx {
        ghost var s := mapNextTx[o].hash;
        HigherShrinks(m, rank, tx.hash, gone, s, mapNextTx[o].n);
        Smaller(m, rank, gone);
        ghost var more := Remove(mapTx[mapNextTx[o].hash], true, rank);
        AddSpender(m, tx, i, gone, s, more);
        AboveMore(rank, tx.hash, gone, s, more);
        TakeBoth(m, gone, more);
        all := gone + more;
      } else {
        NoSpender(m, tx, i, gone);
        all := gone;
      }
    }

    // Removes whatever conflicts with tx, and what depends on that.
    method RemoveConflicts(tx: Tx, ghost rank: Hash -> nat) returns (ghost gone: set<Hash>)
      requires Valid() && Ranked(mapTx, rank)
      modifies this
      ensures Valid() && gone <= old(mapTx).Keys && mapTx == old(mapTx) - gone
      ensures Swept(old(mapTx), tx, |tx.vin|, gone)
    {
      gone := {};
      assert mapTx == mapTx - gone && Swept(mapTx, tx, 0, gone);
      hide Exact, Swept, Ranked;
      var i := 0;
      while i < |tx.vin|
        invariant 0 <= i <= |tx.vin| && Valid() && gone <= old(mapTx).Keys && mapTx == old(mapTx) - gone
        invariant Swept(old(mapTx), tx, i, gone)
      {
        gone := RemoveConflict(tx, i, old(mapTx), gone, rank);
        i := i + 1;
      }
    }

    // Another spender of one outpoint and everything that depends on it. The pool was m before `gone` went.
    method RemoveConflict(tx: Tx, i: nat, ghost m: map<Hash, Tx>, ghost gone: set<Hash>, ghost rank: Hash -> nat)
      returns (ghost all: set<Hash>)
      requires Valid() && Ranked(m, rank) && gone <= m.Keys && mapTx == m - gone && i < |tx.vin| && Swept(m, tx, i, gone)
      modifies this
      ensures Valid() && all <= m.Keys && mapTx == m - all && Swept(m, tx, i + 1, all)
    {
      var o := tx.vin[i].prevout;
      SpenderConflicts(mapTx, mapNextTx, tx, i);
      hide Exact, Swept, Ranked, Conflicting, Dependents, Above, Higher, NewConflicts;
      if o in mapNextTx && mapTx[mapNextTx[o].hash] != tx {
        var txConflict := mapTx[mapNextTx[o].hash];
        Smaller(m, rank, gone);
        ghost var more := Remove(txConflict, true, rank);
        SweepMore(m, tx, i, gone, txConflict, more);
        TakeBoth(m, gone, more);
        all := gone + more;
      } else {
        SweepNone(m, tx, i, gone);
        all := gone;
      }
    }

    // SetBestChain's last step for the pool: the transactions of the connected blocks.
    method DeleteConnected(vDelete: seq<Tx>, ghost rank: Hash -> nat) returns (ghost dragged: set<Hash>)
      requires Valid() && Ranked(mapTx, rank) && forall k :: 0 <= k < |vDelete| ==> Known(mapTx, vDelete[k])
      modifies this
      ensures Valid() && Deleted(old(mapTx), mapTx, vDelete, dragged)
    {
      ghost var m := mapTx;
      dragged := {};
      DeletedNone(m);
      var i := 0;
      while i < |vDelete|
        invariant 0 <= i <= |vDelete| && Valid() && Deleted(m, mapTx, vDelete[..i], dragged) && Ranked(mapTx, rank)
        invariant forall k :: 0 <= k < |vDelete| ==> Known(mapTx, vDelete[k])
      {
        ghost var now := mapTx;
        ghost var gone := Remove(vDelete[i], false, rank);
        assert mapTx == now - {vDelete[i].hash};
        Smaller(now, rank, {vDelete[i].hash});
        ghost var before := mapTx;
        ghost var more := RemoveConflicts(vDelete[i], rank);
        Smaller(before, rank, more);
        DeletedNext(m, now, vDelete[..i], dragged, vDelete[i], more);
        assert vDelete[..i + 1] == vDelete[..i] + [vDelete[i]];
        hide Deleted, Swept, Ranked, Exact;
        dragged := dragged + more;
        i := i + 1;
      }
      assert vDelete[..i] == vDelete;
    }
  }

  // A spender of tx has fewer transactions that may depend on it.
  lemma HigherShrinks(mapTx: map<Hash, Tx>, rank: Hash -> nat, h: Hash, gone: set<Hash>, s: Hash, n: nat)
    requires Ranked(mapTx, rank) && s in mapTx - gone && n < |mapTx[s].vin| && mapTx[s].vin[n].prevout.hash == h
    ensures |Higher(mapTx - gone, rank, s)| < |Higher(mapTx, rank, h)| && rank(s) > rank(h)
  {
    var a, b := Higher(mapTx - gone, rank, s), Higher(mapTx, rank, h);
    assert a <= b - {s} && s in b;
    SubsetSize(a, b - {s});
  }
}
