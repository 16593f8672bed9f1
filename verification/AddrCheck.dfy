/** The address manager's own consistency check, and that it finds nothing wrong in any run. */
module AddrCheck {
  import Basics
  import opened AddrTables
  import AddrMan

  function Flatten(ss: seq<seq<int>>): seq<int> {
    if ss == [] then [] else Flatten(ss[..|ss| - 1]) + ss[|ss| - 1]
  }

  // mapAddr[..] of a std::map: 0 for a key it does not have.
  function Lookup(mapAddr: map<NetAddr, int>, net: NetAddr): int { if net in mapAddr then mapAddr[net] else 0 }

  // One pass over an entry of mapInfo; 0 if nothing is wrong with it.
  predicate EntryOk(id: int, i: Info, mapAddr: map<NetAddr, int>, vRandom: seq<int>) {
    && (if i.fInTried then i.nLastSuccess != 0 && i.nRefCount == 0 else 1 <= i.nRefCount <= NEW_BUCKETS_PER_ADDRESS)
    && Lookup(mapAddr, i.Net()) == id
    && 0 <= i.nRandomPos < |vRandom| && vRandom[i.nRandomPos] == id
    && i.nLastTry >= 0 && i.nLastSuccess >= 0
  }

  ghost predicate Checked(v: Tables) {
    && |v.vRandom| == v.nTried + v.nNew
    && (forall id :: id in v.mapInfo ==> EntryOk(id, v.mapInfo[id], v.mapAddr, v.vRandom))
    && |TriedIds(v)| == v.nTried && |NewIds(v)| == v.nNew
    && multiset(Flatten(v.vvTried)) == multiset(TriedIds(v))
    && RefsRight(v.vvNew, v.mapInfo)
  }

  // Every entry of the new buckets is there as often as its reference count says.
  ghost predicate RefsRight(vvNew: seq<set<int>>, mapInfo: map<int, Info>) {
    forall id :: |Holders(vvNew, id)| == if id in mapInfo && !mapInfo[id].fInTried then mapInfo[id].nRefCount else 0
  }

  method CheckEntry(id: int, i: Info, mapAddr: map<NetAddr, int>, vRandom: seq<int>) returns (err: int, after: map<NetAddr, int>)
    ensures err == 0 <==> EntryOk(id, i, mapAddr, vRandom)
    ensures forall net :: Lookup(after, net) == Lookup(mapAddr, net)
    ensures i.Net() in mapAddr ==> after == mapAddr
  {
    after := mapAddr;
    if i.fInTried {
      if i.nLastSuccess == 0 { return -1, after; }
      if i.nRefCount != 0 { return -2, after; }
    } else {
      if i.nRefCount < 0 || i.nRefCount > NEW_BUCKETS_PER_ADDRESS { return -3, after; }
      if i.nRefCount == 0 { return -4, after; }
    }
    if i.Net() !in after { after := after[i.Net() := 0]; }
    if after[i.Net()] != id { return -5, after; }
    if i.nRandomPos < 0 || i.nRandomPos >= |vRandom| || vRandom[i.nRandomPos] != id { return -14, after; }
    if i.nLastTry < 0 { return -6, after; }
    if i.nLastSuccess < 0 { return -8, after; }
    return 0, after;
  }

  lemma FlattenPrefix(ss: seq<seq<int>>, n: nat)
    requires n < |ss|
    ensures Flatten(ss[..n + 1]) == Flatten(ss[..n]) + ss[n]
  {
    assert ss[..n + 1][..n] == ss[..n];
  }

  lemma {:induction false} FlattenGrows(ss: seq<seq<int>>, n: nat)
    requires n <= |ss|
    ensures multiset(Flatten(ss[..n])) <= multiset(Flatten(ss))
    decreases |ss| - n
  {
    if n < |ss| { FlattenPrefix(ss, n); FlattenGrows(ss, n + 1); }
    else { assert ss[..n] == ss; }
  }

  // Takes the ids of one bucket out of the set, if they are all there.
  method TakeOut(ids: set<int>, bucket: seq<int>) returns (ok: bool, left: set<int>, ghost x: int)
    ensures !ok ==> multiset(bucket)[x] > multiset(ids)[x]
    ensures ok ==> multiset(left) + multiset(bucket) == multiset(ids)
  {
    left := ids;
    var i := 0;
    while i < |bucket|
      invariant 0 <= i <= |bucket|
      invariant multiset(left) + multiset(bucket[..i]) == multiset(ids)
    {
      x := bucket[i];
      assert bucket[..i + 1] == bucket[..i] + [x];
      if bucket[i] !in left {
        assert bucket == bucket[..i + 1] + bucket[i + 1..];
        return false, left, x;
      }
      assert multiset(left - {x}) + multiset{x} == multiset(left);
      left := left - {bucket[i]};
      i := i + 1;
    }
    assert bucket[..i] == bucket;
    return true, left, 0;
  }

  lemma Regroup(left: multiset<int>, before: multiset<int>, bucket: multiset<int>, was: multiset<int>, ids: multiset<int>)
    requires left + bucket == was && was + before == ids
    ensures left + (before + bucket) == ids
  {}

  // The tried buckets together hold each of the given ids once and nothing else.
  method CheckTried(ids: set<int>, vvTried: seq<seq<int>>) returns (err: int)
    ensures err == 0 <==> multiset(Flatten(vvTried)) == multiset(ids)
  {
    var setTried := ids;
    var n := 0;
    while n < |vvTried|
      invariant 0 <= n <= |vvTried|
      invariant multiset(setTried) + multiset(Flatten(vvTried[..n])) == multiset(ids)
    {
      FlattenPrefix(vvTried, n);
      FlattenGrows(vvTried, n + 1);
      ghost var before := multiset(Flatten(vvTried[..n]));
      assert multiset(Flatten(vvTried[..n + 1])) == before + multiset(vvTried[n]);
      hide Flatten;
      ghost var x;
      var ok, left;
      ok, left, x := TakeOut(setTried, vvTried[n]);
      if !ok {
        assert multiset(Flatten(vvTried))[x] > multiset(ids)[x];
        return -11;
      }
      Regroup(multiset(left), before, multiset(vvTried[n]), multiset(setTried), multiset(ids));
      setTried := left;
      n := n + 1;
    }
    assert vvTried[..n] == vvTried;
    if |setTried| > 0 {
      ghost var x := AddrMan.SomeElement(setTried);
      assert multiset(setTried)[x] == 1;
      return -13;
    }
    return 0;
  }

  ghost function Left(mapNew: map<int, int>, id: int): int { if id in mapNew then mapNew[id] else 0 }

  ghost predicate Positive(counts: map<int, int>) { forall id :: id in counts ==> counts[id] > 0 }

  // Counts every id of one bucket down, if all of them are due.
  method CountDown(counts: map<int, int>, bucket: set<int>) returns (ok: bool, mapNew: map<int, int>, ghost x: int)
    requires Positive(counts)
    ensures !ok ==> x in bucket && x !in counts
    ensures ok ==> Positive(mapNew) && forall id :: Left(mapNew, id) == Left(counts, id) - (if id in bucket then 1 else 0)
  {
    mapNew := counts;
    var rest := bucket;
    while |rest| > 0
      invariant rest <= bucket && Positive(mapNew)
      invariant forall id :: Left(mapNew, id) == Left(counts, id) - (if id in bucket && id !in rest then 1 else 0)
      decreases |rest|
    {
      AddrMan.LeastExists(rest);
      var it :| it in rest && forall y :: y in rest ==> it <= y;
      assert Left(mapNew, it) == Left(counts, it);
      if it !in mapNew { return false, mapNew, it; }
      mapNew := mapNew[it := mapNew[it] - 1];
      if mapNew[it] == 0 { mapNew := mapNew - {it}; }
      rest := rest - {it};
    }
    return true, mapNew, 0;
  }

  // What has been counted down is what the buckets before b hold.
  ghost predicate Owed(counts: map<int, int>, mapNew: map<int, int>, vvNew: seq<set<int>>, b: nat) {
    forall id :: Left(counts, id) - Left(mapNew, id) == |Holders(vvNew, id)| - |AddrMan.HoldersFrom(vvNew, id, b)|
  }

  ghost predicate AsCounted(counts: map<int, int>, vvNew: seq<set<int>>) {
    forall id :: |Holders(vvNew, id)| == Left(counts, id)
  }

  lemma OwedAtStart(counts: map<int, int>, vvNew: seq<set<int>>)
    ensures Owed(counts, counts, vvNew, 0)
  {
    forall id ensures AddrMan.HoldersFrom(vvNew, id, 0) == Holders(vvNew, id) {}
  }

  lemma OwedNext(counts: map<int, int>, mapNew: map<int, int>, left: map<int, int>, vvNew: seq<set<int>>, b: nat)
    requires b < |vvNew| && Owed(counts, mapNew, vvNew, b)
    requires forall id :: Left(left, id) == Left(mapNew, id) - (if id in vvNew[b] then 1 else 0)
    ensures Owed(counts, left, vvNew, b + 1)
  {
    hide AddrMan.HoldersFrom, Holders, Left;
    forall id ensures Left(counts, id) - Left(left, id) == |Holders(vvNew, id)| - |AddrMan.HoldersFrom(vvNew, id, b + 1)| {
      AddrMan.HoldersStep(vvNew, id, b);
    }
  }

  lemma OwedTooMuch(counts: map<int, int>, mapNew: map<int, int>, vvNew: seq<set<int>>, b: nat, x: int)
    requires b < |vvNew| && Owed(counts, mapNew, vvNew, b) && x in vvNew[b] && x !in mapNew
    ensures !AsCounted(counts, vvNew)
  {
    AddrMan.HoldersStep(vvNew, x, b);
    assert |Holders(vvNew, x)| > Left(counts, x);
  }

  lemma OwedAtEnd(counts: map<int, int>, mapNew: map<int, int>, vvNew: seq<set<int>>)
    requires Owed(counts, mapNew, vvNew, |vvNew|) && Positive(mapNew)
    ensures AsCounted(counts, vvNew) <==> |mapNew.Keys| == 0
  {
    forall id ensures |AddrMan.HoldersFrom(vvNew, id, |vvNew|)| == 0 { assert AddrMan.HoldersFrom(vvNew, id, |vvNew|) == {}; }
    hide AddrMan.HoldersFrom, Holders;
    if |mapNew.Keys| > 0 {
      var id := AddrMan.SomeElement(mapNew.Keys);
      assert Left(mapNew, id) > 0;
      assert |Holders(vvNew, id)| != Left(counts, id);
    } else {
      forall id ensures Left(mapNew, id) == 0 { assert id !in mapNew.Keys; }
    }
  }

  // Each id is in exactly as many new buckets as the map says.
  method CheckNew(counts: map<int, int>, vvNew: seq<set<int>>) returns (err: int)
    requires Positive(counts)
    ensures err == 0 <==> AsCounted(counts, vvNew)
  {
    hide AddrMan.HoldersFrom, Holders, Left, Owed, AsCounted, Positive;
    var mapNew := counts;
    var b := 0;
    OwedAtStart(counts, vvNew);
    while b < |vvNew|
      invariant 0 <= b <= |vvNew| && Positive(mapNew) && Owed(counts, mapNew, vvNew, b)
    {
      ghost var x;
      var ok, left;
      ok, left, x := CountDown(mapNew, vvNew[b]);
      if !ok {
        OwedTooMuch(counts, mapNew, vvNew, b, x);
        return -12;
      }
      OwedNext(counts, mapNew, left, vvNew, b);
      mapNew := left;
      b := b + 1;
    }
    OwedAtEnd(counts, mapNew, vvNew);
    return if |mapNew.Keys| > 0 then -15 else 0;
  }

  // ---------- the whole check ----------

  ghost predicate EntriesOk(v: Tables, done: set<int>) {
    forall id :: id in done ==> id in v.mapInfo && EntryOk(id, v.mapInfo[id], v.mapAddr, v.vRandom)
  }

  lemma CountsAre(v: Tables, mapNew: map<int, int>)
    requires forall id :: id in mapNew <==> id in v.mapInfo && !v.mapInfo[id].fInTried
    requires forall id :: id in mapNew ==> mapNew[id] == v.mapInfo[id].nRefCount
    ensures AsCounted(mapNew, v.vvNew) <==> RefsRight(v.vvNew, v.mapInfo)
  {}

  // The check of the tables v. Looking an address up may add it to mapAddr with the value 0.
  method Check_(v: Tables) returns (err: int, mapAddr: map<NetAddr, int>)
    ensures err == 0 <==> Checked(v)
    ensures forall net :: Lookup(mapAddr, net) == Lookup(v.mapAddr, net)
    ensures (forall id :: id in v.mapInfo ==> v.mapInfo[id].Net() in v.mapAddr) ==> mapAddr == v.mapAddr
  {
    mapAddr := v.mapAddr;
    if |v.vRandom| != v.nTried + v.nNew { return -7, mapAddr; }
    var setTried: set<int> := {};
    var mapNew: map<int, int> := map[];
    var rest := v.mapInfo.Keys;
    while |rest| > 0
      invariant rest <= v.mapInfo.Keys
      invariant forall net :: Lookup(mapAddr, net) == Lookup(v.mapAddr, net)
      invariant (forall id :: id in v.mapInfo ==> v.mapInfo[id].Net() in v.mapAddr) ==> mapAddr == v.mapAddr
      invariant EntriesOk(v, v.mapInfo.Keys - rest)
      invariant forall id :: id in setTried <==> id in v.mapInfo && id !in rest && v.mapInfo[id].fInTried
      invariant forall id :: id in mapNew <==> id in v.mapInfo && id !in rest && !v.mapInfo[id].fInTried
      invariant forall id :: id in mapNew ==> mapNew[id] == v.mapInfo[id].nRefCount
      decreases |rest|
    {
      AddrMan.LeastExists(rest);
      var n :| n in rest && forall y :: y in rest ==> n <= y;
      var info := v.mapInfo[n];
      var after := mapAddr;
      err, after := CheckEntry(n, info, mapAddr, v.vRandom);
      assert EntryOk(n, info, mapAddr, v.vRandom) <==> EntryOk(n, info, v.mapAddr, v.vRandom);
      mapAddr := after;
      if err != 0 { return err, mapAddr; }
      if info.fInTried { setTried := setTried + {n}; }
      else { mapNew := mapNew[n := info.nRefCount]; }
      rest := rest - {n};
    }
    assert forall id :: id !in rest;
    assert forall id :: id in setTried <==> id in TriedIds(v);
    assert setTried == TriedIds(v);
    assert forall id :: id in mapNew.Keys <==> id in NewIds(v);
    assert mapNew.Keys == NewIds(v);
    assert Positive(mapNew);
    hide EntryOk;
    if |setTried| != v.nTried { return -9, mapAddr; }
    if |mapNew.Keys| != v.nNew { return -10, mapAddr; }
    CountsAre(v, mapNew);
    err := CheckTried(setTried, v.vvTried);
    if err != 0 { return err, mapAddr; }
    err := CheckNew(mapNew, v.vvNew);
  }

  // ---------- a consistent manager passes ----------

  lemma {:induction false} FlattenCounts(ss: seq<seq<int>>, x: int, b: nat)
    requires forall c :: 0 <= c < |ss| && c != b ==> x !in ss[c]
    ensures multiset(Flatten(ss))[x] == if b < |ss| then multiset(ss[b])[x] else 0
    decreases |ss|
  {
    if ss != [] {
      var last := |ss| - 1;
      var front := ss[..last];
      assert forall c :: 0 <= c < last ==> front[c] == ss[c];
      FlattenCounts(front, x, b);
      if last != b { assert x !in ss[last]; assert x !in multiset(ss[last]); }
    }
  }

  lemma TriedPlaces(key: Key, v: Tables, x: int)
    requires TriedOk(key, v)
    ensures multiset(Flatten(v.vvTried))[x] == multiset(TriedIds(v))[x]
  {
    if x in TriedIds(v) {
      var b := key.TriedBucket(v.mapInfo[x].addr.service);
      forall c | 0 <= c < |v.vvTried| && c != b ensures x !in v.vvTried[c] {
        forall i | 0 <= i < |v.vvTried[c]| ensures v.vvTried[c][i] != x { assert Filed(key, v.mapInfo, v.vvTried[c][i], c); }
      }
      FlattenCounts(v.vvTried, x, b);
      assert x in v.vvTried[b];
      assert x in multiset(v.vvTried[b]);
    } else {
      forall c | 0 <= c < |v.vvTried| ensures x !in v.vvTried[c] {
        forall i | 0 <= i < |v.vvTried[c]| ensures v.vvTried[c][i] != x { assert Filed(key, v.mapInfo, v.vvTried[c][i], c); }
      }
      FlattenCounts(v.vvTried, x, |v.vvTried|);
    }
  }

  lemma {:induction false} ConsistentIsChecked(key: Key, v: Tables)
    requires Consistent(key, v)
    ensures Checked(v)
  {
    forall x ensures multiset(Flatten(v.vvTried))[x] == multiset(TriedIds(v))[x] { TriedPlaces(key, v, x); }
    forall id ensures |Holders(v.vvNew, id)| == if id in v.mapInfo && !v.mapInfo[id].fInTried then v.mapInfo[id].nRefCount else 0 {
      if !(id in v.mapInfo && !v.mapInfo[id].fInTried) { assert Holders(v.vvNew, id) == {}; }
    }
  }

  // ---------- and exactly such, beside what is not looked at ----------

  // What Check_ does not look at: number and sizes of the buckets, the bucket of a tried entry, the range of ids, and
  // addresses in mapAddr that are missing or lead nowhere. For id 0 a missing address passes as the 0 it is read as.
  ghost predicate TakenForGranted(key: Key, v: Tables) {
    && |v.vvTried| == 64 && |v.vvNew| == 256
    && (forall b :: 0 <= b < 64 ==> |v.vvTried[b]| <= 64) && (forall b :: 0 <= b < 256 ==> |v.vvNew[b]| <= 64)
    && (forall b, i :: 0 <= b < 64 && 0 <= i < |v.vvTried[b]| ==>
          v.vvTried[b][i] in v.mapInfo ==> key.TriedBucket(v.mapInfo[v.vvTried[b][i]].addr.service) == b)
    && v.nIdCount >= 0 && (forall id :: id in v.mapInfo ==> 0 <= id < v.nIdCount && v.mapInfo[id].Net() in v.mapAddr)
    && (forall a :: a in v.mapAddr ==> v.mapAddr[a] in v.mapInfo && v.mapInfo[v.mapAddr[a]].Net() == a)
  }

  lemma {:induction false} FlattenHas(ss: seq<seq<int>>, b: nat, x: int)
    requires b < |ss|
    ensures multiset(Flatten(ss))[x] >= multiset(ss[b])[x]
    decreases |ss|
  {
    var last := |ss| - 1;
    if b < last { FlattenHas(ss[..last], b, x); }
  }

  lemma {:induction false} FlattenFrom(ss: seq<seq<int>>, x: int) returns (b: nat)
    requires x in multiset(Flatten(ss))
    ensures b < |ss| && x in ss[b]
    decreases |ss|
  {
    var last := |ss| - 1;
    if x in ss[last] { b := last; } else {
      assert x !in multiset(ss[last]);
      b := FlattenFrom(ss[..last], x);
    }
  }

  lemma {:induction false} PassedTried(key: Key, v: Tables)
    requires multiset(Flatten(v.vvTried)) == multiset(TriedIds(v)) && TakenForGranted(key, v)
    ensures TriedOk(key, v)
  {
    forall b, i | 0 <= b < 64 && 0 <= i < |v.vvTried[b]| ensures Filed(key, v.mapInfo, v.vvTried[b][i], b) {
      var x := v.vvTried[b][i];
      FlattenHas(v.vvTried, b, x);
      assert x in multiset(v.vvTried[b]);
      assert x in multiset(TriedIds(v));
    }
    forall b | 0 <= b < 64 ensures Distinct(v.vvTried[b]) {
      forall x ensures multiset(v.vvTried[b])[x] <= 1 { FlattenHas(v.vvTried, b, x); }
    }
    forall id | id in v.mapInfo && v.mapInfo[id].fInTried ensures id in v.vvTried[key.TriedBucket(v.mapInfo[id].addr.service)] {
      assert id in multiset(TriedIds(v));
      var b := FlattenFrom(v.vvTried, id);
      var i :| 0 <= i < |v.vvTried[b]| && v.vvTried[b][i] == id;
    }
  }

  lemma PassedNew(key: Key, v: Tables)
    requires RefsRight(v.vvNew, v.mapInfo) && TakenForGranted(key, v)
    requires forall id :: id in v.mapInfo && !v.mapInfo[id].fInTried ==> 1 <= v.mapInfo[id].nRefCount <= NEW_BUCKETS_PER_ADDRESS
    requires NoId !in v.mapInfo
    ensures NewOk(v, NoId)
  {
    forall b, id | 0 <= b < 256 && id in v.vvNew[b] ensures id in v.mapInfo && !v.mapInfo[id].fInTried {
      assert b in Holders(v.vvNew, id);
    }
  }

  // As many entries as places, and each at a place of its own: every place is some entry's.
  lemma {:induction false} PassedIndexed(v: Tables)
    requires forall id :: id in v.mapInfo ==> 0 <= v.mapInfo[id].nRandomPos < |v.vRandom| && v.vRandom[v.mapInfo[id].nRandomPos] == id
    requires |v.mapInfo.Keys| == |v.vRandom|
    ensures Indexed(v)
  {
    PlacesTaken(v, v.mapInfo.Keys);
    var taken := Places(v, v.mapInfo.Keys);
    var all := Basics.Upto(|v.vRandom|);
    assert taken <= all;
    if taken != all {
      var i :| i in all && i !in taken;
      Basics.SubsetSize(taken, all - {i});
    }
    forall i | 0 <= i < |v.vRandom| ensures v.vRandom[i] in v.mapInfo && v.mapInfo[v.vRandom[i]].nRandomPos == i {
      assert i in taken;
    }
  }

  ghost function Places(v: Tables, ids: set<int>): set<int>
    requires forall id :: id in ids ==> id in v.mapInfo
  {
    set id | id in ids :: v.mapInfo[id].nRandomPos
  }

  lemma {:induction false} PlacesTaken(v: Tables, ids: set<int>)
    requires forall id :: id in ids ==> id in v.mapInfo
    requires forall id :: id in v.mapInfo ==> 0 <= v.mapInfo[id].nRandomPos < |v.vRandom| && v.vRandom[v.mapInfo[id].nRandomPos] == id
    ensures |Places(v, ids)| == |ids|
  {
    if |ids| > 0 {
      AddrMan.LeastExists(ids);
      var id :| id in ids;
      PlacesTaken(v, ids - {id});
      assert Places(v, ids) == Places(v, ids - {id}) + {v.mapInfo[id].nRandomPos};
    } else {
      assert Places(v, ids) == {};
    }
  }

  // Tables that pass are consistent exactly if that holds too.
  lemma {:induction false} ConsistentIff(key: Key, v: Tables)
    ensures Consistent(key, v) <==> Checked(v) && TakenForGranted(key, v)
  {
    if Consistent(key, v) { ConsistentIsChecked(key, v); }
    if Checked(v) && TakenForGranted(key, v) { PassedIsConsistent(key, v); }
  }

  lemma PassedEntry(key: Key, v: Tables, id: int)
    requires Checked(v) && TakenForGranted(key, v) && id in v.mapInfo
    ensures var i := v.mapInfo[id];
            && 0 <= i.nRandomPos < |v.vRandom| && v.vRandom[i.nRandomPos] == id && id >= 0
            && TimedInfo(i) && i.Net() in v.mapAddr && v.mapAddr[i.Net()] == id
            && if i.fInTried then i.nRefCount == 0 else 1 <= i.nRefCount <= NEW_BUCKETS_PER_ADDRESS
  {
    assert EntryOk(id, v.mapInfo[id], v.mapAddr, v.vRandom);
  }

  lemma PassedCounted(v: Tables)
    requires Checked(v)
    ensures Counted(v) && |v.mapInfo.Keys| == |v.vRandom|
  {
    hide EntryOk, RefsRight, Flatten;
    assert TriedIds(v) + NewIds(v) == v.mapInfo.Keys && TriedIds(v) !! NewIds(v);
    assert |v.mapInfo.Keys| == |TriedIds(v)| + |NewIds(v)|;
  }

  lemma {:induction false} PassedIsConsistent(key: Key, v: Tables)
    requires Checked(v) && TakenForGranted(key, v)
    ensures Consistent(key, v)
  {
    PassedCounted(v);
    PassedTried(key, v);
    hide EntryOk, Flatten, RefsRight, TriedOk, Counted, TriedIds, NewIds, Holders;
    forall id | id in v.mapInfo
      ensures 0 <= v.mapInfo[id].nRandomPos < |v.vRandom| && v.vRandom[v.mapInfo[id].nRandomPos] == id && id >= 0
      ensures TimedInfo(v.mapInfo[id]) && v.mapAddr[v.mapInfo[id].Net()] == id
      ensures if v.mapInfo[id].fInTried then v.mapInfo[id].nRefCount == 0 else 1 <= v.mapInfo[id].nRefCount <= NEW_BUCKETS_PER_ADDRESS
    {
      PassedEntry(key, v, id);
    }
    PassedIndexed(v);
    PassedNew(key, v);
    hide Indexed, NewOk;
  }

  // Whatever calls are made, the check finds nothing.
  lemma {:induction false} EveryRunChecks(key: Key, calls: seq<AddrMan.Call>, states: seq<Tables>, k: nat)
    requires AddrMan.Run(key, calls, states) && k < |states|
    ensures Checked(states[k])
  {
    AddrMan.EveryRunIsConsistent(key, calls, states, k);
    ConsistentIsChecked(key, states[k]);
  }
}
