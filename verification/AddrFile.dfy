/** Saving the address manager and reading it back: the same entries in the same buckets under new ids. */
module AddrFile {
  import opened Basics
  import opened AddrTables
  import AddrMan

  datatype Record = Record(addr: Address, source: NetAddr, nLastSuccess: int, nAttempts: int)

  // What follows the version byte and nKey: nNew and nTried are the lengths of the two lists of records.
  datatype Peers = Peers(news: seq<Record>, trieds: seq<Record>, nUBuckets: int, buckets: seq<seq<int>>)

  function Packed(i: Info): Record { Record(i.addr, i.source, i.nLastSuccess, i.nAttempts) }

  // A record read, with what is never written at its defaults.
  function Unpacked(r: Record, nRandomPos: int, nRefCount: int, fInTried: bool): Info {
    Info(r.addr, r.source, 0, r.nLastSuccess, r.nAttempts, nRefCount, fInTried, nRandomPos)
  }

  const DefaultInfo := Info(Address(Service(0, 0), {0}, 100000000), 0, 0, 0, 0, 0, false, -1)

  // ---------- writing ----------

  ghost predicate Enumerates(order: seq<int>, s: set<int>) {
    && (forall i :: 0 <= i < |order| ==> order[i] in s)
    && (forall x :: x in s ==> x in order)
    && forall i, j :: 0 <= i < j < |order| ==> order[i] < order[j]
  }

  ghost predicate Records(v: Tables, order: seq<int>, rs: seq<Record>) {
    |rs| == |order| && forall i :: 0 <= i < |order| ==> order[i] in v.mapInfo && rs[i] == Packed(v.mapInfo[order[i]])
  }

  // A bucket is written as the places of its entries among the new records.
  ghost predicate Indices(newIds: seq<int>, s: set<int>, l: seq<int>) {
    && |l| == |s|
    && (forall j :: 0 <= j < |l| ==> 0 <= l[j] < |newIds| && newIds[l[j]] in s)
    && (forall j, k :: 0 <= j < k < |l| ==> l[j] != l[k])
    && forall i :: 0 <= i < |newIds| && newIds[i] in s ==> i in l
  }

  // The records of all entries, the new ones first.
  ghost predicate SavedEntries(v: Tables, p: Peers, newIds: seq<int>, triedIds: seq<int>) {
    && Enumerates(newIds, NewIds(v)) && Enumerates(triedIds, TriedIds(v))
    && Records(v, newIds, p.news) && Records(v, triedIds, p.trieds)
  }

  ghost predicate Saved(v: Tables, p: Peers, newIds: seq<int>, triedIds: seq<int>) {
    && SavedEntries(v, p, newIds, triedIds)
    && p.nUBuckets == NEW_BUCKET_COUNT && |p.buckets| == |v.vvNew|
    && forall b :: 0 <= b < |p.buckets| ==> Indices(newIds, v.vvNew[b], p.buckets[b])
  }

  lemma {:induction false} EnumerationSize(order: seq<int>, s: set<int>)
    requires Enumerates(order, s)
    ensures |order| == |s|
  {
    if order != [] {
      var last := order[|order| - 1];
      var front := order[..|order| - 1];
      forall x | x in s - {last} ensures x in front {
        var i :| 0 <= i < |order| && order[i] == x;
        assert front[i] == x;
      }
      EnumerationSize(front, s - {last});
    } else {
      forall x ensures x !in s { assert x in s ==> x in order; }
      assert s == {};
    }
  }

  // Which entries the first and the second pass write.
  predicate Wanted(i: Info, tried: bool) { if tried then i.fInTried else i.nRefCount != 0 }

  ghost function Kind(v: Tables, tried: bool): set<int> { set id | id in v.mapInfo && Wanted(v.mapInfo[id], tried) }

  lemma KindHas(v: Tables, tried: bool, done: set<int>, it: int)
    requires it in v.mapInfo
    ensures Kind(v, tried) * (done + {it}) == if Wanted(v.mapInfo[it], tried) then Kind(v, tried) * done + {it} else Kind(v, tried) * done
  {}

  predicate Numbered(order: seq<int>, mapUnkIds: map<int, int>) {
    forall i :: 0 <= i < |order| ==> order[i] in mapUnkIds && mapUnkIds[order[i]] == i
  }

  lemma NumberOne(order: seq<int>, mapUnkIds: map<int, int>, it: int)
    requires Numbered(order, mapUnkIds) && it !in mapUnkIds
    ensures Numbered(order, mapUnkIds[it := |order|]) && Numbered(order + [it], mapUnkIds[it := |order|])
  {}

  // The entries of one kind in the order of their ids. The loop stops when as many have been written as
  // there should be.
  method WriteEntries(v: Tables, tried: bool, count: int) returns (rs: seq<Record>, mapUnkIds: map<int, int>, ghost order: seq<int>)
    requires count == |Kind(v, tried)|
    ensures Enumerates(order, Kind(v, tried)) && Records(v, order, rs) && Numbered(order, mapUnkIds)
  {
    assert Kind(v, tried) <= v.mapInfo.Keys;
    hide Enumerates, Records, AddrMan.Reached, Kind, Wanted, Numbered;
    rs, mapUnkIds, order := [], map[], [];
    var rest := v.mapInfo.Keys;
    ghost var done := {};
    StartWriting(v, v.mapInfo.Keys, Kind(v, tried));
    while |rest| > 0 && |rs| != count
      invariant AddrMan.Reached(v.mapInfo.Keys, done, rest) && Records(v, order, rs) && |rs| == |order|
      invariant Enumerates(order, Kind(v, tried) * done) && Numbered(order, mapUnkIds)
      invariant forall id :: id in mapUnkIds ==> id in done
      decreases |rest|
    {
      AddrMan.LeastExists(rest);
      var it :| it in rest && forall y :: y in rest ==> it <= y;
      AddrMan.ReachNext(v.mapInfo.Keys, done, rest, it);
      KindHas(v, tried, done, it);
      NumberOne(order, mapUnkIds, it);
      mapUnkIds := mapUnkIds[it := |rs|];
      if Wanted(v.mapInfo[it], tried) {
        WriteOne(v, order, rs, Kind(v, tried) * done, it);
        rs := rs + [Packed(v.mapInfo[it])];
        order := order + [it];
      }
      rest, done := rest - {it}, done + {it};
    }
    EnumerationSize(order, Kind(v, tried) * done);
    AllWritten(v.mapInfo.Keys, Kind(v, tried), done, rest);
  }

  lemma StartWriting(v: Tables, keys: set<int>, kind: set<int>)
    ensures AddrMan.Reached(keys, {}, keys) && Enumerates([], kind * {}) && Records(v, [], []) && Numbered([], map[])
  {}

  lemma WriteOne(v: Tables, order: seq<int>, rs: seq<Record>, s: set<int>, it: int)
    requires Enumerates(order, s) && Records(v, order, rs) && it in v.mapInfo && forall x :: x in s ==> x < it
    ensures Enumerates(order + [it], s + {it}) && Records(v, order + [it], rs + [Packed(v.mapInfo[it])])
  {}

  lemma AllWritten(keys: set<int>, kind: set<int>, done: set<int>, rest: set<int>)
    requires AddrMan.Reached(keys, done, rest) && kind <= keys && (|kind * done| == |kind| || |rest| == 0)
    ensures kind * done == kind
  {
    if |rest| > 0 { EqualSize(kind * done, kind); }
  }

  lemma EqualSize(a: set<int>, b: set<int>)
    requires a <= b && |a| == |b|
    ensures a == b
  {
    assert b == a + (b - a);
    assert |b| == |a| + |b - a|;
  }

  method WriteBucket(mapUnkIds: map<int, int>, vNew: set<int>, ghost newIds: seq<int>) returns (l: seq<int>)
    requires forall i :: 0 <= i < |newIds| ==> newIds[i] in mapUnkIds && mapUnkIds[newIds[i]] == i
    requires forall x :: x in vNew ==> x in newIds
    ensures Indices(newIds, vNew, l)
  {
    l := [];
    var rest := vNew;
    while |rest| > 0
      invariant rest <= vNew && Indices(newIds, vNew - rest, l)
      decreases |rest|
    {
      AddrMan.LeastExists(rest);
      var it :| it in rest && forall y :: y in rest ==> it <= y;
      assert it in newIds;
      IndicesGrow(newIds, vNew - rest, l, it, mapUnkIds[it]);
      hide Indices;
      assert vNew - (rest - {it}) == (vNew - rest) + {it};
      l := l + [mapUnkIds[it]];
      rest := rest - {it};
    }
    assert vNew - rest == vNew;
  }

  lemma IndicesGrow(newIds: seq<int>, s: set<int>, l: seq<int>, it: int, i: int)
    requires Indices(newIds, s, l) && it !in s && 0 <= i < |newIds| && newIds[i] == it
    requires forall j :: 0 <= j < |newIds| && newIds[j] == it ==> j == i
    ensures Indices(newIds, s + {it}, l + [i])
  {}

  method Write(key: Key, v: Tables) returns (p: Peers)
    requires Consistent(key, v)
    ensures exists newIds, triedIds :: Saved(v, p, newIds, triedIds)
  {
    ghost var newIds, triedIds;
    KindsAre(key, v);
    assert forall b, id :: 0 <= b < |v.vvNew| && id in v.vvNew[b] ==> id in NewIds(v);
    hide Settled, Indices, Enumerates, Records;
    var news, mapUnkIds;
    news, mapUnkIds, newIds := WriteEntries(v, false, v.nNew);
    var trieds, other;
    trieds, other, triedIds := WriteEntries(v, true, v.nTried);
    var buckets: seq<seq<int>> := [];
    var b := 0;
    while b < |v.vvNew|
      invariant 0 <= b <= |v.vvNew| && |buckets| == b
      invariant forall c :: 0 <= c < b ==> Indices(newIds, v.vvNew[c], buckets[c])
    {
      EnumeratesAll(newIds, NewIds(v));
      var l := WriteBucket(mapUnkIds, v.vvNew[b], newIds);
      buckets := buckets + [l];
      b := b + 1;
    }
    p := Peers(news, trieds, NEW_BUCKET_COUNT, buckets);
    assert Saved(v, p, newIds, triedIds);
  }

  lemma EnumeratesAll(order: seq<int>, s: set<int>)
    requires Enumerates(order, s)
    ensures forall x :: x in s ==> x in order
  {}

  lemma KindsAre(key: Key, v: Tables)
    requires Consistent(key, v)
    ensures Kind(v, false) == NewIds(v)
    ensures Kind(v, true) == TriedIds(v)
    ensures v.nNew == |NewIds(v)| && v.nTried == |TriedIds(v)|
  {
    forall id | id in v.mapInfo
      ensures Wanted(v.mapInfo[id], false) == !v.mapInfo[id].fInTried && Wanted(v.mapInfo[id], true) == v.mapInfo[id].fInTried {}
    assert Kind(v, false) == NewIds(v);
    assert Kind(v, true) == TriedIds(v);
  }

  // ---------- reading ----------

  // The tables before anything is read.
  function Blank(nNew: int, nTried: int): Tables { AddrMan.Empty().(nNew := nNew, nTried := nTried) }

  // The n-th new record; without the writer's buckets it goes to the one of its first source.
  function NewRead(key: Key, t: Tables, r: Record, rebuild: bool): Tables
    requires |t.vvNew| == NEW_BUCKET_COUNT
  {
    var n := |t.vRandom|;
    var b := key.NewBucket(r.addr.service.net, r.source);
    t.(mapInfo := t.mapInfo[n := Unpacked(r, n, if rebuild then 1 else 0, false)],
       mapAddr := t.mapAddr[r.addr.service.net := n],
       vRandom := t.vRandom + [n],
       vvNew := if rebuild then t.vvNew[b := t.vvNew[b] + {n}] else t.vvNew)
  }

  // A tried record, which is lost if its bucket is full.
  function TriedRead(key: Key, t: Tables, r: Record): Tables
    requires |t.vvTried| == TRIED_BUCKET_COUNT
  {
    var b := key.TriedBucket(r.addr.service);
    var n := t.nIdCount;
    if |t.vvTried[b]| < TRIED_BUCKET_SIZE then
      t.(mapInfo := t.mapInfo[n := Unpacked(r, |t.vRandom|, 0, true)],
         mapAddr := t.mapAddr[r.addr.service.net := n],
         vRandom := t.vRandom + [n], vvTried := t.vvTried[b := t.vvTried[b] + [n]], nIdCount := n + 1)
    else t.(nTried := t.nTried - 1)
  }

  // An index in bucket b. One that names no entry makes a blank one.
  function IndexRead(t: Tables, b: nat, nIndex: int, sameCount: bool): Tables
    requires b < |t.vvNew|
  {
    var info := if nIndex in t.mapInfo then t.mapInfo[nIndex] else DefaultInfo;
    if sameCount && info.nRefCount < NEW_BUCKETS_PER_ADDRESS then
      t.(mapInfo := t.mapInfo[nIndex := info.(nRefCount := info.nRefCount + 1)],
         vvNew := t.vvNew[b := t.vvNew[b] + {nIndex}])
    else t.(mapInfo := t.mapInfo[nIndex := info])
  }

  function NewsRead(key: Key, t: Tables, rs: seq<Record>, rebuild: bool): (r: Tables)
    requires |t.vvNew| == NEW_BUCKET_COUNT
    ensures |r.vvNew| == NEW_BUCKET_COUNT && r.vvTried == t.vvTried && r.nNew == t.nNew && r.nTried == t.nTried
  {
    if rs == [] then t else NewRead(key, NewsRead(key, t, rs[..|rs| - 1], rebuild), rs[|rs| - 1], rebuild)
  }

  function TriedsRead(key: Key, t: Tables, rs: seq<Record>): (r: Tables)
    requires |t.vvTried| == TRIED_BUCKET_COUNT
    ensures |r.vvTried| == TRIED_BUCKET_COUNT && r.vvNew == t.vvNew && r.nNew == t.nNew
  {
    if rs == [] then t else TriedRead(key, TriedsRead(key, t, rs[..|rs| - 1]), rs[|rs| - 1])
  }

  function BucketRead(t: Tables, b: nat, l: seq<int>, sameCount: bool): (r: Tables)
    requires b < |t.vvNew|
    ensures |r.vvNew| == |t.vvNew|
  {
    if l == [] then t else IndexRead(BucketRead(t, b, l[..|l| - 1], sameCount), b, l[|l| - 1], sameCount)
  }

  function BucketsRead(t: Tables, ls: seq<seq<int>>, sameCount: bool): (r: Tables)
    requires |ls| <= |t.vvNew|
    ensures |r.vvNew| == |t.vvNew|
  {
    if ls == [] then t else BucketRead(BucketsRead(t, ls[..|ls| - 1], sameCount), |ls| - 1, ls[|ls| - 1], sameCount)
  }

  function WithNews(key: Key, p: Peers): (r: Tables)
    ensures |r.vvNew| == NEW_BUCKET_COUNT && |r.vvTried| == TRIED_BUCKET_COUNT
  {
    var news := NewsRead(key, Blank(|p.news|, |p.trieds|), p.news, p.nUBuckets != NEW_BUCKET_COUNT);
    news.(nIdCount := news.nNew)
  }

  function WithEntries(key: Key, p: Peers): (r: Tables)
    ensures |r.vvNew| == NEW_BUCKET_COUNT
  {
    TriedsRead(key, WithNews(key, p), p.trieds)
  }

  function Restored(key: Key, p: Peers): Tables
    requires |p.buckets| <= NEW_BUCKET_COUNT
  {
    BucketsRead(WithEntries(key, p), p.buckets, p.nUBuckets == NEW_BUCKET_COUNT)
  }

  method ReadNew(am: AddrMan.AddrMan, r: Record, rebuild: bool)
    requires |am.vvNew| == NEW_BUCKET_COUNT
    modifies am
    ensures am.View() == NewRead(am.key, old(am.View()), r, rebuild)
  {
    var n := |am.vRandom|;
    var info := Unpacked(r, n, 0, false);
    am.mapAddr := am.mapAddr[r.addr.service.net := n];
    am.vRandom := am.vRandom + [n];
    if rebuild {
      var b := am.key.NewBucket(r.addr.service.net, r.source);
      am.vvNew := am.vvNew[b := am.vvNew[b] + {n}];
      info := info.(nRefCount := info.nRefCount + 1);
    }
    am.mapInfo := am.mapInfo[n := info];
  }

  method ReadNews(am: AddrMan.AddrMan, rs: seq<Record>, rebuild: bool)
    requires |am.vvNew| == NEW_BUCKET_COUNT
    modifies am
    ensures am.View() == NewsRead(am.key, old(am.View()), rs, rebuild)
  {
    hide NewRead;
    var n := 0;
    while n < |rs|
      invariant 0 <= n <= |rs| && am.View() == NewsRead(am.key, old(am.View()), rs[..n], rebuild)
    {
      assert rs[..n + 1][..n] == rs[..n];
      ReadNew(am, rs[n], rebuild);
      n := n + 1;
    }
    assert rs[..n] == rs;
  }

  method ReadTried(am: AddrMan.AddrMan, r: Record) returns (lost: int)
    requires |am.vvTried| == TRIED_BUCKET_COUNT
    modifies am
    ensures TriedRead(am.key, old(am.View()), r) == am.View().(nTried := am.nTried - lost)
    ensures lost == 0 || lost == 1
  {
    var b := am.key.TriedBucket(r.addr.service);
    if |am.vvTried[b]| < TRIED_BUCKET_SIZE {
      am.mapInfo := am.mapInfo[am.nIdCount := Unpacked(r, |am.vRandom|, 0, true)];
      am.mapAddr := am.mapAddr[r.addr.service.net := am.nIdCount];
      am.vRandom := am.vRandom + [am.nIdCount];
      am.vvTried := am.vvTried[b := am.vvTried[b] + [am.nIdCount]];
      am.nIdCount := am.nIdCount + 1;
      lost := 0;
    } else {
      lost := 1;
    }
  }

  // The count of lost entries is taken off at the end.
  lemma TriedReadCount(key: Key, t: Tables, r: Record, d: int)
    requires |t.vvTried| == TRIED_BUCKET_COUNT
    ensures TriedRead(key, t.(nTried := t.nTried - d), r) == TriedRead(key, t, r).(nTried := TriedRead(key, t, r).nTried - d)
  {}

  method ReadTrieds(am: AddrMan.AddrMan, rs: seq<Record>)
    requires |am.vvTried| == TRIED_BUCKET_COUNT
    modifies am
    ensures am.View() == TriedsRead(am.key, old(am.View()), rs)
  {
    hide TriedRead;
    var nLost := 0;
    var n := 0;
    while n < |rs|
      invariant 0 <= n <= |rs|
      invariant TriedsRead(am.key, old(am.View()), rs[..n]) == am.View().(nTried := am.nTried - nLost)
    {
      assert rs[..n + 1][..n] == rs[..n];
      TriedReadCount(am.key, am.View(), rs[n], nLost);
      var lost := ReadTried(am, rs[n]);
      nLost := nLost + lost;
      n := n + 1;
    }
    assert rs[..n] == rs;
    am.nTried := am.nTried - nLost;
  }

  method ReadIndex(am: AddrMan.AddrMan, b: nat, nIndex: int, sameCount: bool)
    requires b < |am.vvNew|
    modifies am
    ensures am.View() == IndexRead(old(am.View()), b, nIndex, sameCount) && |am.vvNew| == |old(am.vvNew)|
  {
    var info := if nIndex in am.mapInfo then am.mapInfo[nIndex] else DefaultInfo;
    if sameCount && info.nRefCount < NEW_BUCKETS_PER_ADDRESS {
      info := info.(nRefCount := info.nRefCount + 1);
      am.vvNew := am.vvNew[b := am.vvNew[b] + {nIndex}];
    }
    am.mapInfo := am.mapInfo[nIndex := info];
  }

  method ReadBucket(am: AddrMan.AddrMan, b: nat, l: seq<int>, sameCount: bool)
    requires b < |am.vvNew|
    modifies am
    ensures am.View() == BucketRead(old(am.View()), b, l, sameCount)
  {
    hide IndexRead;
    var n := 0;
    while n < |l|
      invariant 0 <= n <= |l| && b < |am.vvNew| && am.View() == BucketRead(old(am.View()), b, l[..n], sameCount)
    {
      assert l[..n + 1][..n] == l[..n];
      ReadIndex(am, b, l[n], sameCount);
      n := n + 1;
    }
    assert l[..n] == l;
  }

  // Replaces all tables by what is in the file. The object has the key the file was written with.
  method Read(am: AddrMan.AddrMan, p: Peers)
    requires |p.buckets| <= NEW_BUCKET_COUNT
    modifies am
    ensures am.View() == Restored(am.key, p)
  {
    hide NewsRead, TriedsRead, BucketRead;
    am.nNew, am.nTried := |p.news|, |p.trieds|;
    am.nIdCount, am.mapInfo, am.mapAddr, am.vRandom := 0, map[], map[], [];
    am.vvTried := seq(TRIED_BUCKET_COUNT, _ => []);
    am.vvNew := seq(NEW_BUCKET_COUNT, _ => {});
    assert am.View() == Blank(|p.news|, |p.trieds|);
    ReadNews(am, p.news, p.nUBuckets != NEW_BUCKET_COUNT);
    am.nIdCount := am.nNew;
    ReadTrieds(am, p.trieds);
    ghost var t := am.View();
    var b := 0;
    while b < |p.buckets|
      invariant 0 <= b <= |p.buckets| && |am.vvNew| == NEW_BUCKET_COUNT
      invariant am.View() == BucketsRead(t, p.buckets[..b], p.nUBuckets == NEW_BUCKET_COUNT)
    {
      assert p.buckets[..b + 1][..b] == p.buckets[..b];
      ReadBucket(am, b, p.buckets[b], p.nUBuckets == NEW_BUCKET_COUNT);
      b := b + 1;
    }
    assert p.buckets[..b] == p.buckets;
  }

  // ---------- what is read back ----------

  // The entries read so far have the records as data, their places as ids, and those before place N are new.
  ghost predicate Loaded(t: Tables, all: seq<Record>, N: nat) {
    && N <= |all| && |t.vRandom| == |all| && |t.vvNew| == NEW_BUCKET_COUNT
    && (forall i :: 0 <= i < |all| ==> t.vRandom[i] == i)
    && (forall i :: i in t.mapInfo <==> 0 <= i < |all|)
    && (forall i :: 0 <= i < |all| ==> t.mapInfo[i] == Unpacked(all[i], i, |Holders(t.vvNew, i)|, i >= N))
    && (forall b, i :: 0 <= b < NEW_BUCKET_COUNT && i in t.vvNew[b] ==> 0 <= i < N)
  }

  ghost predicate DistinctNets(rs: seq<Record>) {
    forall i, j :: 0 <= i < j < |rs| ==> rs[i].addr.service.net != rs[j].addr.service.net
  }

  lemma NewReadLoads(key: Key, t: Tables, rs: seq<Record>, r: Record)
    requires Loaded(t, rs, |rs|) && Addressed(t) && DistinctNets(rs + [r]) && Holders(t.vvNew, |rs|) == {}
    ensures var u := NewRead(key, t, r, false); Loaded(u, rs + [r], |rs| + 1) && Addressed(u)
  {
    var all := rs + [r];
    var u := NewRead(key, t, r, false);
    forall i | 0 <= i < |rs| ensures all[i] == rs[i] && rs[i].addr.service.net != r.addr.service.net {
      assert all[i].addr.service.net != all[|rs|].addr.service.net;
    }
    assert all[|rs|] == r;
    forall a | a in t.mapAddr ensures t.mapInfo[t.mapAddr[a]].Net() == a {}
  }

  lemma {:induction false} NewsLoad(key: Key, t: Tables, rs: seq<Record>)
    requires Loaded(t, [], 0) && Addressed(t) && DistinctNets(rs)
    ensures |t.vvNew| == NEW_BUCKET_COUNT
    ensures var u := NewsRead(key, t, rs, false); Loaded(u, rs, |rs|) && Addressed(u) && u.vvNew == t.vvNew && u.nIdCount == t.nIdCount
    decreases |rs|
  {
    if rs != [] {
      var front := rs[..|rs| - 1];
      NewsLoad(key, t, front);
      assert rs == front + [rs[|rs| - 1]];
      NoHolders(t, |front|);
      NewReadLoads(key, NewsRead(key, t, front, false), front, rs[|rs| - 1]);
    }
  }

  lemma NoHolders(t: Tables, i: int)
    requires forall b :: 0 <= b < |t.vvNew| ==> i !in t.vvNew[b]
    ensures Holders(t.vvNew, i) == {}
  {}

  lemma {:induction false} TriedReadLoads(key: Key, t: Tables, all: seq<Record>, N: nat, r: Record)
    requires Loaded(t, all, N) && Addressed(t) && DistinctNets(all + [r]) && t.nIdCount == |all|
    requires |t.vvTried| == TRIED_BUCKET_COUNT && |t.vvTried[key.TriedBucket(r.addr.service)]| < TRIED_BUCKET_SIZE
    ensures var u := TriedRead(key, t, r); Loaded(u, all + [r], N) && Addressed(u)
  {
    var both := all + [r];
    NoHolders(t, |all|);
    forall i | 0 <= i < |all| ensures both[i] == all[i] && all[i].addr.service.net != r.addr.service.net {
      assert both[i].addr.service.net != both[|all|].addr.service.net;
    }
    assert both[|all|] == r;
    forall a | a in t.mapAddr ensures t.mapInfo[t.mapAddr[a]].Net() == a {}
  }

  predicate Belongs(key: Key, all: seq<Record>, N: nat, b: nat, x: int) {
    N <= x < |all| && key.TriedBucket(all[x].addr.service) == b
  }

  // The tried buckets filled so far, by record.
  ghost predicate TriedSoFar(key: Key, t: Tables, all: seq<Record>, N: nat) {
    && |t.vvTried| == TRIED_BUCKET_COUNT
    && (forall b, i :: 0 <= b < TRIED_BUCKET_COUNT && 0 <= i < |t.vvTried[b]| ==> Belongs(key, all, N, b, t.vvTried[b][i]))
    && (forall x :: N <= x < |all| ==> x in t.vvTried[key.TriedBucket(all[x].addr.service)])
    && (forall b :: 0 <= b < TRIED_BUCKET_COUNT ==> Distinct(t.vvTried[b]) && |t.vvTried[b]| <= TRIED_BUCKET_SIZE)
  }

  lemma TriedReadFills(key: Key, t: Tables, all: seq<Record>, N: nat, r: Record)
    requires TriedSoFar(key, t, all, N) && t.nIdCount == |all| && N <= |all|
    requires |t.vvTried[key.TriedBucket(r.addr.service)]| < TRIED_BUCKET_SIZE
    ensures TriedSoFar(key, TriedRead(key, t, r), all + [r], N)
  {
    var both := all + [r];
    var b := key.TriedBucket(r.addr.service);
    var u := TriedRead(key, t, r);
    forall i | 0 <= i < |t.vvTried[b]| ensures t.vvTried[b][i] != |all| { assert Belongs(key, all, N, b, t.vvTried[b][i]); }
    assert multiset(u.vvTried[b]) == multiset(t.vvTried[b]) + multiset{|all|};
    forall c, i | 0 <= c < TRIED_BUCKET_COUNT && 0 <= i < |u.vvTried[c]| ensures Belongs(key, both, N, c, u.vvTried[c][i]) {
      assert i < |t.vvTried[c]| ==> Belongs(key, all, N, c, t.vvTried[c][i]);
    }
    forall x | N <= x < |both| ensures x in u.vvTried[key.TriedBucket(both[x].addr.service)] {
      if x == |all| { assert u.vvTried[b][|t.vvTried[b]|] == x; }
    }
  }

  // Distinct ids make no more than the bucket they come from.
  lemma {:induction false} FitsIn(l: seq<int>, order: seq<int>, bucket: seq<int>)
    requires Distinct(l) && forall j :: 0 <= j < |l| ==> 0 <= l[j] < |order| && order[l[j]] in bucket
    requires forall i, j :: 0 <= i < j < |order| ==> order[i] != order[j]
    ensures |l| <= |bucket|
  {
    var image := set j | 0 <= j < |l| :: order[l[j]];
    ImageSize(l, order, |l|);
    assert image <= set x | x in bucket;
    SubsetSize(image, set x | x in bucket);
    SetOfSeq(bucket);
  }

  lemma {:induction false} ImageSize(l: seq<int>, order: seq<int>, n: nat)
    requires n <= |l| && Distinct(l) && forall j :: 0 <= j < |l| ==> 0 <= l[j] < |order|
    requires forall i, j :: 0 <= i < j < |order| ==> order[i] != order[j]
    ensures |(set j | 0 <= j < n :: order[l[j]])| == n
  {
    if n > 0 {
      ImageSize(l, order, n - 1);
      var before := set j | 0 <= j < n - 1 :: order[l[j]];
      forall j | 0 <= j < n - 1 ensures order[l[j]] != order[l[n - 1]] { DistinctAt(l, j, n - 1); }
      assert (set j | 0 <= j < n :: order[l[j]]) == before + {order[l[n - 1]]};
    }
  }

  lemma {:induction false} SetOfSeq(s: seq<int>)
    ensures |(set x | x in s)| <= |s|
  {
    if s != [] {
      SetOfSeq(s[1..]);
      assert (set x | x in s) == (set x | x in s[1..]) + {s[0]};
    }
  }

  lemma {:induction false} PairsDistinct(s: seq<int>)
    requires forall i, j :: 0 <= i < j < |s| ==> s[i] != s[j]
    ensures Distinct(s)
  {
    if s != [] {
      PairsDistinct(s[1..]);
      assert s == [s[0]] + s[1..];
      forall j | 0 <= j < |s[1..]| ensures s[1..][j] != s[0] { assert s[1..][j] == s[j + 1]; }
      assert s[0] !in multiset(s[1..]);
    }
  }

  // Each tried record comes from a tried bucket of v, of no more than the allowed size, by its key.
  ghost predicate FromBuckets(key: Key, vvTried: seq<seq<int>>, triedIds: seq<int>, rs: seq<Record>) {
    && |vvTried| == TRIED_BUCKET_COUNT && |rs| == |triedIds|
    && (forall b :: 0 <= b < TRIED_BUCKET_COUNT ==> |vvTried[b]| <= TRIED_BUCKET_SIZE)
    && (forall i :: 0 <= i < |rs| ==> triedIds[i] in vvTried[key.TriedBucket(rs[i].addr.service)])
    && forall i, j :: 0 <= i < j < |rs| ==> triedIds[i] != triedIds[j]
  }

  // So there is room for every record: none is lost.
  lemma RoomForNext(key: Key, vvTried: seq<seq<int>>, triedIds: seq<int>, rs: seq<Record>, t: Tables, news: seq<Record>, n: nat)
    requires FromBuckets(key, vvTried, triedIds, rs) && n < |rs|
    requires TriedSoFar(key, t, news + rs[..n], |news|)
    ensures |t.vvTried[key.TriedBucket(rs[n].addr.service)]| < TRIED_BUCKET_SIZE
  {
    var N := |news|;
    var all := news + rs[..n];
    var b := key.TriedBucket(rs[n].addr.service);
    var l := t.vvTried[b];
    forall i | 0 <= i < |l| ensures N <= l[i] < N + n && triedIds[l[i] - N] in vvTried[b] {
      assert Belongs(key, all, N, b, l[i]);
      assert all[l[i]] == rs[l[i] - N];
    }
    var places := seq(|l| + 1, i requires 0 <= i < |l| + 1 => if i < |l| then l[i] - N else n);
    forall i, j | 0 <= i < j < |places| ensures places[i] != places[j] {
      if j < |l| { DistinctAt(l, i, j); }
    }
    PairsDistinct(places);
    FitsIn(places, triedIds, vvTried[b]);
  }

  lemma {:induction false} TriedsLoad(key: Key, vvTried: seq<seq<int>>, triedIds: seq<int>, rs: seq<Record>, t: Tables, news: seq<Record>, n: nat)
    requires FromBuckets(key, vvTried, triedIds, rs) && n <= |rs| && DistinctNets(news + rs)
    requires Loaded(t, news, |news|) && Addressed(t) && TriedSoFar(key, t, news, |news|) && t.nIdCount == |news|
    ensures |t.vvTried| == TRIED_BUCKET_COUNT
    ensures var u := TriedsRead(key, t, rs[..n]);
            && Loaded(u, news + rs[..n], |news|) && Addressed(u) && TriedSoFar(key, u, news + rs[..n], |news|)
            && u.nIdCount == |news| + n && u.nTried == t.nTried
  {
    if n == 0 {
      assert news + rs[..0] == news;
    } else {
      TriedsLoad(key, vvTried, triedIds, rs, t, news, n - 1);
      assert rs[..n][..n - 1] == rs[..n - 1];
      var all := news + rs[..n - 1];
      var r := rs[n - 1];
      assert news + rs[..n] == all + [r];
      var u := TriedsRead(key, t, rs[..n - 1]);
      RoomForNext(key, vvTried, triedIds, rs, u, news, n - 1);
      assert news + rs == (all + [r]) + rs[n..];
      FrontNets(all + [r], rs[n..]);
      hide Loaded, TriedSoFar, Addressed, TriedRead, DistinctNets, FromBuckets;
      assert |u.vvTried| == TRIED_BUCKET_COUNT;
      TriedReadStep(key, u, all, |news|, r);
    }
  }

  lemma {:induction false} TriedReadStep(key: Key, t: Tables, all: seq<Record>, N: nat, r: Record)
    requires Loaded(t, all, N) && Addressed(t) && TriedSoFar(key, t, all, N) && t.nIdCount == |all| && DistinctNets(all + [r])
    requires |t.vvTried[key.TriedBucket(r.addr.service)]| < TRIED_BUCKET_SIZE
    ensures var u := TriedRead(key, t, r);
            && Loaded(u, all + [r], N) && Addressed(u) && TriedSoFar(key, u, all + [r], N)
            && u.nIdCount == |all| + 1 && u.nTried == t.nTried
  {
    assert |t.vvTried| == TRIED_BUCKET_COUNT && N <= |all|;
    hide Loaded, TriedSoFar, Addressed, DistinctNets;
    TriedReadLoads(key, t, all, N, r);
    TriedReadFills(key, t, all, N, r);
  }

  // What is in the buckets read so far was in the same bucket when it was saved.
  ghost predicate Known(t: Tables, vvNew: seq<set<int>>, newIds: seq<int>) {
    && |vvNew| == NEW_BUCKET_COUNT && |t.vvNew| == NEW_BUCKET_COUNT
    && forall b, i :: 0 <= b < NEW_BUCKET_COUNT && i in t.vvNew[b] ==> 0 <= i < |newIds| && newIds[i] in vvNew[b]
  }

  // No entry was in more buckets than an entry may be.
  ghost predicate FewHolders(vvNew: seq<set<int>>, newIds: seq<int>) {
    forall i :: 0 <= i < |newIds| ==> |Holders(vvNew, newIds[i])| <= NEW_BUCKETS_PER_ADDRESS
  }

  lemma BelowLimit(t: Tables, vvNew: seq<set<int>>, newIds: seq<int>, b: nat, i: nat)
    requires Known(t, vvNew, newIds) && FewHolders(vvNew, newIds) && i < |newIds|
    requires b < NEW_BUCKET_COUNT && i !in t.vvNew[b] && newIds[i] in vvNew[b]
    ensures |Holders(t.vvNew, i)| < NEW_BUCKETS_PER_ADDRESS
  {
    var more := Holders(t.vvNew, i) + {b};
    assert more <= Holders(vvNew, newIds[i]);
    SubsetSize(more, Holders(vvNew, newIds[i]));
  }

  lemma {:induction false} IndexReadLoads(t: Tables, all: seq<Record>, vvNew: seq<set<int>>, newIds: seq<int>, b: nat, i: nat)
    requires Loaded(t, all, |newIds|) && Known(t, vvNew, newIds) && FewHolders(vvNew, newIds) && i < |newIds|
    requires b < NEW_BUCKET_COUNT && i !in t.vvNew[b] && newIds[i] in vvNew[b]
    ensures var u := IndexRead(t, b, i, true);
            && Loaded(u, all, |newIds|) && Known(u, vvNew, newIds)
            && u == t.(mapInfo := u.mapInfo, vvNew := t.vvNew[b := t.vvNew[b] + {i}])
  {
    BelowLimit(t, vvNew, newIds, b, i);
    HoldersGain(t.vvNew, b, i);
    hide Holders;
    var u := IndexRead(t, b, i, true);
    assert b !in Holders(t.vvNew, i) by { NotHolder(t.vvNew, b, i); }
    assert u.mapInfo == t.mapInfo[i := t.mapInfo[i].(nRefCount := t.mapInfo[i].nRefCount + 1)];
  }

  lemma NotHolder(vvNew: seq<set<int>>, b: nat, i: int)
    requires b < |vvNew| && i !in vvNew[b]
    ensures b !in Holders(vvNew, i)
  {}

  lemma {:induction false} BucketLoad(t: Tables, all: seq<Record>, vvNew: seq<set<int>>, newIds: seq<int>, b: nat, l: seq<int>, n: nat)
    requires Loaded(t, all, |newIds|) && Known(t, vvNew, newIds) && FewHolders(vvNew, newIds)
    requires b < NEW_BUCKET_COUNT && t.vvNew[b] == {} && Indices(newIds, vvNew[b], l) && n <= |l|
    ensures |t.vvNew| == NEW_BUCKET_COUNT
    ensures var u := BucketRead(t, b, l[..n], true);
            && Loaded(u, all, |newIds|) && Known(u, vvNew, newIds)
            && u == t.(mapInfo := u.mapInfo, vvNew := t.vvNew[b := Elements(l[..n])])
  {
    assert |t.vvNew| == NEW_BUCKET_COUNT == |vvNew|;
    hide Loaded, Known, FewHolders, Indices, Elements, IndexRead;
    ElementsGrow(newIds, vvNew[b], l, n);
    if n == 0 {
      assert t.vvNew[b := {}] == t.vvNew;
    } else {
      BucketLoad(t, all, vvNew, newIds, b, l, n - 1);
      assert l[..n][..n - 1] == l[..n - 1];
      var u := BucketRead(t, b, l[..n - 1], true);
      assert u.vvNew[b] == Elements(l[..n - 1]);
      IndexReadLoads(u, all, vvNew, newIds, b, l[n - 1]);
      SetBucketTwice(t.vvNew, b, Elements(l[..n - 1]), Elements(l[..n]));
    }
  }

  lemma SetBucketTwice(vvNew: seq<set<int>>, b: nat, x: set<int>, y: set<int>)
    requires b < |vvNew|
    ensures vvNew[b := x][b := y] == vvNew[b := y]
  {}

  function Elements(l: seq<int>): set<int> { set x | x in l }

  lemma ElementsGrow(newIds: seq<int>, s: set<int>, l: seq<int>, n: nat)
    requires Indices(newIds, s, l) && n <= |l|
    ensures n == 0 ==> Elements(l[..n]) == {}
    ensures n > 0 ==>
              && l[n - 1] !in Elements(l[..n - 1]) && Elements(l[..n]) == Elements(l[..n - 1]) + {l[n - 1]}
              && 0 <= l[n - 1] < |newIds| && newIds[l[n - 1]] in s
  {}

  // Bucket by bucket, the entries that were in it.
  ghost predicate Refilled(t: Tables, vvNew: seq<set<int>>, newIds: seq<int>, n: nat) {
    && |vvNew| == NEW_BUCKET_COUNT && |t.vvNew| == NEW_BUCKET_COUNT
    && (forall b, i :: 0 <= b < n && b < NEW_BUCKET_COUNT && 0 <= i < |newIds| ==> (i in t.vvNew[b] <==> newIds[i] in vvNew[b]))
    && (forall b :: 0 <= b < n && b < NEW_BUCKET_COUNT ==> |t.vvNew[b]| == |vvNew[b]|)
    && forall b :: n <= b < NEW_BUCKET_COUNT ==> t.vvNew[b] == {}
  }

  lemma {:induction false} BucketsLoad(t: Tables, all: seq<Record>, vvNew: seq<set<int>>, newIds: seq<int>, ls: seq<seq<int>>, n: nat)
    requires Loaded(t, all, |newIds|) && FewHolders(vvNew, newIds) && Refilled(t, vvNew, newIds, 0)
    requires n <= |ls| == NEW_BUCKET_COUNT && forall b :: 0 <= b < |ls| ==> Indices(newIds, vvNew[b], ls[b])
    ensures |t.vvNew| == NEW_BUCKET_COUNT
    ensures var u := BucketsRead(t, ls[..n], true);
            && Loaded(u, all, |newIds|) && Known(u, vvNew, newIds) && Refilled(u, vvNew, newIds, n)
            && u == t.(mapInfo := u.mapInfo, vvNew := u.vvNew)
  {
    if n > 0 {
      BucketsLoad(t, all, vvNew, newIds, ls, n - 1);
      assert ls[..n][..n - 1] == ls[..n - 1];
      var l := ls[n - 1];
      var u := BucketsRead(t, ls[..n - 1], true);
      assert l[..|l|] == l;
      BucketLoad(u, all, vvNew, newIds, n - 1, l, |l|);
      IndicesAre(newIds, vvNew[n - 1], l);
      hide Loaded, FewHolders, Indices, Known, Elements;
      RefilledNext(u, BucketsRead(t, ls[..n], true), vvNew, newIds, n - 1, Elements(l));
    }
  }

  lemma RefilledNext(t: Tables, u: Tables, vvNew: seq<set<int>>, newIds: seq<int>, n: nat, s: set<int>)
    requires Refilled(t, vvNew, newIds, n) && n < NEW_BUCKET_COUNT && u.vvNew == t.vvNew[n := s] && |s| == |vvNew[n]|
    requires forall i :: 0 <= i < |newIds| ==> (i in s <==> newIds[i] in vvNew[n])
    ensures Refilled(u, vvNew, newIds, n + 1)
  {}

  lemma IndicesAre(newIds: seq<int>, s: set<int>, l: seq<int>)
    requires Indices(newIds, s, l)
    ensures |Elements(l)| == |s|
    ensures forall i :: 0 <= i < |newIds| ==> (i in Elements(l) <==> newIds[i] in s)
  {
    SetOfDistinct(l);
  }

  lemma {:induction false} SetOfDistinct(l: seq<int>)
    requires forall j, k :: 0 <= j < k < |l| ==> l[j] != l[k]
    ensures |Elements(l)| == |l|
  {
    if l != [] {
      SetOfDistinct(l[1..]);
      assert l[0] !in l[1..];
      assert Elements(l) == Elements(l[1..]) + {l[0]};
    }
  }

  // ---------- the round trip ----------

  predicate SameEntry(i: Info, j: Info) { j == i.(nLastTry := 0, nRandomPos := j.nRandomPos) }

  // The same manager under other ids: entry i of w is entry order[i] of v. Only the time of the last
  // try is lost, and the place in vRandom is another.
  ghost predicate Renumbered(v: Tables, w: Tables, order: seq<int>) {
    && (forall i, j :: 0 <= i < j < |order| ==> order[i] != order[j])
    && (forall id :: id in v.mapInfo <==> id in order)
    && (forall i :: i in w.mapInfo <==> 0 <= i < |order|)
    && (forall i :: 0 <= i < |order| ==> order[i] in v.mapInfo && SameEntry(v.mapInfo[order[i]], w.mapInfo[i]))
    && |w.vvNew| == |v.vvNew| && |w.vvTried| == |v.vvTried| && w.nNew == v.nNew && w.nTried == v.nTried
    && (forall b, i :: 0 <= b < |v.vvNew| && 0 <= i < |order| ==> (i in w.vvNew[b] <==> order[i] in v.vvNew[b]))
    && (forall b, i :: 0 <= b < |v.vvTried| && 0 <= i < |order| ==> (i in w.vvTried[b] <==> order[i] in v.vvTried[b]))
  }

  // order lists the entries of v, the new ones first, and all holds their records.
  ghost predicate Lists(v: Tables, order: seq<int>, all: seq<Record>, N: nat) {
    && |all| == |order| && N <= |order|
    && (forall i, j :: 0 <= i < j < |order| ==> order[i] != order[j])
    && (forall id :: id in v.mapInfo <==> id in order)
    && (forall i :: 0 <= i < |order| ==> order[i] in v.mapInfo && all[i] == Packed(v.mapInfo[order[i]]))
    && (forall i :: 0 <= i < |order| ==> (v.mapInfo[order[i]].fInTried <==> i >= N))
  }

  lemma {:induction false} SavedLists(v: Tables, p: Peers, newIds: seq<int>, triedIds: seq<int>)
    requires SavedEntries(v, p, newIds, triedIds)
    ensures Lists(v, newIds + triedIds, p.news + p.trieds, |newIds|)
  {
    var order := newIds + triedIds;
    forall i | 0 <= i < |order|
      ensures order[i] in v.mapInfo && (p.news + p.trieds)[i] == Packed(v.mapInfo[order[i]]) && (v.mapInfo[order[i]].fInTried <==> i >= |newIds|)
    {
      if i < |newIds| {
        assert newIds[i] in NewIds(v);
      } else {
        assert triedIds[i - |newIds|] in TriedIds(v);
      }
    }
    forall id ensures id in v.mapInfo <==> id in order {
      assert id in v.mapInfo <==> id in NewIds(v) || id in TriedIds(v);
      assert id in order <==> id in newIds || id in triedIds;
    }
  }

  lemma ListedNets(v: Tables, order: seq<int>, all: seq<Record>, N: nat)
    requires Lists(v, order, all, N) && Addressed(v)
    ensures DistinctNets(all)
  {
    forall i, j | 0 <= i < j < |all| ensures all[i].addr.service.net != all[j].addr.service.net {
      var a, b := v.mapInfo[order[i]], v.mapInfo[order[j]];
      assert a.Net() in v.mapAddr && v.mapAddr[a.Net()] == order[i];
      assert b.Net() in v.mapAddr && v.mapAddr[b.Net()] == order[j];
    }
  }

  lemma TriedMember(key: Key, v: Tables, id: int)
    requires TriedOk(key, v) && id in TriedIds(v)
    ensures id in v.vvTried[key.TriedBucket(v.mapInfo[id].addr.service)]
  {}

  lemma SavedTried(key: Key, v: Tables, p: Peers, newIds: seq<int>, triedIds: seq<int>)
    requires Consistent(key, v) && SavedEntries(v, p, newIds, triedIds)
    ensures FromBuckets(key, v.vvTried, triedIds, p.trieds) && FewHolders(v.vvNew, newIds)
    ensures |p.news| == |newIds| == v.nNew && |p.trieds| == |triedIds| == v.nTried
  {
    EnumerationSize(newIds, NewIds(v));
    EnumerationSize(triedIds, TriedIds(v));
    forall i | 0 <= i < |p.trieds| ensures triedIds[i] in v.vvTried[key.TriedBucket(p.trieds[i].addr.service)] {
      assert triedIds[i] in TriedIds(v) && p.trieds[i] == Packed(v.mapInfo[triedIds[i]]);
      TriedMember(key, v, triedIds[i]);
    }
    forall i | 0 <= i < |newIds| ensures |Holders(v.vvNew, newIds[i])| <= NEW_BUCKETS_PER_ADDRESS {
      assert newIds[i] in NewIds(v);
    }
  }

  // The three phases of reading, one after the other.
  lemma NewsPhase(key: Key, p: Peers)
    requires DistinctNets(p.news) && p.nUBuckets == NEW_BUCKET_COUNT
    ensures var t := WithNews(key, p);
            && Loaded(t, p.news, |p.news|) && Addressed(t) && TriedSoFar(key, t, p.news, |p.news|)
            && t.nIdCount == t.nNew == |p.news| && t.nTried == |p.trieds|
            && forall b :: 0 <= b < NEW_BUCKET_COUNT ==> t.vvNew[b] == {}
  {
    var blank := Blank(|p.news|, |p.trieds|);
    BlankLoaded(|p.news|, |p.trieds|);
    hide Blank, DistinctNets;
    NewsLoad(key, blank, p.news);
    var news := NewsRead(key, blank, p.news, false);
    hide NewsRead;
    NewsReady(key, news, WithNews(key, p), p.news);
  }

  lemma TriedsPhase(key: Key, v: Tables, p: Peers, triedIds: seq<int>)
    requires DistinctNets(p.news + p.trieds) && p.nUBuckets == NEW_BUCKET_COUNT
    requires FromBuckets(key, v.vvTried, triedIds, p.trieds)
    ensures var t := WithEntries(key, p);
            && Loaded(t, p.news + p.trieds, |p.news|) && Addressed(t) && TriedSoFar(key, t, p.news + p.trieds, |p.news|)
            && t.nNew == |p.news| && t.nIdCount == |p.news + p.trieds| && t.nTried == |p.trieds|
            && forall b :: 0 <= b < NEW_BUCKET_COUNT ==> t.vvNew[b] == {}
  {
    FrontNets(p.news, p.trieds);
    NewsPhase(key, p);
    hide WithNews, FromBuckets, DistinctNets;
    TriedsLoad(key, v.vvTried, triedIds, p.trieds, WithNews(key, p), p.news, |p.trieds|);
    assert p.trieds[..|p.trieds|] == p.trieds;
  }

  lemma {:induction false} BucketsPhase(key: Key, v: Tables, p: Peers, newIds: seq<int>, triedIds: seq<int>)
    requires Saved(v, p, newIds, triedIds) && DistinctNets(p.news + p.trieds) && |v.vvNew| == NEW_BUCKET_COUNT
    requires FromBuckets(key, v.vvTried, triedIds, p.trieds) && FewHolders(v.vvNew, newIds)
    ensures var w := Restored(key, p); var all := p.news + p.trieds;
            && Loaded(w, all, |newIds|) && Addressed(w) && TriedSoFar(key, w, all, |newIds|)
            && Refilled(w, v.vvNew, newIds, NEW_BUCKET_COUNT)
            && w.nNew == |p.news| && w.nIdCount == |all| && w.nTried == |p.trieds|
  {
    TriedsPhase(key, v, p, triedIds);
    var t := WithEntries(key, p);
    hide WithEntries, FromBuckets, DistinctNets, FewHolders, Loaded, TriedSoFar;
    var all := p.news + p.trieds;
    assert Refilled(t, v.vvNew, newIds, 0);
    BucketsLoad(t, all, v.vvNew, newIds, p.buckets, |p.buckets|);
    assert p.buckets[..|p.buckets|] == p.buckets;
    SoFarSame(key, t, Restored(key, p), all, |newIds|);
  }

  lemma BlankLoaded(nNew: int, nTried: int)
    ensures var t := Blank(nNew, nTried);
            && Loaded(t, [], 0) && Addressed(t) && t.nNew == nNew && t.nTried == nTried
            && |t.vvTried| == TRIED_BUCKET_COUNT && |t.vvNew| == NEW_BUCKET_COUNT
            && (forall b :: 0 <= b < TRIED_BUCKET_COUNT ==> t.vvTried[b] == []) && forall b :: 0 <= b < NEW_BUCKET_COUNT ==> t.vvNew[b] == {}
  {}

  lemma FrontNets(a: seq<Record>, b: seq<Record>)
    requires DistinctNets(a + b)
    ensures DistinctNets(a)
  {
    forall i, j | 0 <= i < j < |a| ensures a[i].addr.service.net != a[j].addr.service.net {
      assert (a + b)[i] == a[i] && (a + b)[j] == a[j];
    }
  }

  // Only the count of ids changes between the new and the tried records.
  lemma NewsReady(key: Key, t: Tables, u: Tables, rs: seq<Record>)
    requires Loaded(t, rs, |rs|) && Addressed(t) && u == t.(nIdCount := |rs|)
    requires |t.vvTried| == TRIED_BUCKET_COUNT && forall b :: 0 <= b < TRIED_BUCKET_COUNT ==> t.vvTried[b] == []
    ensures Loaded(u, rs, |rs|) && Addressed(u) && TriedSoFar(key, u, rs, |rs|)
  {}

  lemma SoFarSame(key: Key, t: Tables, u: Tables, all: seq<Record>, N: nat)
    requires TriedSoFar(key, t, all, N) && Addressed(t) && Loaded(t, all, N) && Loaded(u, all, N)
    requires u == t.(mapInfo := u.mapInfo, vvNew := u.vvNew)
    ensures TriedSoFar(key, u, all, N) && Addressed(u)
  {
    assert forall i :: i in u.mapInfo <==> i in t.mapInfo;
    forall i | 0 <= i < |all| ensures u.mapInfo[i].Net() == t.mapInfo[i].Net() {}
    forall a | a in u.mapAddr ensures u.mapAddr[a] in u.mapInfo && u.mapInfo[u.mapAddr[a]].Net() == a {
      var i := t.mapAddr[a];
      assert i in t.mapInfo && t.mapInfo[i].Net() == a;
      assert 0 <= i < |all| && u.mapInfo[i].Net() == t.mapInfo[i].Net();
    }
  }

  lemma SameHolders(v: Tables, w: Tables, newIds: seq<int>, i: nat)
    requires Refilled(w, v.vvNew, newIds, NEW_BUCKET_COUNT) && i < |newIds|
    ensures Holders(w.vvNew, i) == Holders(v.vvNew, newIds[i])
  {
    forall b ensures b in Holders(w.vvNew, i) <==> b in Holders(v.vvNew, newIds[i]) {}
  }

  lemma SameReferences(v: Tables, w: Tables, order: seq<int>, all: seq<Record>, newIds: seq<int>, i: nat)
    requires Lists(v, order, all, |newIds|) && Loaded(w, all, |newIds|) && newIds <= order && i < |order|
    requires Refilled(w, v.vvNew, newIds, NEW_BUCKET_COUNT) && NewOk(v, NoId) && Stamped(v)
    ensures order[i] in v.mapInfo && |Holders(w.vvNew, i)| == v.mapInfo[order[i]].nRefCount
  {
    var info := v.mapInfo[order[i]];
    assert order[i] >= 0;
    if i < |newIds| {
      SameHolders(v, w, newIds, i);
      assert newIds[i] == order[i] && !info.fInTried;
    } else {
      assert info.fInTried && info.nRefCount == 0;
      NoHolders(w, i);
    }
  }

  // Each entry read has the statistics it had; its references are those it had too.
  lemma SameEntries(v: Tables, w: Tables, order: seq<int>, all: seq<Record>, newIds: seq<int>)
    requires Lists(v, order, all, |newIds|) && Loaded(w, all, |newIds|) && newIds <= order
    requires Refilled(w, v.vvNew, newIds, NEW_BUCKET_COUNT) && NewOk(v, NoId) && Stamped(v)
    ensures forall i :: 0 <= i < |order| ==> SameEntry(v.mapInfo[order[i]], w.mapInfo[i])
    ensures forall i :: 0 <= i < |newIds| ==>
              w.mapInfo[i].nRefCount == |Holders(w.vvNew, i)| && 1 <= w.mapInfo[i].nRefCount <= NEW_BUCKETS_PER_ADDRESS
  {
    forall i | 0 <= i < |order| ensures SameEntry(v.mapInfo[order[i]], w.mapInfo[i]) {
      SameReferences(v, w, order, all, newIds, i);
      hide Holders, NewOk, Stamped;
    }
    forall i | 0 <= i < |newIds| ensures 1 <= |Holders(w.vvNew, i)| <= NEW_BUCKETS_PER_ADDRESS { SameHolders(v, w, newIds, i); }
  }

  lemma LoadedCounted(w: Tables, all: seq<Record>, N: nat)
    requires Loaded(w, all, N) && w.nNew == N && w.nTried == |all| - N
    ensures Counted(w)
  {
    var news: seq<int> := seq(N, i => i);
    forall id | id in NewIds(w) ensures id in news { assert news[id] == id; }
    EnumerationSize(news, NewIds(w));
    var trieds: seq<int> := seq(|all| - N, i => N + i);
    forall id | id in TriedIds(w) ensures id in trieds { assert trieds[id - N] == id; }
    EnumerationSize(trieds, TriedIds(w));
  }

  lemma LoadedTried(key: Key, w: Tables, all: seq<Record>, N: nat)
    requires Loaded(w, all, N) && TriedSoFar(key, w, all, N)
    ensures TriedOk(key, w)
  {
    forall b, i | 0 <= b < TRIED_BUCKET_COUNT && 0 <= i < |w.vvTried[b]| ensures Filed(key, w.mapInfo, w.vvTried[b][i], b) {
      assert Belongs(key, all, N, b, w.vvTried[b][i]);
    }
  }

  lemma LoadedNew(v: Tables, w: Tables, order: seq<int>, all: seq<Record>, newIds: seq<int>)
    requires Lists(v, order, all, |newIds|) && Loaded(w, all, |newIds|) && newIds <= order
    requires Refilled(w, v.vvNew, newIds, NEW_BUCKET_COUNT) && NewOk(v, NoId) && Stamped(v)
    ensures NewOk(w, NoId)
  {
    SameEntries(v, w, order, all, newIds);
    hide Holders, Lists;
  }

  lemma LoadedIndexed(v: Tables, w: Tables, order: seq<int>, all: seq<Record>, N: nat)
    requires Lists(v, order, all, N) && Loaded(w, all, N) && Stamped(v) && w.nIdCount == |all|
    requires forall i :: 0 <= i < |order| ==> SameEntry(v.mapInfo[order[i]], w.mapInfo[i])
    ensures Indexed(w) && Stamped(w)
  {
    forall i | i in w.mapInfo ensures 0 <= i < w.nIdCount && w.mapInfo[i].nLastTry >= 0 && w.mapInfo[i].nLastSuccess >= 0 &&
      (w.mapInfo[i].fInTried ==> w.mapInfo[i].nLastSuccess > 0 && w.mapInfo[i].nRefCount == 0) {
      var info := v.mapInfo[order[i]];
      assert SameEntry(info, w.mapInfo[i]);
      assert TimedInfo(info);
      assert info.nLastSuccess >= 0 && (info.fInTried ==> info.nLastSuccess > 0 && info.nRefCount == 0);
    }
  }

  // The same tried buckets under the new ids.
  lemma SameTried(key: Key, v: Tables, w: Tables, order: seq<int>, all: seq<Record>, N: nat, b: nat, i: nat)
    requires Lists(v, order, all, N) && TriedSoFar(key, w, all, N) && TriedOk(key, v) && b < TRIED_BUCKET_COUNT && i < |order|
    ensures i in w.vvTried[b] <==> order[i] in v.vvTried[b]
  {
    var c := key.TriedBucket(all[i].addr.service);
    if i in w.vvTried[b] {
      var j :| 0 <= j < |w.vvTried[b]| && w.vvTried[b][j] == i;
      assert Belongs(key, all, N, b, w.vvTried[b][j]);
      TriedMember(key, v, order[i]);
    }
    if order[i] in v.vvTried[b] {
      var j :| 0 <= j < |v.vvTried[b]| && v.vvTried[b][j] == order[i];
      assert Filed(key, v.mapInfo, v.vvTried[b][j], b);
      assert i >= N && c == b && i in w.vvTried[c];
    }
  }

  // Whatever the writer enumerates, reading a saved manager gives a consistent one with the same entries,
  // in the same buckets.
  lemma {:induction false} RoundTrip(key: Key, v: Tables, p: Peers, newIds: seq<int>, triedIds: seq<int>)
    requires Consistent(key, v) && Saved(v, p, newIds, triedIds)
    ensures |p.buckets| == NEW_BUCKET_COUNT
    ensures Consistent(key, Restored(key, p)) && Renumbered(v, Restored(key, p), newIds + triedIds)
  {
    SavedLists(v, p, newIds, triedIds);
    ListedNets(v, newIds + triedIds, p.news + p.trieds, |newIds|);
    SavedTried(key, v, p, newIds, triedIds);
    assert |v.vvNew| == NEW_BUCKET_COUNT;
    BucketsPhase(key, v, p, newIds, triedIds);
    hide Restored, Saved, FromBuckets, FewHolders, DistinctNets, Settled, Lists, Loaded, TriedSoFar, Refilled;
    LoadedIsSame(key, v, Restored(key, p), newIds + triedIds, p.news + p.trieds, newIds);
  }

  lemma {:induction false} LoadedIsSame(key: Key, v: Tables, w: Tables, order: seq<int>, all: seq<Record>, newIds: seq<int>)
    requires Consistent(key, v) && Lists(v, order, all, |newIds|) && newIds <= order
    requires Loaded(w, all, |newIds|) && Addressed(w) && TriedSoFar(key, w, all, |newIds|)
    requires Refilled(w, v.vvNew, newIds, NEW_BUCKET_COUNT)
    requires w.nNew == v.nNew == |newIds| && w.nTried == v.nTried == |all| - |newIds| && w.nIdCount == |all|
    ensures Consistent(key, w) && Renumbered(v, w, order)
  {
    var N := |newIds|;
    assert |w.vvTried| == |v.vvTried| == TRIED_BUCKET_COUNT && |w.vRandom| == |all|;
    SameEntries(v, w, order, all, newIds);
    LoadedIndexed(v, w, order, all, N);
    LoadedCounted(w, all, N);
    LoadedTried(key, w, all, N);
    LoadedNew(v, w, order, all, newIds);
    RefilledAll(v, w, order, all, newIds);
    forall b, i | 0 <= b < |v.vvTried| && 0 <= i < |order| ensures i in w.vvTried[b] <==> order[i] in v.vvTried[b] {
      SameTried(key, v, w, order, all, N, b, i);
    }
    hide Indexed, Addressed, Stamped, TriedOk, NewOk, Counted, Refilled, TriedSoFar;
  }

  lemma RefilledAll(v: Tables, w: Tables, order: seq<int>, all: seq<Record>, newIds: seq<int>)
    requires Lists(v, order, all, |newIds|) && Loaded(w, all, |newIds|) && newIds <= order && NewOk(v, NoId)
    requires Refilled(w, v.vvNew, newIds, NEW_BUCKET_COUNT)
    ensures |w.vvNew| == |v.vvNew|
    ensures forall b, i :: 0 <= b < |v.vvNew| && 0 <= i < |order| ==> (i in w.vvNew[b] <==> order[i] in v.vvNew[b])
  {
    forall b, i | 0 <= b < |v.vvNew| && 0 <= i < |order| ensures i in w.vvNew[b] <==> order[i] in v.vvNew[b] {
      if i < |newIds| {
        assert order[i] == newIds[i];
      } else {
        var id := order[i];
        assert v.mapInfo[id].fInTried && id !in v.vvNew[b];
        assert i !in w.vvNew[b];
      }
    }
  }

  // Saving one manager and loading the file into another.
  method SaveAndLoad(am: AddrMan.AddrMan, other: AddrMan.AddrMan) returns (ghost order: seq<int>)
    requires am.Valid() && am != other && other.key == am.key
    modifies other
    ensures other.Valid() && Renumbered(am.View(), other.View(), order)
  {
    hide Settled, Renumbered, Saved, Restored;
    ghost var v := am.View();
    var p := Write(am.key, Tables(am.nIdCount, am.mapInfo, am.mapAddr, am.vRandom, am.nTried, am.vvTried, am.nNew, am.vvNew));
    ghost var newIds, triedIds :| Saved(v, p, newIds, triedIds);
    RoundTrip(am.key, v, p, newIds, triedIds);
    Read(other, p);
    order := newIds + triedIds;
  }
}
