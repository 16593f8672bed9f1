/** Reading an address file that was written with another number of new buckets: they are rebuilt, without
    a look at their size. */
module AddrRebuild {
  import opened AddrTables
  import opened AddrFile

  // The new records that belong to bucket b by their source.
  function Rebuilt(key: Key, news: seq<Record>, b: nat): set<int> {
    set i | 0 <= i < |news| && key.NewBucket(news[i].addr.service.net, news[i].source) == b
  }

  function RebuiltAll(key: Key, news: seq<Record>): seq<set<int>> { seq(NEW_BUCKET_COUNT, b requires b >= 0 => Rebuilt(key, news, b)) }

  // The records of a manager, in a file that names another number of new buckets.
  ghost predicate SavedElsewhere(v: Tables, p: Peers, newIds: seq<int>, triedIds: seq<int>) {
    && SavedEntries(v, p, newIds, triedIds) && p.nUBuckets != NEW_BUCKET_COUNT && |p.buckets| <= NEW_BUCKET_COUNT
    && forall b, j :: 0 <= b < |p.buckets| && 0 <= j < |p.buckets[b]| ==> 0 <= p.buckets[b][j] < |p.news|
  }

  lemma RebuiltNext(key: Key, rs: seq<Record>, r: Record)
    ensures var b := key.NewBucket(r.addr.service.net, r.source);
            RebuiltAll(key, rs + [r]) == RebuiltAll(key, rs)[b := RebuiltAll(key, rs)[b] + {|rs|}]
  {
    var all := rs + [r];
    forall b: nat ensures Rebuilt(key, all, b) ==
      if key.NewBucket(r.addr.service.net, r.source) == b then Rebuilt(key, rs, b) + {|rs|} else Rebuilt(key, rs, b)
    {
      assert forall i :: 0 <= i < |rs| ==> all[i] == rs[i];
    }
  }

  lemma RebuildLoads(key: Key, t: Tables, rs: seq<Record>, r: Record)
    requires Loaded(t, rs, |rs|) && Addressed(t) && DistinctNets(rs + [r]) && t.vvNew == RebuiltAll(key, rs)
    ensures |t.vvNew| == NEW_BUCKET_COUNT
    ensures var u := NewRead(key, t, r, true);
            Loaded(u, rs + [r], |rs| + 1) && Addressed(u) && u.vvNew == RebuiltAll(key, rs + [r])
  {
    var all := rs + [r];
    var b := key.NewBucket(r.addr.service.net, r.source);
    RebuiltNext(key, rs, r);
    HoldersGain(t.vvNew, b, |rs|);
    NoHolders(t, |rs|);
    hide Holders, RebuiltAll;
    forall i | 0 <= i < |rs| ensures all[i] == rs[i] && rs[i].addr.service.net != r.addr.service.net {
      assert all[i].addr.service.net != all[|rs|].addr.service.net;
    }
    assert all[|rs|] == r;
    assert |{b}| == 1;
    forall a | a in t.mapAddr ensures t.mapInfo[t.mapAddr[a]].Net() == a {}
  }

  lemma {:induction false} NewsRebuilt(key: Key, nNew: int, nTried: int, rs: seq<Record>)
    requires DistinctNets(rs)
    ensures |Blank(nNew, nTried).vvNew| == NEW_BUCKET_COUNT
    ensures var u := NewsRead(key, Blank(nNew, nTried), rs, true);
            && Loaded(u, rs, |rs|) && Addressed(u) && u.vvNew == RebuiltAll(key, rs)
            && u.nNew == nNew && u.nTried == nTried && u.vvTried == Blank(nNew, nTried).vvTried
    decreases |rs|
  {
    BlankLoaded(nNew, nTried);
    hide Loaded, Addressed, NewRead, Blank;
    if rs != [] {
      var front := rs[..|rs| - 1];
      assert rs == front + [rs[|rs| - 1]];
      FrontNets(front, [rs[|rs| - 1]]);
      NewsRebuilt(key, nNew, nTried, front);
      RebuildLoads(key, NewsRead(key, Blank(nNew, nTried), front, true), front, rs[|rs| - 1]);
    } else {
      NoneRebuilt(key, nNew, nTried);
    }
  }

  lemma NoneRebuilt(key: Key, nNew: int, nTried: int)
    ensures Blank(nNew, nTried).vvNew == RebuiltAll(key, [])
  {
    forall b: nat ensures Rebuilt(key, [], b) == {} {}
  }

  // The indices of the file are read over, and change nothing.
  lemma {:induction false} BucketIgnored(t: Tables, b: nat, l: seq<int>)
    requires b < |t.vvNew| && forall j :: 0 <= j < |l| ==> l[j] in t.mapInfo
    ensures BucketRead(t, b, l, false) == t
  {
    if l != [] {
      BucketIgnored(t, b, l[..|l| - 1]);
      assert t.mapInfo[l[|l| - 1] := t.mapInfo[l[|l| - 1]]] == t.mapInfo;
    }
  }

  lemma {:induction false} BucketsIgnored(t: Tables, ls: seq<seq<int>>)
    requires |ls| <= |t.vvNew| && forall b, j :: 0 <= b < |ls| && 0 <= j < |ls[b]| ==> ls[b][j] in t.mapInfo
    ensures BucketsRead(t, ls, false) == t
  {
    if ls != [] {
      var n := |ls| - 1;
      assert forall b :: 0 <= b < n ==> ls[..n][b] == ls[b];
      BucketsIgnored(t, ls[..n]);
      BucketIgnored(t, n, ls[n]);
    }
  }

  lemma RebuiltNewsPhase(key: Key, p: Peers)
    requires DistinctNets(p.news) && p.nUBuckets != NEW_BUCKET_COUNT
    ensures var t := WithNews(key, p);
            && Loaded(t, p.news, |p.news|) && Addressed(t) && TriedSoFar(key, t, p.news, |p.news|)
            && t.nIdCount == t.nNew == |p.news| && t.nTried == |p.trieds| && t.vvNew == RebuiltAll(key, p.news)
  {
    NewsRebuilt(key, |p.news|, |p.trieds|, p.news);
    BlankLoaded(|p.news|, |p.trieds|);
    var news := NewsRead(key, Blank(|p.news|, |p.trieds|), p.news, true);
    hide NewsRead, RebuiltAll, DistinctNets;
    NewsReady(key, news, WithNews(key, p), p.news);
  }

  lemma RebuiltEntriesPhase(key: Key, v: Tables, p: Peers, triedIds: seq<int>)
    requires DistinctNets(p.news + p.trieds) && p.nUBuckets != NEW_BUCKET_COUNT && FromBuckets(key, v.vvTried, triedIds, p.trieds)
    ensures var t := WithEntries(key, p);
            && Loaded(t, p.news + p.trieds, |p.news|) && Addressed(t) && TriedSoFar(key, t, p.news + p.trieds, |p.news|)
            && t.nNew == |p.news| && t.nIdCount == |p.news + p.trieds| && t.nTried == |p.trieds| && t.vvNew == RebuiltAll(key, p.news)
  {
    FrontNets(p.news, p.trieds);
    RebuiltNewsPhase(key, p);
    hide WithNews, FromBuckets, DistinctNets, RebuiltAll;
    TriedsLoad(key, v.vvTried, triedIds, p.trieds, WithNews(key, p), p.news, |p.trieds|);
    assert p.trieds[..|p.trieds|] == p.trieds;
  }

  // What reading gives: all entries, and the new ones in the buckets they belong to.
  lemma {:induction false} ElsewhereLoads(key: Key, v: Tables, p: Peers, newIds: seq<int>, triedIds: seq<int>)
    requires Consistent(key, v) && SavedElsewhere(v, p, newIds, triedIds)
    ensures var w := Restored(key, p); var all := p.news + p.trieds;
            && Lists(v, newIds + triedIds, all, |p.news|)
            && Loaded(w, all, |p.news|) && Addressed(w) && TriedSoFar(key, w, all, |p.news|) && w.vvNew == RebuiltAll(key, p.news)
            && w.nNew == |p.news| && w.nIdCount == |all| && w.nTried == |p.trieds|
  {
    SavedLists(v, p, newIds, triedIds);
    ListedNets(v, newIds + triedIds, p.news + p.trieds, |newIds|);
    SavedTried(key, v, p, newIds, triedIds);
    RebuiltEntriesPhase(key, v, p, triedIds);
    var t := WithEntries(key, p);
    InLoaded(t, p.news + p.trieds, |p.news|);
    hide Settled, SavedEntries, DistinctNets, FromBuckets, FewHolders, Lists, TriedSoFar, Addressed, WithEntries, Loaded, RebuiltAll;
    BucketsIgnored(t, p.buckets);
  }

  lemma InLoaded(t: Tables, all: seq<Record>, N: nat)
    requires Loaded(t, all, N)
    ensures forall i :: 0 <= i < N ==> i in t.mapInfo
  {}

  // An entry has the record it was written as, so its times are in order.
  lemma LoadedStamped(v: Tables, w: Tables, order: seq<int>, all: seq<Record>, N: nat)
    requires Lists(v, order, all, N) && Loaded(w, all, N) && Stamped(v) && w.nIdCount == |all|
    ensures Indexed(w) && Stamped(w)
  {
    hide Holders;
    forall i | i in w.mapInfo ensures 0 <= i < w.nIdCount && w.mapInfo[i].nLastTry >= 0 && w.mapInfo[i].nLastSuccess >= 0 &&
      (w.mapInfo[i].fInTried ==> w.mapInfo[i].nLastSuccess > 0 && w.mapInfo[i].nRefCount == 0) {
      var info := v.mapInfo[order[i]];
      assert TimedInfo(info);
      assert info.nLastSuccess >= 0 && (info.fInTried ==> info.nLastSuccess > 0);
      if i >= N { NoHolders(w, i); }
    }
  }

  // Each rebuilt entry is in one bucket.
  lemma RebuiltHolders(key: Key, news: seq<Record>, i: nat)
    requires i < |news|
    ensures Holders(RebuiltAll(key, news), i) == {key.NewBucket(news[i].addr.service.net, news[i].source)}
  {}

  lemma RebuiltNewIff(key: Key, w: Tables, all: seq<Record>, news: seq<Record>)
    requires Loaded(w, all, |news|) && w.vvNew == RebuiltAll(key, news)
    ensures NewOk(w, NoId) <==> forall b :: 0 <= b < NEW_BUCKET_COUNT ==> |Rebuilt(key, news, b)| <= NEW_BUCKET_SIZE
  {
    forall i | 0 <= i < |news| ensures |Holders(w.vvNew, i)| == 1 { RebuiltHolders(key, news, i); }
    assert forall b :: 0 <= b < NEW_BUCKET_COUNT ==> w.vvNew[b] == Rebuilt(key, news, b);
    hide Holders, Rebuilt, RebuiltAll;
    assert forall i :: i in w.mapInfo && !w.mapInfo[i].fInTried ==> 0 <= i < |news|;
    assert forall i :: 0 <= i < |news| ==> w.mapInfo[i].nRefCount == 1;
    assert forall i :: 0 <= i < |news| ==> i in w.mapInfo && !w.mapInfo[i].fInTried;
  }

  // The manager that is read is consistent exactly if no rebuilt bucket is too full.
  lemma {:induction false} RebuiltIff(key: Key, v: Tables, p: Peers, newIds: seq<int>, triedIds: seq<int>)
    requires Consistent(key, v) && SavedElsewhere(v, p, newIds, triedIds)
    ensures Consistent(key, Restored(key, p)) <==> forall b :: 0 <= b < NEW_BUCKET_COUNT ==> |Rebuilt(key, p.news, b)| <= NEW_BUCKET_SIZE
  {
    ElsewhereLoads(key, v, p, newIds, triedIds);
    var w, all := Restored(key, p), p.news + p.trieds;
    assert Stamped(v);
    hide Restored, SavedElsewhere, Rebuilt;
    LoadedStamped(v, w, newIds + triedIds, all, |p.news|);
    LoadedCounted(w, all, |p.news|);
    LoadedTried(key, w, all, |p.news|);
    RebuiltNewIff(key, w, all, p.news);
    hide Indexed, Addressed, Stamped, TriedOk, NewOk, Counted;
  }
}
