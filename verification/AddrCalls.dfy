/** What the calls on the address manager do to the entries, field by field. */
module AddrCalls {
  import opened AddrTables
  import opened AddrEvict
  import opened AddrMan

  // All that an entry says of its address, whatever buckets hold it.
  predicate SameEntry(i: Info, j: Info) {
    && i.addr == j.addr && i.source == j.source
    && i.nLastTry == j.nLastTry && i.nLastSuccess == j.nLastSuccess && i.nAttempts == j.nAttempts
  }

  // The entry of this address and port.
  lemma FindServiceIs(key: Key, v: Tables, s: Service, id: int)
    requires Consistent(key, v) && id in v.mapInfo
    ensures FindService(v, s) == id <==> v.mapInfo[id].addr.service == s
  {
    hide TriedOk, NewOk, Counted, Indexed;
    assert id >= 0;
  }

  // Attempt_ notes the time of the try and counts it, at the entry of this address and port and at no other.
  lemma AttemptedIs(key: Key, v: Tables, s: Service, nTime: int, id: int)
    requires Consistent(key, v) && id in v.mapInfo
    ensures var (i, j) := (v.mapInfo[id], Attempted(v, s, nTime).mapInfo[id]);
            if i.addr.service == s then
              j.nLastTry == nTime && j.nAttempts == i.nAttempts + 1 && j.addr == i.addr && j.nLastSuccess == i.nLastSuccess
            else j == i
  {
    FindServiceIs(key, v, s, id);
    hide Consistent;
  }

  // Connected_ moves the time of that entry, if it is more than 1200 seconds behind.
  lemma ConnectedIs(key: Key, v: Tables, s: Service, nTime: int, id: int)
    requires Consistent(key, v) && id in v.mapInfo
    ensures var (i, j) := (v.mapInfo[id], ConnectedTo(v, s, nTime).mapInfo[id]);
            if i.addr.service == s && i.addr.nTime + 1200 < nTime then j == i.(addr := Address(s, i.addr.nServices, nTime)) else j == i
  {
    FindServiceIs(key, v, s, id);
    hide Consistent;
  }

  // ---------- an address that answered ----------

  // Good_ marks that entry as reached and tried; all the others stay as they are, but for one of a full tried bucket,
  // which goes back to the new buckets.
  lemma {:induction false} GoodIs(key: Key, v: Tables, s: Service, nTime: int, w: Tables, id: int)
    requires Consistent(key, v) && |v.vvTried| == TRIED_BUCKET_COUNT && |v.vvNew| == NEW_BUCKET_COUNT
    requires GoodTo(key, v, s, nTime, w) && id in v.mapInfo
    ensures id in w.mapInfo
    ensures v.mapInfo[id].addr.service == s ==>
              var j := w.mapInfo[id];
              && j.addr == Address(s, v.mapInfo[id].addr.nServices, nTime) && j.nLastTry == nTime && j.nLastSuccess == nTime
              && j.nAttempts == 0 && j.fInTried
    ensures v.mapInfo[id].addr.service != s ==> SameEntry(w.mapInfo[id], v.mapInfo[id]) && (w.mapInfo[id].fInTried ==> v.mapInfo[id].fInTried)
    ensures v.mapInfo[id].addr.service != s && v.mapInfo[id].fInTried && !w.mapInfo[id].fInTried ==>
              exists b: nat :: b < TRIED_BUCKET_COUNT && b == key.TriedBucket(s) && |v.vvTried[b]| >= 64
  {
    FindServiceIs(key, v, s, id);
    hide Consistent;
    var at := FindService(v, s);
    if at in v.mapInfo && !v.mapInfo[at].fInTried {
      var u := Praised(v, at, nTime);
      assert u.mapInfo[at].addr.service == s by { assert v.mapInfo[at].addr.service == s; }
      var nOrigin: nat :| nOrigin < NEW_BUCKET_COUNT && at in v.vvNew[nOrigin] && TriedTo(key, u, at, nOrigin, w);
      MovedIs(key, u, at, nOrigin, w, id);
    }
  }

  // Taking the place of another entry, or a free one, changes where the two are held and nothing else.
  lemma ExchangedEntries(key: Key, u: Tables, at: int, nOrigin: nat, bucket: seq<int>, nPos: nat, id: int)
    requires at in u.mapInfo && |u.vvTried| == TRIED_BUCKET_COUNT && |u.vvNew| == NEW_BUCKET_COUNT
    requires nOrigin < NEW_BUCKET_COUNT && nPos < |bucket| && bucket[nPos] in u.mapInfo && bucket[nPos] != at && id in u.mapInfo
    ensures var w := Exchanged(key, u, at, nOrigin, bucket, nPos);
            && id in w.mapInfo && SameEntry(w.mapInfo[id], u.mapInfo[id])
            && if id == at then w.mapInfo[id].fInTried else w.mapInfo[id].fInTried ==> u.mapInfo[id].fInTried
  {
    hide Fallback, Cleared, Key.TriedBucket;
  }

  lemma MovedIs(key: Key, u: Tables, at: int, nOrigin: nat, w: Tables, id: int)
    requires at in u.mapInfo && |u.vvTried| == TRIED_BUCKET_COUNT && |u.vvNew| == NEW_BUCKET_COUNT && TriedTo(key, u, at, nOrigin, w)
    requires id in u.mapInfo && !u.mapInfo[at].fInTried
    ensures id in w.mapInfo && SameEntry(w.mapInfo[id], u.mapInfo[id])
    ensures if id == at then w.mapInfo[id].fInTried else w.mapInfo[id].fInTried ==> u.mapInfo[id].fInTried
    ensures id != at && u.mapInfo[id].fInTried && !w.mapInfo[id].fInTried ==> |u.vvTried[key.TriedBucket(u.mapInfo[at].addr.service)]| >= 64
  {
    hide Sound, Shuffled, EvictAt, Exchanged, Cleared, Key.TriedBucket;
    if |u.vvTried[key.TriedBucket(u.mapInfo[at].addr.service)]| >= TRIED_BUCKET_SIZE {
      var n :| ExchangedTo(key, u, at, nOrigin, n, w);
      var was := u.vvTried[key.TriedBucket(u.mapInfo[at].addr.service)];
      EvictedIsTried(key, u, at, nOrigin, Shuffled(was, n, |n|), EvictAt(u.mapInfo, was, n));
      ExchangedEntries(key, u, at, nOrigin, Shuffled(was, n, |n|), EvictAt(u.mapInfo, was, n), id);
    }
  }

  lemma ExchangedBuckets(key: Key, v: Tables, id: int, nOrigin: nat, bucket: seq<int>, nPos: nat, c: nat)
    requires id in v.mapInfo && |v.vvTried| == TRIED_BUCKET_COUNT && |v.vvNew| == NEW_BUCKET_COUNT && c < NEW_BUCKET_COUNT
    requires nOrigin < NEW_BUCKET_COUNT && nPos < |bucket| && bucket[nPos] in v.mapInfo && bucket[nPos] != id
    ensures |Exchanged(key, v, id, nOrigin, bucket, nPos).vvNew| == NEW_BUCKET_COUNT
    ensures var (w, evicted) := (Exchanged(key, v, id, nOrigin, bucket, nPos), bucket[nPos]);
            var b := key.NewBucket(v.mapInfo[evicted].Net(), v.mapInfo[evicted].source);
            && id !in w.vvNew[c]
            && (evicted in w.vvNew[c] <==> evicted in v.vvNew[c] || c == if |v.vvNew[b] - {id}| < 64 then b else nOrigin)
  {
    hide Key.TriedBucket, Key.NewBucket;
  }

  // The evicted entry goes to the new bucket of its own source, or, if that has 64 entries without the one that
  // takes its place, to the one that came from.
  lemma {:induction false} EvictedGoesTo(key: Key, v: Tables, id: int, nOrigin: nat, n: seq<nat>, w: Tables)
    requires id in v.mapInfo && |v.vvTried| == TRIED_BUCKET_COUNT && |v.vvNew| == NEW_BUCKET_COUNT && ExchangedTo(key, v, id, nOrigin, n, w)
    ensures var was := v.vvTried[key.TriedBucket(v.mapInfo[id].addr.service)];
            var evicted := Shuffled(was, n, |n|)[EvictAt(v.mapInfo, was, n)];
            && evicted in v.mapInfo && evicted != id && nOrigin < NEW_BUCKET_COUNT
            && var b := key.NewBucket(v.mapInfo[evicted].Net(), v.mapInfo[evicted].source);
            && |w.vvNew| == NEW_BUCKET_COUNT
            && forall c :: 0 <= c < NEW_BUCKET_COUNT ==>
                 && id !in w.vvNew[c]
                 && (evicted in w.vvNew[c] <==> evicted in v.vvNew[c] || c == if |v.vvNew[b] - {id}| < 64 then b else nOrigin)
  {
    hide Sound, Shuffled, EvictAt, Exchanged, Key.TriedBucket, Key.NewBucket;
    var was := v.vvTried[key.TriedBucket(v.mapInfo[id].addr.service)];
    var bucket, nPos := Shuffled(was, n, |n|), EvictAt(v.mapInfo, was, n);
    EvictedIsTried(key, v, id, nOrigin, bucket, nPos);
    var evicted := bucket[nPos];
    var b := key.NewBucket(v.mapInfo[evicted].Net(), v.mapInfo[evicted].source);
    ExchangedBuckets(key, v, id, nOrigin, bucket, nPos, 0);
    forall c | 0 <= c < NEW_BUCKET_COUNT
      ensures id !in w.vvNew[c]
      ensures evicted in w.vvNew[c] <==> evicted in v.vvNew[c] || c == if |v.vvNew[b] - {id}| < 64 then b else nOrigin
    {
      ExchangedBuckets(key, v, id, nOrigin, bucket, nPos, c);
    }
  }

  // ---------- an address heard of ----------

  // A known address heard of again: its services are added, and its time follows only news that is an hour further, or
  // for news more than a day old a day, on top of the penalty, which is taken off it.
  lemma RefreshedIs(i: Info, addr: Address, nTimePenalty: int, nNow: int)
    ensures var j := Refreshed(i, addr, nTimePenalty, nNow);
            && SameEntry(i, j.(addr := i.addr)) && j.fInTried == i.fInTried && j.nRefCount == i.nRefCount && j.nRandomPos == i.nRandomPos
            && j.addr.service == i.addr.service && j.addr.nServices == i.addr.nServices + addr.nServices
            && var ahead := if nNow < addr.nTime + 86_400 then 3600 else 86_400;
            && if addr.nTime != 0 && (i.addr.nTime == 0 || i.addr.nTime + ahead + nTimePenalty < addr.nTime) then
                 j.addr.nTime == if addr.nTime > nTimePenalty then addr.nTime - nTimePenalty else 0
               else j.addr.nTime == i.addr.nTime
  {}

  // It is worth another bucket if it is newer than known, the entry is not tried, and in fewer than four buckets.
  lemma NewsIff(i: Info, addr: Address)
    requires i.nRefCount <= 4
    ensures !NothingNew(i, addr) <==> addr.nTime != 0 && (i.addr.nTime < addr.nTime || i.addr.nTime == 0) && !i.fInTried && i.nRefCount < 4
  {}

  // A reference put into a bucket costs at most one entry: one the bucket held, and had as its last reference.
  lemma {:induction false} DueIs(v: Tables, b: nat, id: int, nNow: int, w: Tables, k: int)
    requires Indexed(v) && b < |v.vvNew| && (forall y :: y in v.vvNew[b] ==> y in v.mapInfo) && DueTo(v, b, id, nNow, w)
    requires k in v.mapInfo && id in v.mapInfo && id !in v.vvNew[b] && |v.vvNew[b]| <= 64
    ensures |w.vvNew| == |v.vvNew| && id in w.vvNew[b] && |w.vvNew[b]| <= 64
    ensures forall c :: 0 <= c < |v.vvNew| && c != b ==> w.vvNew[c] == v.vvNew[c]
    ensures w.vvNew[b] <= v.vvNew[b] + {id} && (|v.vvNew[b]| < 64 ==> w.vvNew[b] == v.vvNew[b] + {id})
    ensures k in w.mapInfo ==> SameEntry(w.mapInfo[k], v.mapInfo[k]) && w.mapInfo[k].fInTried == v.mapInfo[k].fInTried
    ensures k !in w.mapInfo ==> |v.vvNew[b]| == 64 && k in v.vvNew[b] && k !in w.vvNew[b] && v.mapInfo[k].nRefCount == 1
  {
    if |v.vvNew[b]| < NEW_BUCKET_SIZE {
      hide Indexed, Victim;
    } else {
      var x := DueVictim(v, b, id, nNow, w);
      ReplacedIs(v, b, id, x, k);
      hide DueTo, Victim, Unref, Indexed, Inserted;
    }
  }

  lemma DueVictim(v: Tables, b: nat, id: int, nNow: int, w: Tables) returns (x: int)
    requires Indexed(v) && b < |v.vvNew| && (forall y :: y in v.vvNew[b] ==> y in v.mapInfo) && DueTo(v, b, id, nNow, w)
    requires |v.vvNew[b]| >= 64
    ensures x in v.vvNew[b] && |Unref(v, b, x).vvNew| == |v.vvNew| && w == Inserted(Unref(v, b, x), b, id)
  {
    var n;
    n, x :| Drawn4(n, |v.vvNew[b]|) && Victim(v, v.vvNew[b], nNow, n, x) && w == Inserted(Unref(v, b, x), b, id);
    VictimIs(v, v.vvNew[b], nNow, n, x);
    UnrefSize(v, b, x);
    hide Victim, Unref, Indexed;
  }

  // One entry of the bucket is replaced.
  lemma ReplacedIs(v: Tables, b: nat, id: int, x: int, k: int)
    requires Indexed(v) && b < |v.vvNew| && x in v.vvNew[b] && x in v.mapInfo
    requires k in v.mapInfo && id in v.mapInfo && id !in v.vvNew[b] && |v.vvNew[b]| == 64
    ensures |Unref(v, b, x).vvNew| == |v.vvNew|
    ensures var w := Inserted(Unref(v, b, x), b, id);
            && w.vvNew == v.vvNew[b := v.vvNew[b] - {x} + {id}] && |w.vvNew[b]| == 64
            && (k in w.mapInfo ==> SameEntry(w.mapInfo[k], v.mapInfo[k]) && w.mapInfo[k].fInTried == v.mapInfo[k].fInTried)
            && (k !in w.mapInfo ==> k == x && v.mapInfo[k].nRefCount == 1)
  {
    UnrefSpares(v, b, x, id);
    if k != x { UnrefSpares(v, b, x, k); } else { UnrefVictim(v, b, x); }
    hide Unref, Indexed;
  }

  lemma UnrefVictim(v: Tables, b: nat, x: int)
    requires Indexed(v) && x in v.mapInfo && b < |v.vvNew|
    ensures var u := Unref(v, b, x);
            if v.mapInfo[x].nRefCount == 1 then x !in u.mapInfo
            else x in u.mapInfo && u.mapInfo[x] == v.mapInfo[x].(nRefCount := v.mapInfo[x].nRefCount - 1)
  {
    if v.mapInfo[x].nRefCount == 1 { ErasedIsWithout(WithRef(v, x, -1), x); }
  }

  // The further reference of Add_ for an address not known before.
  lemma {:induction false} AddedStart(key: Key, v: Tables, addr: Address, source: NetAddr, nTimePenalty: int, nNow: int, w: Tables)
    requires Consistent(key, v) && AddTo(key, v, addr, source, nTimePenalty, nNow, w)
    requires forall i :: i in v.mapInfo ==> v.mapInfo[i].Net() != addr.service.net
    ensures var (f, b) := (Fresh(v, addr, source, nTimePenalty), key.NewBucket(addr.service.net, source));
            && Indexed(f) && b < |f.vvNew| == NEW_BUCKET_COUNT && (forall y :: y in f.vvNew[b] ==> y in f.mapInfo)
            && v.nIdCount !in f.vvNew[b] && |f.vvNew[b]| <= 64 && DueTo(f, b, v.nIdCount, nNow, w)
    ensures v.nIdCount !in v.mapInfo
  {
    NotKnown(v, addr.service.net);
    assert Addressed(v) && Stamped(v);
    hide Consistent, DueTo, Indexed, Addressed;
    NotFound(v, addr.service.net);
    IntroduceReady(key, v, addr, source, nTimePenalty);
    BucketRoom(key, Fresh(v, addr, source, nTimePenalty), v.nIdCount, key.NewBucket(addr.service.net, source));
    hide Settled;
  }

  lemma NotKnown(v: Tables, net: NetAddr)
    requires forall i :: i in v.mapInfo ==> v.mapInfo[i].Net() != net
    ensures Addressed(v) ==> FindIn(v, net) !in v.mapInfo || FindIn(v, net) == NoId
    ensures Addressed(v) && NoId !in v.mapInfo ==> FindIn(v, net) !in v.mapInfo
  {}

  // Add_ for an address not known before: one more entry, of that address, source and time less the penalty, never
  // tried, in the bucket that address and source choose.
  lemma {:induction false} AddedIs(key: Key, v: Tables, addr: Address, source: NetAddr, nTimePenalty: int, nNow: int, w: Tables, k: int)
    requires Consistent(key, v) && AddTo(key, v, addr, source, nTimePenalty, nNow, w) && k in v.mapInfo
    requires forall i :: i in v.mapInfo ==> v.mapInfo[i].Net() != addr.service.net
    ensures v.nIdCount !in v.mapInfo && v.nIdCount in w.mapInfo
    ensures SameEntry(w.mapInfo[v.nIdCount],
                      Info(Address(addr.service, addr.nServices, if addr.nTime > nTimePenalty then addr.nTime - nTimePenalty else 0),
                           source, 0, 0, 0, 1, false, 0))
    ensures |w.vvNew| == NEW_BUCKET_COUNT && v.nIdCount in w.vvNew[key.NewBucket(addr.service.net, source)]
    ensures k in w.mapInfo ==> SameEntry(w.mapInfo[k], v.mapInfo[k])
  {
    AddedStart(key, v, addr, source, nTimePenalty, nNow, w);
    hide Consistent, AddTo, DueTo, Indexed;
    var f, b := Fresh(v, addr, source, nTimePenalty), key.NewBucket(addr.service.net, source);
    DueIs(f, b, v.nIdCount, nNow, w, v.nIdCount);
    DueIs(f, b, v.nIdCount, nNow, w, k);
  }

  lemma BucketRoom(key: Key, v: Tables, pending: int, b: nat)
    requires Settled(key, v, pending) && b < NEW_BUCKET_COUNT
    ensures |v.vvNew| == NEW_BUCKET_COUNT && |v.vvNew[b]| <= 64
  {}
}
