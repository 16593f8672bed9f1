/** The address manager: methods that update the five indexes in place, and what any run of them keeps. */
module AddrMan {
  import opened Basics
  import opened AddrTables
  import opened AddrEvict

  const HORIZON_DAYS := 30
  const RETRIES := 3
  const MAX_FAILURES := 10
  const MIN_FAIL_DAYS := 7
  const GETADDR_MAX_PCT := 23
  const GETADDR_MAX := 2500

  predicate IsTerrible(i: Info, nNow: int) {
    if i.nLastTry != 0 && i.nLastTry >= nNow - 60 then false
    else
      || i.addr.nTime > nNow + 10 * 60
      || i.addr.nTime == 0 || nNow - i.addr.nTime > HORIZON_DAYS * 86400
      || (i.nLastSuccess == 0 && i.nAttempts >= RETRIES)
      || (nNow - i.nLastSuccess > MIN_FAIL_DAYS * 86400 && i.nAttempts >= MAX_FAILURES)
  }

  // ---------- which entries are given up ----------

  // Tried within the last minute.
  predicate JustTried(i: Info, nNow: int) { i.nLastTry != 0 && nNow - i.nLastTry <= 60 }

  // Not heard of for thirty days, or only from more than ten minutes ahead; or tried three times and never reached;
  // or not reached for seven days and tried ten times.
  predicate GivenUp(i: Info, nNow: int) {
    || i.addr.nTime == 0 || nNow - i.addr.nTime > 2_592_000 || i.addr.nTime - nNow > 600
    || (i.nLastSuccess == 0 && i.nAttempts >= 3)
    || (nNow - i.nLastSuccess > 604_800 && i.nAttempts >= 10)
  }

  // Heard of within thirty days and reached within seven.
  predicate InGoodStanding(i: Info, nNow: int) {
    && i.addr.nTime != 0 && nNow - 2_592_000 <= i.addr.nTime <= nNow + 600
    && i.nLastSuccess != 0 && nNow - 604_800 <= i.nLastSuccess
  }

  lemma TerribleIff(i: Info, nNow: int)
    ensures IsTerrible(i, nNow) <==> GivenUp(i, nNow) && !JustTried(i, nNow)
    ensures InGoodStanding(i, nNow) ==> !GivenUp(i, nNow)
  {}

  // ---------- what each call may do ----------

  function FindIn(v: Tables, net: NetAddr): int {
    if net in v.mapAddr && v.mapAddr[net] in v.mapInfo then v.mapAddr[net] else NoId
  }

  // The entry of exactly this service, port included.
  function FindService(v: Tables, s: Service): (id: int)
    ensures id in v.mapInfo || id == NoId
  {
    var id := FindIn(v, s.net);
    if id in v.mapInfo && v.mapInfo[id].addr.service == s then id else NoId
  }

  function Attempted(v: Tables, s: Service, nTime: int): Tables {
    var id := FindService(v, s);
    if id !in v.mapInfo then v
    else SetInfo(v, id, v.mapInfo[id].(nLastTry := nTime, nAttempts := v.mapInfo[id].nAttempts + 1))
  }

  function SetTime(i: Info, nTime: int): Info { i.(addr := i.addr.(nTime := nTime)) }

  function ConnectedTo(v: Tables, s: Service, nTime: int): Tables {
    var id := FindService(v, s);
    if id !in v.mapInfo || nTime - v.mapInfo[id].addr.nTime <= 20 * 60 then v
    else SetInfo(v, id, SetTime(v.mapInfo[id], nTime))
  }

  function Praised(v: Tables, id: int, nTime: int): Tables
    requires id in v.mapInfo
  {
    SetInfo(v, id, SetTime(v.mapInfo[id], nTime).(nLastSuccess := nTime, nLastTry := nTime, nAttempts := 0))
  }

  // An entry of the new buckets becomes tried; if its bucket is full another entry makes room.
  ghost predicate TriedTo(key: Key, v: Tables, id: int, nOrigin: nat, w: Tables)
    requires id in v.mapInfo && |v.vvTried| == TRIED_BUCKET_COUNT && |v.vvNew| == NEW_BUCKET_COUNT
  {
    if |v.vvTried[key.TriedBucket(v.mapInfo[id].addr.service)]| < TRIED_BUCKET_SIZE then w == Promoted(key, v, id)
    else exists n :: ExchangedTo(key, v, id, nOrigin, n, w)
  }

  // The exchange that the numbers n lead to.
  ghost predicate ExchangedTo(key: Key, v: Tables, id: int, nOrigin: nat, n: seq<nat>, w: Tables)
    requires id in v.mapInfo && |v.vvTried| == TRIED_BUCKET_COUNT
  {
    var was := v.vvTried[key.TriedBucket(v.mapInfo[id].addr.service)];
    && was != [] && Drawn(n, |was|)
    && var bucket, nPos := Shuffled(was, n, |n|), EvictAt(v.mapInfo, was, n);
    && CanExchange(key, v, id, nOrigin, bucket, nPos)
    && (EvictedIsTried(key, v, id, nOrigin, bucket, nPos); w == Exchanged(key, v, id, nOrigin, bucket, nPos))
  }

  ghost predicate GoodTo(key: Key, v: Tables, s: Service, nTime: int, w: Tables)
    requires |v.vvTried| == TRIED_BUCKET_COUNT && |v.vvNew| == NEW_BUCKET_COUNT
  {
    var id := FindService(v, s);
    if id !in v.mapInfo then w == v
    else if v.mapInfo[id].fInTried then w == Praised(v, id, nTime)
    else exists nOrigin: nat :: nOrigin < NEW_BUCKET_COUNT && id in v.vvNew[nOrigin] && TriedTo(key, Praised(v, id, nTime), id, nOrigin, w)
  }

  // How many entries of the bucket come before x.
  ghost function Rank(s: set<int>, x: int): nat { |Below(s, x)| }
  ghost function Below(s: set<int>, x: int): set<int> { set y | y in s && y < x }

  ghost predicate SomeTerrible(v: Tables, s: set<int>, nNow: int)
    requires forall y :: y in s ==> y in v.mapInfo
  {
    exists y :: y in s && IsTerrible(v.mapInfo[y], nNow)
  }

  // The entry a full new bucket loses: the first terrible one, or the oldest of those at the ranks drawn.
  ghost predicate Victim(v: Tables, s: set<int>, nNow: int, n: seq<nat>, x: int)
    requires forall y :: y in s ==> y in v.mapInfo
  {
    && x in s
    && if SomeTerrible(v, s, nNow) then
         IsTerrible(v.mapInfo[x], nNow) && forall y :: y in s && y < x ==> !IsTerrible(v.mapInfo[y], nNow)
       else
         && Rank(s, x) in n
         && (forall y :: y in s && Rank(s, y) in n ==> v.mapInfo[x].addr.nTime <= v.mapInfo[y].addr.nTime)
         && (forall y :: y in s && Rank(s, y) in n && y < x ==> v.mapInfo[x].addr.nTime < v.mapInfo[y].addr.nTime)
  }

  // The reference due to `id` is put into bucket b, at another entry's cost if the bucket is full.
  ghost predicate DueTo(v: Tables, b: nat, id: int, nNow: int, w: Tables)
    requires Indexed(v) && b < |v.vvNew| && forall y :: y in v.vvNew[b] ==> y in v.mapInfo
  {
    if |v.vvNew[b]| < NEW_BUCKET_SIZE then w == Inserted(v, b, id)
    else exists n, x :: Drawn4(n, |v.vvNew[b]|) && Victim(v, v.vvNew[b], nNow, n, x) && w == Inserted(Unref(v, b, x), b, id)
  }

  predicate Drawn4(n: seq<nat>, size: nat) { |n| == 4 && forall j :: 0 <= j < 4 ==> n[j] < size }

  // What a full bucket loses, by the times and attempts of its entries: the first that is given up and was not just tried.
  // An entry just tried, or in good standing, is lost only if there is no such entry and it is the oldest of those drawn.
  lemma VictimIs(v: Tables, s: set<int>, nNow: int, n: seq<nat>, x: int)
    requires (forall y :: y in s ==> y in v.mapInfo) && Victim(v, s, nNow, n, x)
    ensures SomeTerrible(v, s, nNow) <==> exists y :: y in s && GivenUp(v.mapInfo[y], nNow) && !JustTried(v.mapInfo[y], nNow)
    ensures x in s
    ensures SomeTerrible(v, s, nNow) ==>
              && GivenUp(v.mapInfo[x], nNow) && !JustTried(v.mapInfo[x], nNow) && !InGoodStanding(v.mapInfo[x], nNow)
              && forall y :: y in s && y < x ==> JustTried(v.mapInfo[y], nNow) || !GivenUp(v.mapInfo[y], nNow)
    ensures !SomeTerrible(v, s, nNow) ==>
              && Rank(s, x) in n
              && forall y :: y in s && Rank(s, y) in n ==>
                   v.mapInfo[x].addr.nTime < v.mapInfo[y].addr.nTime || (v.mapInfo[x].addr.nTime == v.mapInfo[y].addr.nTime && x <= y)
  {
    forall y | y in s
      ensures IsTerrible(v.mapInfo[y], nNow) <==> GivenUp(v.mapInfo[y], nNow) && !JustTried(v.mapInfo[y], nNow)
      ensures InGoodStanding(v.mapInfo[y], nNow) ==> !GivenUp(v.mapInfo[y], nNow)
    {
      TerribleIff(v.mapInfo[y], nNow);
    }
    hide IsTerrible, GivenUp, JustTried, InGoodStanding;
  }

  // So while some entry of a full bucket is given up, a further address takes the place of none that was just tried
  // or is in good standing.
  lemma DueSpares(v: Tables, b: nat, id: int, nNow: int, w: Tables, x: int)
    requires Indexed(v) && b < |v.vvNew| && (forall y :: y in v.vvNew[b] ==> y in v.mapInfo) && DueTo(v, b, id, nNow, w)
    requires x in v.vvNew[b] && (JustTried(v.mapInfo[x], nNow) || InGoodStanding(v.mapInfo[x], nNow))
    requires exists y :: y in v.vvNew[b] && GivenUp(v.mapInfo[y], nNow) && !JustTried(v.mapInfo[y], nNow)
    ensures b < |w.vvNew| && x in w.vvNew[b] && id in w.vvNew[b]
  {
    hide GivenUp, JustTried, InGoodStanding;
    if |v.vvNew[b]| >= NEW_BUCKET_SIZE {
      var n, z :| Drawn4(n, |v.vvNew[b]|) && Victim(v, v.vvNew[b], nNow, n, z) && w == Inserted(Unref(v, b, z), b, id);
      VictimIs(v, v.vvNew[b], nNow, n, z);
      UnrefSize(v, b, z);
    }
  }

  // Whether an address that is heard of again is news enough to look for another bucket.
  predicate NothingNew(i: Info, addr: Address) {
    || addr.nTime == 0 || (i.addr.nTime != 0 && addr.nTime <= i.addr.nTime)
    || i.fInTried || i.nRefCount == NEW_BUCKETS_PER_ADDRESS
  }

  function Refreshed(i: Info, addr: Address, nTimePenalty: int, nNow: int): Info {
    var nUpdateInterval := if nNow - addr.nTime < 24 * 60 * 60 then 60 * 60 else 24 * 60 * 60;
    var stale := addr.nTime != 0 && (i.addr.nTime == 0 || i.addr.nTime < addr.nTime - nUpdateInterval - nTimePenalty);
    var j := if stale then SetTime(i, Max(0, addr.nTime - nTimePenalty)) else i;
    j.(addr := j.addr.(nServices := j.addr.nServices + addr.nServices))
  }

  function Fresh(v: Tables, addr: Address, source: NetAddr, nTimePenalty: int): Tables {
    var c := Created(v, addr, source);
    var i := c.mapInfo[v.nIdCount];
    c.(nNew := v.nNew + 1, mapInfo := c.mapInfo[v.nIdCount := SetTime(i, Max(0, addr.nTime - nTimePenalty)).(nRefCount := 1)])
  }

  lemma {:induction false} FreshKeeps(key: Key, v: Tables, addr: Address, source: NetAddr, nTimePenalty: int)
    requires Consistent(key, v) && addr.service.net !in v.mapAddr
    ensures Settled(key, Fresh(v, addr, source, nTimePenalty), v.nIdCount)
  {
    assert v.nIdCount >= 0;
    hide Settled;
    var w := Fresh(v, addr, source, nTimePenalty);
    CreatedKeeps(key, v, w, v.nIdCount, w.mapInfo[v.nIdCount]);
  }

  lemma {:induction false} RefreshKeeps(key: Key, v: Tables, id: int, addr: Address, nTimePenalty: int, nNow: int)
    requires Consistent(key, v) && id in v.mapInfo
    ensures Consistent(key, SetInfo(v, id, Refreshed(v.mapInfo[id], addr, nTimePenalty, nNow)))
  {
    assert v.mapInfo[id].nLastTry >= 0;
    hide Settled;
    SetInfoKeeps(key, v, NoId, id, Refreshed(v.mapInfo[id], addr, nTimePenalty, nNow));
  }

  lemma BucketKnown(key: Key, v: Tables, pending: int, b: nat)
    requires Settled(key, v, pending) && b < NEW_BUCKET_COUNT
    ensures |v.vvNew| == NEW_BUCKET_COUNT && forall y :: y in v.vvNew[b] ==> y in v.mapInfo
  {}

  lemma {:induction false} DueKeeps(key: Key, v: Tables, b: nat, id: int, nNow: int, w: Tables)
    requires Settled(key, v, id) && b < NEW_BUCKET_COUNT && id in v.mapInfo && !v.mapInfo[id].fInTried && id !in v.vvNew[b]
    requires (BucketKnown(key, v, id, b); DueTo(v, b, id, nNow, w))
    ensures Consistent(key, w)
  {
    if |v.vvNew[b]| < NEW_BUCKET_SIZE {
      InsertedKeeps(key, v, b, id);
    } else {
      var n, x :| Drawn4(n, |v.vvNew[b]|) && Victim(v, v.vvNew[b], nNow, n, x) && w == Inserted(Unref(v, b, x), b, id);
      UnrefKeeps(key, v, b, x, id);
      UnrefSpares(v, b, x, id);
      hide Settled, Unref;
      InsertedKeeps(key, Unref(v, b, x), b, id);
    }
  }

  // Dropping x from a bucket makes room there and leaves another entry in place.
  lemma UnrefSpares(v: Tables, b: nat, x: int, id: int)
    requires Indexed(v) && x in v.mapInfo && b < |v.vvNew| && x in v.vvNew[b] && id in v.mapInfo && id != x
    ensures var u := Unref(v, b, x);
            && u.vvNew == v.vvNew[b := v.vvNew[b] - {x}] && |u.vvNew[b]| == |v.vvNew[b]| - 1
            && id in u.mapInfo && u.mapInfo[id] == v.mapInfo[id].(nRandomPos := u.mapInfo[id].nRandomPos)
  {
    if v.mapInfo[x].nRefCount == 1 {
      var u := WithRef(v, x, -1);
      ErasedIsWithout(u, x);
      WithoutEntry(u, Erased(u, x), x, id);
    }
  }

  // Another bucket for a known entry, unless it is in that one already.
  ghost predicate ReferencedTo(key: Key, v: Tables, id: int, source: NetAddr, nNow: int, w: Tables)
    requires Consistent(key, v) && id in v.mapInfo && !v.mapInfo[id].fInTried && v.mapInfo[id].nRefCount < NEW_BUCKETS_PER_ADDRESS
  {
    var b := key.NewBucket(v.mapInfo[id].Net(), source);
    if id in v.vvNew[b] then w == v
    else
      BumpedKeeps(key, v, id);
      BucketKnown(key, v, NoId, b);
      DueTo(WithRef(v, id, 1), b, id, nNow, w)
  }

  // Add_ with an address that is routable. The coin toss for a further bucket may go either way.
  ghost predicate AddTo(key: Key, v: Tables, addr: Address, source: NetAddr, nTimePenalty: int, nNow: int, w: Tables)
    requires Consistent(key, v)
  {
    var id := FindIn(v, addr.service.net);
    if id in v.mapInfo then
      var i := Refreshed(v.mapInfo[id], addr, nTimePenalty, nNow);
      RefreshKeeps(key, v, id, addr, nTimePenalty, nNow);
      NewRefs(v, NoId, id);
      w == SetInfo(v, id, i) || (!NothingNew(i, addr) && ReferencedTo(key, SetInfo(v, id, i), id, source, nNow, w))
    else
      var b := key.NewBucket(addr.service.net, source);
      NotFound(v, addr.service.net);
      FreshKeeps(key, v, addr, source, nTimePenalty);
      BucketKnown(key, v, NoId, b);
      DueTo(Fresh(v, addr, source, nTimePenalty), b, v.nIdCount, nNow, w)
  }

  lemma NewRefs(v: Tables, pending: int, id: int)
    requires NewOk(v, pending) && id in v.mapInfo
    ensures v.mapInfo[id].fInTried || 1 <= v.mapInfo[id].nRefCount <= NEW_BUCKETS_PER_ADDRESS
  {}

  lemma NotFound(v: Tables, net: NetAddr)
    requires Addressed(v) && FindIn(v, net) !in v.mapInfo
    ensures net !in v.mapAddr
  {}

  lemma {:induction false} AddKeeps(key: Key, v: Tables, addr: Address, source: NetAddr, nTimePenalty: int, nNow: int, w: Tables)
    requires Consistent(key, v) && AddTo(key, v, addr, source, nTimePenalty, nNow, w)
    ensures Consistent(key, w)
  {
    var id := FindIn(v, addr.service.net);
    if id in v.mapInfo {
      NewRefs(v, NoId, id);
      hide Settled, ReferencedTo;
      RefreshKeeps(key, v, id, addr, nTimePenalty, nNow);
      var u := SetInfo(v, id, Refreshed(v.mapInfo[id], addr, nTimePenalty, nNow));
      if w != u { ReferencedKeeps(key, u, id, source, nNow, w); }
    } else {
      NotFound(v, addr.service.net);
      hide Settled, DueTo;
      FreshAddKeeps(key, v, addr, source, nTimePenalty, nNow, w);
    }
  }

  lemma {:induction false} ReferencedKeeps(key: Key, v: Tables, id: int, source: NetAddr, nNow: int, w: Tables)
    requires Consistent(key, v) && id in v.mapInfo && !v.mapInfo[id].fInTried && v.mapInfo[id].nRefCount < NEW_BUCKETS_PER_ADDRESS
    requires ReferencedTo(key, v, id, source, nNow, w)
    ensures Consistent(key, w)
  {
    var b := key.NewBucket(v.mapInfo[id].Net(), source);
    BucketKnown(key, v, NoId, b);
    BumpedKeeps(key, v, id);
    hide Settled, DueTo;
    if id !in v.vvNew[b] { DueKeeps(key, WithRef(v, id, 1), b, id, nNow, w); }
  }

  lemma {:induction false} FreshAddKeeps(key: Key, v: Tables, addr: Address, source: NetAddr, nTimePenalty: int, nNow: int, w: Tables)
    requires Consistent(key, v) && addr.service.net !in v.mapAddr
    requires (BucketKnown(key, v, NoId, key.NewBucket(addr.service.net, source)); FreshKeeps(key, v, addr, source, nTimePenalty);
              DueTo(Fresh(v, addr, source, nTimePenalty), key.NewBucket(addr.service.net, source), v.nIdCount, nNow, w))
    ensures Consistent(key, w)
  {
    FreshKeeps(key, v, addr, source, nTimePenalty);
    var b := key.NewBucket(addr.service.net, source);
    assert v.nIdCount !in v.vvNew[b];
    hide Settled, DueTo;
    DueKeeps(key, Fresh(v, addr, source, nTimePenalty), b, v.nIdCount, nNow, w);
  }

  lemma {:induction false} TriedKeeps(key: Key, v: Tables, id: int, nOrigin: nat, w: Tables)
    requires Sound(key, v) && id in v.mapInfo && !v.mapInfo[id].fInTried
    requires nOrigin < NEW_BUCKET_COUNT && |v.vvTried| == TRIED_BUCKET_COUNT && |v.vvNew| == NEW_BUCKET_COUNT && TriedTo(key, v, id, nOrigin, w)
    ensures Sound(key, w) && id in w.mapInfo && w.mapInfo[id].fInTried && MovedFrom(v, w, id)
  {
    hide Sound, Shuffled, EvictAt, Exchanged, Promoted, MovedFrom;
    if |v.vvTried[key.TriedBucket(v.mapInfo[id].addr.service)]| < TRIED_BUCKET_SIZE {
      PromotedKeeps(key, v, id);
      PromotedMoves(key, v, id);
    } else {
      var n :| ExchangedTo(key, v, id, nOrigin, n, w);
      var was := v.vvTried[key.TriedBucket(v.mapInfo[id].addr.service)];
      ExchangedKeeps(key, v, id, nOrigin, Shuffled(was, n, |n|), EvictAt(v.mapInfo, was, n));
      ExchangedMoves(key, v, id, nOrigin, Shuffled(was, n, |n|), EvictAt(v.mapInfo, was, n));
    }
  }

  lemma PromotedMoves(key: Key, v: Tables, id: int)
    requires id in v.mapInfo && |v.vvTried| == TRIED_BUCKET_COUNT && |v.vvNew| == NEW_BUCKET_COUNT
    ensures var w := Promoted(key, v, id); id in w.mapInfo && w.mapInfo[id].fInTried && MovedFrom(v, w, id)
  {}

  lemma ExchangedMoves(key: Key, v: Tables, id: int, nOrigin: nat, bucket: seq<int>, nPos: nat)
    requires id in v.mapInfo && |v.vvTried| == TRIED_BUCKET_COUNT && |v.vvNew| == NEW_BUCKET_COUNT
    requires nOrigin < NEW_BUCKET_COUNT && nPos < |bucket| && bucket[nPos] in v.mapInfo
    ensures var w := Exchanged(key, v, id, nOrigin, bucket, nPos); id in w.mapInfo && w.mapInfo[id].fInTried && MovedFrom(v, w, id)
  {}

  // Entries have been moved, none but id to a tried bucket, and nothing else about them has changed.
  ghost predicate MovedFrom(v: Tables, w: Tables, id: int) {
    && w.mapInfo.Keys == v.mapInfo.Keys
    && (forall k :: k in v.mapInfo && k != id && w.mapInfo[k].fInTried ==> v.mapInfo[k].fInTried)
    && forall k :: k in v.mapInfo ==> w.mapInfo[k] == v.mapInfo[k].(nRefCount := w.mapInfo[k].nRefCount, fInTried := w.mapInfo[k].fInTried)
  }

  lemma {:induction false} PraiseKeeps(key: Key, v: Tables, id: int, nTime: int)
    requires Consistent(key, v) && id in v.mapInfo
    ensures Sound(key, Praised(v, id, nTime))
  {
    var w := Praised(v, id, nTime);
    assert Numbered(w) && Indexed(w) && Similar(v, w) by { hide TriedOk, NewOk, Counted, Addressed; }
    hide Similar, Indexed, Numbered, TriedOk, NewOk, Counted, Addressed, Praised;
    SimilarTried(key, v, w);
    SimilarCounted(v, w);
    SimilarNew(v, w, NoId);
  }

  lemma SettledIsSound(key: Key, v: Tables)
    requires Consistent(key, v)
    ensures Sound(key, v) && Timed(v)
  {
    hide Indexed, Addressed, TriedOk, NewOk, Counted;
  }

  // Good_ keeps everything but the times, and those exactly if the time is positive or the address unknown.
  lemma {:induction false} GoodKeepsIff(key: Key, v: Tables, s: Service, nTime: int, w: Tables)
    requires Consistent(key, v) && |v.vvTried| == TRIED_BUCKET_COUNT && |v.vvNew| == NEW_BUCKET_COUNT && GoodTo(key, v, s, nTime, w)
    ensures Sound(key, w)
    ensures Consistent(key, w) <==> nTime > 0 || FindService(v, s) !in v.mapInfo
  {
    var id := FindService(v, s);
    SettledIsSound(key, v);
    hide Settled, TriedTo, Sound;
    if id in v.mapInfo {
      PraiseKeeps(key, v, id, nTime);
      var u := Praised(v, id, nTime);
      assert u.mapInfo.Keys == v.mapInfo.Keys && forall k :: k in v.mapInfo && k != id ==> u.mapInfo[k] == v.mapInfo[k];
      if !v.mapInfo[id].fInTried {
        var nOrigin: nat :| nOrigin < NEW_BUCKET_COUNT && id in v.vvNew[nOrigin] && TriedTo(key, u, id, nOrigin, w);
        TriedKeeps(key, u, id, nOrigin, w);
      }
      GoodTimes(v, w, id, nTime);
      SoundAndTimed(key, w);
    }
  }

  lemma GoodTimes(v: Tables, w: Tables, id: int, nTime: int)
    requires id in v.mapInfo && Timed(v) && MovedFrom(Praised(v, id, nTime), w, id) && w.mapInfo[id].fInTried
    ensures Timed(w) <==> nTime > 0
  {
    assert w.mapInfo[id].nLastSuccess == nTime && w.mapInfo[id].nLastTry == nTime;
  }

  lemma SoundAndTimed(key: Key, w: Tables)
    requires Sound(key, w)
    ensures Consistent(key, w) <==> Timed(w)
  {
    hide Indexed, Addressed, TriedOk, NewOk, Counted;
  }

  // Marking an attempt keeps the tables consistent exactly if the time is not negative, or nothing is marked;
  // marking a connection does so at any time.
  lemma {:induction false} AttemptKeepsIff(key: Key, v: Tables, s: Service, nTime: int)
    requires Consistent(key, v)
    ensures Consistent(key, Attempted(v, s, nTime)) <==> nTime >= 0 || FindService(v, s) !in v.mapInfo
    ensures Consistent(key, ConnectedTo(v, s, nTime))
  {
    var id := FindService(v, s);
    if id in v.mapInfo {
      assert v.mapInfo[id].nLastTry >= 0;
      assert Attempted(v, s, nTime).mapInfo[id].nLastTry == nTime;
      hide Settled;
      if nTime >= 0 { SetInfoKeeps(key, v, NoId, id, Attempted(v, s, nTime).mapInfo[id]); }
      SetInfoKeeps(key, v, NoId, id, SetTime(v.mapInfo[id], nTime));
    }
  }

  // ---------- any run of calls ----------

  datatype Call =
    | AddCall(addr: Address, source: NetAddr, nTimePenalty: int, nNow: int)
    | GoodCall(service: Service, nTime: int)
    | AttemptCall(service: Service, nTime: int)
    | ConnectedCall(service: Service, nTime: int)
    | GetAddrCall

  // Clocks read after 1970.
  predicate Timely(c: Call) {
    match c
    case GoodCall(_, nTime) => nTime > 0
    case AttemptCall(_, nTime) => nTime >= 0
    case _ => true
  }

  ghost predicate CallTo(key: Key, v: Tables, c: Call, w: Tables)
    requires Consistent(key, v)
  {
    match c
    case AddCall(addr, source, nTimePenalty, nNow) => AddTo(key, v, addr, source, nTimePenalty, nNow, w)
    case GoodCall(s, nTime) => GoodTo(key, v, s, nTime, w)
    case AttemptCall(s, nTime) => w == Attempted(v, s, nTime)
    case ConnectedCall(s, nTime) => w == ConnectedTo(v, s, nTime)
    case GetAddrCall => Reordered(v, w)
  }

  lemma {:induction false} CallKeeps(key: Key, v: Tables, c: Call, w: Tables)
    requires Consistent(key, v) && Timely(c) && CallTo(key, v, c, w)
    ensures Consistent(key, w)
  {
    assert Indexed(v) && |v.vvTried| == TRIED_BUCKET_COUNT && |v.vvNew| == NEW_BUCKET_COUNT;
    hide Settled, AddTo, GoodTo, Reordered, Attempted, ConnectedTo;
    match c
    case AddCall(addr, source, nTimePenalty, nNow) => AddKeeps(key, v, addr, source, nTimePenalty, nNow, w);
    case GoodCall(s, nTime) => GoodKeepsIff(key, v, s, nTime, w);
    case AttemptCall(s, nTime) => AttemptKeepsIff(key, v, s, nTime);
    case ConnectedCall(s, nTime) => AttemptKeepsIff(key, v, s, nTime);
    case GetAddrCall => ReorderKeeps(key, v, w, NoId);
  }

  function Empty(): Tables {
    Tables(0, map[], map[], [], 0, seq(TRIED_BUCKET_COUNT, _ => []), 0, seq(NEW_BUCKET_COUNT, _ => {}))
  }

  lemma EmptyConsistent(key: Key)
    ensures Consistent(key, Empty())
  {
    assert TriedIds(Empty()) == {} && NewIds(Empty()) == {};
  }

  // states[0] is the empty manager and each call leads from one state to the next.
  ghost predicate Run(key: Key, calls: seq<Call>, states: seq<Tables>) {
    && |states| == |calls| + 1 && states[0] == Empty()
    && forall i :: 0 <= i < |calls| ==> Timely(calls[i]) && (Consistent(key, states[i]) ==> CallTo(key, states[i], calls[i], states[i + 1]))
  }

  lemma {:induction false} EveryRunIsConsistent(key: Key, calls: seq<Call>, states: seq<Tables>, k: nat)
    requires Run(key, calls, states) && k < |states|
    ensures Consistent(key, states[k])
  {
    hide Settled, CallTo;
    if k == 0 {
      EmptyConsistent(key);
    } else {
      EveryRunIsConsistent(key, calls, states, k - 1);
      CallKeeps(key, states[k - 1], calls[k - 1], states[k]);
    }
  }

  // ---------- the class ----------

  method GetRandInt(nMax: int) returns (r: int)
    ensures if nMax <= 0 then r == 0 else 0 <= r < nMax
  {
    if nMax <= 0 { r := 0; } else { r :| 0 <= r < nMax; }
  }

  // The numbers SelectTried uses, one for each entry it inspects.
  method Draw(size: nat) returns (n: seq<nat>)
    ensures Drawn(n, size)
  {
    n := [];
    while |n| < TRIED_ENTRIES_INSPECT_ON_EVICT && |n| < size
      invariant |n| <= TRIED_ENTRIES_INSPECT_ON_EVICT && |n| <= size && forall i :: 0 <= i < |n| ==> n[i] < size - i
    {
      var r := GetRandInt(size - |n|);
      n := n + [r];
    }
  }

  lemma SomeElement<T>(s: set<T>) returns (x: T)
    requires |s| > 0
    ensures x in s
  {
    x :| x in s;
  }

  lemma {:induction false} LeastExists(s: set<int>)
    requires |s| > 0
    ensures exists x :: x in s && forall y :: y in s ==> x <= y
  {
    var x := SomeElement(s);
    var rest := s - {x};
    if |rest| > 0 {
      LeastExists(rest);
      var m :| m in rest && forall y :: y in rest ==> m <= y;
      var least := if x < m then x else m;
      assert least in s;
      forall y | y in s ensures least <= y { assert y == x || y in rest; }
    } else {
      forall y | y in s ensures x <= y { assert y == x || y in rest; }
    }
  }

  // The first terrible entry of a bucket, if there is one.
  method FirstTerrible(mapInfo: map<int, Info>, vNew: set<int>, nNow: int) returns (it: int)
    requires forall y :: y in vNew ==> y in mapInfo && y >= 0
    ensures it == NoId ==> forall y :: y in vNew ==> !IsTerrible(mapInfo[y], nNow)
    ensures it != NoId ==> it in vNew && IsTerrible(mapInfo[it], nNow) && forall y :: y in vNew && y < it ==> !IsTerrible(mapInfo[y], nNow)
  {
    hide IsTerrible;
    var rest := vNew;
    while |rest| > 0
      invariant rest <= vNew
      invariant forall y :: y in vNew && y !in rest ==> !IsTerrible(mapInfo[y], nNow)
    {
      LeastExists(rest);
      it :| it in rest && forall y :: y in rest ==> it <= y;
      if IsTerrible(mapInfo[it], nNow) { return; }
      rest := rest - {it};
    }
    it := NoId;
  }

  // The oldest of the entries of `done` whose rank in s was drawn, the first of them if there are several.
  ghost predicate Oldest(mapInfo: map<int, Info>, done: set<int>, s: set<int>, n: seq<nat>, x: int)
    requires forall y :: y in done ==> y in mapInfo
  {
    && x in done && Rank(s, x) in n
    && (forall y :: y in done && Rank(s, y) in n ==> mapInfo[x].addr.nTime <= mapInfo[y].addr.nTime)
    && (forall y :: y in done && Rank(s, y) in n && y < x ==> mapInfo[x].addr.nTime < mapInfo[y].addr.nTime)
  }

  ghost predicate OldestSoFar(mapInfo: map<int, Info>, done: set<int>, s: set<int>, n: seq<nat>, x: int)
    requires forall y :: y in done ==> y in mapInfo
  {
    if x == NoId then forall y :: y in done ==> Rank(s, y) !in n else Oldest(mapInfo, done, s, n, x)
  }

  lemma OldestStep(mapInfo: map<int, Info>, done: set<int>, s: set<int>, n: seq<nat>, x: int, it: int)
    requires forall y :: y in done ==> y in mapInfo && y < it
    requires it in mapInfo && it >= 0 && OldestSoFar(mapInfo, done, s, n, x)
    ensures OldestSoFar(mapInfo, done + {it}, s, n,
              if Rank(s, it) in n && (x == NoId || mapInfo[it].addr.nTime < mapInfo[x].addr.nTime) then it else x)
  {
    hide Rank;
  }

  // How far an iteration over s in ascending order has come.
  ghost predicate Reached(s: set<int>, done: set<int>, rest: set<int>) {
    done + rest == s && done !! rest && forall x, y :: x in done && y in rest ==> x < y
  }

  lemma ReachNext(s: set<int>, done: set<int>, rest: set<int>, it: int)
    requires Reached(s, done, rest) && it in rest && forall y :: y in rest ==> it <= y
    ensures Reached(s, done + {it}, rest - {it}) && |done + {it}| == |done| + 1
    ensures Rank(s, it) == |done| && (forall x :: x in done ==> x < it && x in s) && it in s
  {
    assert Below(s, it) == done;
  }

  lemma ReachedAll(s: set<int>, done: set<int>, rest: set<int>)
    requires Reached(s, done, rest) && |rest| == 0
    ensures done == s
  {}

  // The oldest of the entries at the four ranks drawn.
  method OldestDrawn(mapInfo: map<int, Info>, vNew: set<int>, n: seq<nat>) returns (nOldest: int)
    requires forall y :: y in vNew ==> y in mapInfo && y >= 0
    requires |n| == 4 && forall j :: 0 <= j < 4 ==> n[j] < |vNew|
    ensures Oldest(mapInfo, vNew, vNew, n, nOldest)
  {
    hide Oldest;
    var nI := 0;
    nOldest := NoId;
    var rest := vNew;
    ghost var done := {};
    while |rest| > 0
      invariant Reached(vNew, done, rest) && nI == |done| && done <= vNew
      invariant OldestSoFar(mapInfo, done, vNew, n, nOldest)
      invariant nOldest != NoId ==> nOldest in done
      invariant nI > n[0] ==> nOldest != NoId
      decreases |rest|
    {
      LeastExists(rest);
      var it :| it in rest && forall y :: y in rest ==> it <= y;
      ReachNext(vNew, done, rest, it);
      OldestStep(mapInfo, done, vNew, n, nOldest, it);
      hide OldestSoFar, Rank, Reached;
      InFour(n, nI);
      if nI == n[0] || nI == n[1] || nI == n[2] || nI == n[3] {
        if nOldest == NoId || mapInfo[it].addr.nTime < mapInfo[nOldest].addr.nTime { nOldest := it; }
      }
      rest, done := rest - {it}, done + {it};
      nI := nI + 1;
    }
    ReachedAll(vNew, done, rest);
  }

  ghost function HoldersFrom(vvNew: seq<set<int>>, id: int, b: nat): set<int> {
    set c | b <= c < |vvNew| && id in vvNew[c]
  }

  lemma HoldersStep(vvNew: seq<set<int>>, id: int, b: nat)
    requires b < |vvNew|
    ensures |HoldersFrom(vvNew, id, b)| == (if id in vvNew[b] then 1 else 0) + |HoldersFrom(vvNew, id, b + 1)|
  {
    if id in vvNew[b] {
      assert HoldersFrom(vvNew, id, b) == HoldersFrom(vvNew, id, b + 1) + {b};
    } else {
      assert HoldersFrom(vvNew, id, b) == HoldersFrom(vvNew, id, b + 1);
    }
  }

  lemma TriedMembers(key: Key, v: Tables, b: nat)
    requires TriedOk(key, v) && Numbered(v) && b < TRIED_BUCKET_COUNT
    ensures forall j :: 0 <= j < |v.vvTried[b]| ==> v.vvTried[b][j] in v.mapInfo && v.vvTried[b][j] >= 0
  {
    forall j | 0 <= j < |v.vvTried[b]| ensures v.vvTried[b][j] in v.mapInfo && v.vvTried[b][j] >= 0 {
      assert Filed(key, v.mapInfo, v.vvTried[b][j], b);
    }
  }

  // Out of the new buckets and counted in none.
  function Freed(v: Tables, id: int): Tables
    requires id in v.mapInfo
  {
    v.(vvNew := Cleared(v.vvNew, id), nNew := v.nNew - 1, mapInfo := v.mapInfo[id := v.mapInfo[id].(nRefCount := 0)])
  }

  ghost predicate CanExchangeSome(key: Key, v: Tables, id: int, nOrigin: nat) {
    && Sound(key, v) && id in v.mapInfo && !v.mapInfo[id].fInTried
    && nOrigin < NEW_BUCKET_COUNT && id in v.vvNew[nOrigin]
  }

  // With the numbers n, the position SelectTried returns can be exchanged.
  lemma ExchangeReady(key: Key, v: Tables, id: int, nOrigin: nat, mapInfo: map<int, Info>, n: seq<nat>)
    requires CanExchangeSome(key, v, id, nOrigin) && |v.vvTried| == TRIED_BUCKET_COUNT
    requires forall x :: Success(v.mapInfo, x) == Success(mapInfo, x)
    requires var was := v.vvTried[key.TriedBucket(v.mapInfo[id].addr.service)]; was != [] && Drawn(n, |was|)
    ensures var was := v.vvTried[key.TriedBucket(v.mapInfo[id].addr.service)];
            var bucket, nPos := Shuffled(was, n, |n|), EvictAt(v.mapInfo, was, n);
            && nPos == EvictAt(mapInfo, was, n) && CanExchange(key, v, id, nOrigin, bucket, nPos)
            && bucket[nPos] in v.mapInfo && bucket[nPos] != id
  {
    var was := v.vvTried[key.TriedBucket(v.mapInfo[id].addr.service)];
    var bucket, nPos := Shuffled(was, n, |n|), EvictAt(v.mapInfo, was, n);
    ShuffledSame(was, n, |n|);
    OldestSame(v.mapInfo, mapInfo, was, n, |n|);
    hide Sound, OldestMet, Shuffled;
    EvictedIsTried(key, v, id, nOrigin, bucket, nPos);
  }

  // The steps of an exchange, from tables w in which id is in no bucket and bucket b is shuffled.
  function TakenPlace(key: Key, w: Tables, id: int, nOrigin: nat, b: nat, nPos: nat): Tables
    requires b < |w.vvTried| && nPos < |w.vvTried[b]| && w.vvTried[b][nPos] in w.mapInfo && id in w.mapInfo
    requires |w.vvNew| == NEW_BUCKET_COUNT && nOrigin < NEW_BUCKET_COUNT
  {
    var evicted := w.vvTried[b][nPos];
    var nUBucket := key.NewBucket(w.mapInfo[evicted].Net(), w.mapInfo[evicted].source);
    var mapInfo := w.mapInfo[evicted := w.mapInfo[evicted].(fInTried := false, nRefCount := 1)];
    var target := if |w.vvNew[nUBucket]| < NEW_BUCKET_SIZE then nUBucket else nOrigin;
    w.(mapInfo := mapInfo[id := mapInfo[id].(fInTried := true)],
       vvNew := w.vvNew[target := w.vvNew[target] + {evicted}], nNew := w.nNew + 1,
       vvTried := w.vvTried[b := w.vvTried[b][nPos := id]])
  }

  lemma TakenPlaceIs(key: Key, v: Tables, id: int, nOrigin: nat, b: nat, nPos: nat, bucket: seq<int>)
    requires id in v.mapInfo && |v.vvTried| == TRIED_BUCKET_COUNT && |v.vvNew| == NEW_BUCKET_COUNT
    requires b == key.TriedBucket(v.mapInfo[id].addr.service)
    requires nOrigin < NEW_BUCKET_COUNT && nPos < |bucket| && bucket[nPos] in v.mapInfo && bucket[nPos] != id
    ensures TakenPlace(key, Freed(v, id).(vvTried := v.vvTried[b := bucket]), id, nOrigin, b, nPos) ==
            Exchanged(key, v, id, nOrigin, bucket, nPos)
  {
    var w := Freed(v, id).(vvTried := v.vvTried[b := bucket]);
    var r := TakenPlace(key, w, id, nOrigin, b, nPos);
    var x := Exchanged(key, v, id, nOrigin, bucket, nPos);
    assert r.vvTried == x.vvTried;
    assert r.mapInfo == x.mapInfo;
    assert r.vvNew == x.vvNew;
  }

  lemma UnrefSize(v: Tables, b: nat, id: int)
    requires Indexed(v) && id in v.mapInfo && b < |v.vvNew|
    ensures |Unref(v, b, id).vvNew| == |v.vvNew|
  {}

  predicate BucketAfter(vvNew: seq<set<int>>, id: int, nRnd: nat, m: nat)
    requires |vvNew| > 0
  {
    id in vvNew[(m + nRnd) % |vvNew|]
  }

  // Different places in vRandom hold different addresses.
  lemma OtherAddress(v: Tables, m: nat, n: nat)
    requires Indexed(v) && Addressed(v) && m < n < |v.vRandom|
    ensures v.vRandom[m] in v.mapInfo && v.vRandom[n] in v.mapInfo
    ensures v.mapInfo[v.vRandom[m]].Net() != v.mapInfo[v.vRandom[n]].Net()
  {
    var a, b := v.vRandom[m], v.vRandom[n];
    assert v.mapInfo[a].nRandomPos == m && v.mapInfo[b].nRandomPos == n;
    assert v.mapAddr[v.mapInfo[a].Net()] == a && v.mapAddr[v.mapInfo[b].Net()] == b;
  }

  lemma IndexedAt(v: Tables, i: nat)
    requires Indexed(v) && i < |v.vRandom|
    ensures v.vRandom[i] in v.mapInfo
  {}

  // Searching from anywhere, round the end, finds an entry that is in some bucket.
  lemma SomeBucket(v: Tables, id: int, nRnd: nat)
    requires NewOk(v, NoId) && id in v.mapInfo && !v.mapInfo[id].fInTried && id != NoId && nRnd < NEW_BUCKET_COUNT
    ensures exists m :: 0 <= m < NEW_BUCKET_COUNT && BucketAfter(v.vvNew, id, nRnd, m)
  {
    var c := SomeElement(Holders(v.vvNew, id));
    var m := if c >= nRnd then c - nRnd else c - nRnd + NEW_BUCKET_COUNT;
    assert BucketAfter(v.vvNew, id, nRnd, m);
  }

  lemma ReorderTwice(u: Tables, v: Tables, w: Tables)
    requires Reordered(u, v) && Reordered(v, w)
    ensures Reordered(u, w)
  {
    hide Indexed;
    forall id | id in u.mapInfo ensures id in v.mapInfo && id in w.mapInfo && Alike(w.mapInfo[id], u.mapInfo[id]) {
      assert id in u.mapInfo.Keys && id in v.mapInfo.Keys && id in w.mapInfo.Keys;
      assert Alike(v.mapInfo[id], u.mapInfo[id]) && Alike(w.mapInfo[id], v.mapInfo[id]);
    }
  }

  // The list holds the addresses at the first positions of vRandom.
  predicate Listed(v: Tables, vAddr: seq<Address>) {
    && |vAddr| <= |v.vRandom|
    && forall m :: 0 <= m < |vAddr| ==> v.vRandom[m] in v.mapInfo && vAddr[m] == v.mapInfo[v.vRandom[m]].addr
  }

  lemma ListedGrows(v: Tables, j: nat, vAddr: seq<Address>)
    requires Indexed(v) && |vAddr| <= j < |v.vRandom| && Listed(v, vAddr)
    ensures var w := Swapped(v, |vAddr|, j);
            && |w.vRandom| == |v.vRandom| && w.vRandom[|vAddr|] in w.mapInfo
            && Listed(w, vAddr + [w.mapInfo[w.vRandom[|vAddr|]].addr])
  {}

  lemma ListedDistinct(v: Tables, vAddr: seq<Address>)
    requires Indexed(v) && Addressed(v) && Listed(v, vAddr)
    ensures forall m, n :: 0 <= m < n < |vAddr| ==> vAddr[m].service.net != vAddr[n].service.net
  {
    forall m, n | 0 <= m < n < |vAddr| ensures vAddr[m].service.net != vAddr[n].service.net { OtherAddress(v, m, n); }
  }

  // How many addresses are given away at once.
  lemma StillIndexed(v: Tables, w: Tables)
    requires Reordered(v, w) && Indexed(v)
    ensures Indexed(w)
  {}

  lemma SettledAddressed(key: Key, v: Tables)
    requires Consistent(key, v)
    ensures Addressed(v)
  {}

  lemma InFour(n: seq<nat>, x: nat)
    requires |n| == 4
    ensures x in n <==> x == n[0] || x == n[1] || x == n[2] || x == n[3]
  {}

  ghost predicate BucketReady(key: Key, v: Tables, addr: Address, source: NetAddr, nTimePenalty: int) {
    var f := Fresh(v, addr, source, nTimePenalty);
    var b := key.NewBucket(addr.service.net, source);
    Indexed(f) && b < |f.vvNew| && (forall y :: y in f.vvNew[b] ==> y in f.mapInfo)
  }

  lemma {:induction false} IntroduceReady(key: Key, v: Tables, addr: Address, source: NetAddr, nTimePenalty: int)
    requires Consistent(key, v) && addr.service.net !in v.mapAddr
    ensures BucketReady(key, v, addr, source, nTimePenalty)
    ensures Settled(key, Fresh(v, addr, source, nTimePenalty), v.nIdCount)
    ensures |v.vvNew| == NEW_BUCKET_COUNT && forall b :: 0 <= b < NEW_BUCKET_COUNT ==> v.nIdCount !in v.vvNew[b]
  {
    FreshKeeps(key, v, addr, source, nTimePenalty);
    BucketKnown(key, Fresh(v, addr, source, nTimePenalty), v.nIdCount, key.NewBucket(addr.service.net, source));
  }

  // A known address is heard of again.
  method Refresh(known: Info, addr: Address, nTimePenalty: int, nNow: int) returns (info: Info)
    ensures info == Refreshed(known, addr, nTimePenalty, nNow)
  {
    info := known;
    var fCurrentlyOnline := nNow - addr.nTime < 24 * 60 * 60;
    var nUpdateInterval := if fCurrentlyOnline then 60 * 60 else 24 * 60 * 60;
    if addr.nTime != 0 && (info.addr.nTime == 0 || info.addr.nTime < addr.nTime - nUpdateInterval - nTimePenalty) {
      info := SetTime(info, Max(0, addr.nTime - nTimePenalty));
    }
    info := info.(addr := info.addr.(nServices := info.addr.nServices + addr.nServices));
  }

  class AddrMan {
    const key: Key
    const routable: NetAddr -> bool

    var nIdCount: int
    var mapInfo: map<int, Info>
    var mapAddr: map<NetAddr, int>
    var vRandom: seq<int>
    var nTried: int
    var vvTried: seq<seq<int>>
    var nNew: int
    var vvNew: seq<set<int>>

    ghost function View(): Tables
      reads this
    {
      Tables(nIdCount, mapInfo, mapAddr, vRandom, nTried, vvTried, nNew, vvNew)
    }

    ghost predicate Valid()
      reads this
    {
      Consistent(key, View())
    }

    constructor (key: Key, routable: NetAddr -> bool)
      ensures this.key == key && this.routable == routable
      ensures View() == Empty() && Valid()
    {
      this.key := key;
      this.routable := routable;
      nIdCount, mapInfo, mapAddr, vRandom, nTried, nNew := 0, map[], map[], [], 0, 0;
      vvTried := seq(TRIED_BUCKET_COUNT, _ => []);
      vvNew := seq(NEW_BUCKET_COUNT, _ => {});
      new;
      EmptyConsistent(key);
    }

    method Find(net: NetAddr) returns (nId: int)
      ensures nId == FindIn(View(), net)
    {
      if net !in mapAddr { return NoId; }
      if mapAddr[net] in mapInfo { nId := mapAddr[net]; } else { nId := NoId; }
    }

    method Create(addr: Address, source: NetAddr) returns (nId: int)
      modifies this
      ensures View() == Created(old(View()), addr, source) && nId == old(nIdCount)
    {
      nId := nIdCount;
      nIdCount := nIdCount + 1;
      mapInfo := mapInfo[nId := Info(addr, source, 0, 0, 0, 0, false, -1)];
      mapAddr := mapAddr[addr.service.net := nId];
      mapInfo := mapInfo[nId := mapInfo[nId].(nRandomPos := |vRandom|)];
      vRandom := vRandom + [nId];
    }

    method SwapRandom(nRndPos1: nat, nRndPos2: nat)
      requires nRndPos1 < |vRandom| && nRndPos2 < |vRandom|
      requires vRandom[nRndPos1] in mapInfo && vRandom[nRndPos2] in mapInfo
      modifies this`mapInfo, this`vRandom
      ensures View() == Swapped(old(View()), nRndPos1, nRndPos2)
    {
      if nRndPos1 == nRndPos2 { return; }
      var nId1, nId2 := vRandom[nRndPos1], vRandom[nRndPos2];
      mapInfo := mapInfo[nId1 := mapInfo[nId1].(nRandomPos := nRndPos2)];
      mapInfo := mapInfo[nId2 := mapInfo[nId2].(nRandomPos := nRndPos1)];
      vRandom := vRandom[nRndPos1 := nId2];
      vRandom := vRandom[nRndPos2 := nId1];
    }

    // Shuffles the first few entries of a tried bucket in, by the numbers drawn, and returns the position
    // at which the oldest of them was met.
    method SelectTried(nKBucket: nat, n: seq<nat>) returns (nPos: nat)
      requires nKBucket < |vvTried| && vvTried[nKBucket] != [] && Drawn(n, |vvTried[nKBucket]|)
      requires forall x :: x in vvTried[nKBucket] ==> x in mapInfo && x >= 0
      modifies this`vvTried
      ensures vvTried == old(vvTried)[nKBucket := Shuffled(old(vvTried)[nKBucket], n, |n|)]
      ensures nPos == EvictAt(mapInfo, old(vvTried)[nKBucket], n)
    {
      var vTried;
      nPos, vTried := SelectIn(vvTried[nKBucket], n, mapInfo);
      vvTried := vvTried[nKBucket := vTried];
    }

    // The entry is forgotten.
    method Erase(nId: int)
      requires Indexed(View()) && nId in mapInfo
      modifies this
      ensures View() == Erased(old(View()), nId)
    {
      var info := mapInfo[nId];
      SwapRandom(info.nRandomPos, |vRandom| - 1);
      hide Swapped;
      vRandom := vRandom[..|vRandom| - 1];
      mapAddr := mapAddr - {info.Net()};
      mapInfo := mapInfo - {nId};
      nNew := nNew - 1;
    }

    // One entry loses its place in a new bucket, and with its last place its existence.
    method Drop(nUBucket: nat, nId: int)
      requires Indexed(View()) && nId in mapInfo && nUBucket < |vvNew|
      modifies this
      ensures View() == Unref(old(View()), nUBucket, nId)
    {
      ghost var v := View();
      mapInfo := mapInfo[nId := mapInfo[nId].(nRefCount := mapInfo[nId].nRefCount - 1)];
      assert View() == WithRef(v, nId, -1) && Indexed(View());
      hide Swapped, Indexed;
      if mapInfo[nId].nRefCount == 0 { Erase(nId); }
      hide Erased;
      vvNew := vvNew[nUBucket := vvNew[nUBucket] - {nId}];
    }

    // Makes room in a new bucket; n are the four ranks drawn.
    method ShrinkNew(nUBucket: nat, nNow: int, n: seq<nat>, ghost pending: int) returns (r: int, ghost victim: int)
      requires Settled(key, View(), pending) && nUBucket < NEW_BUCKET_COUNT && |vvNew[nUBucket]| > 0
      requires pending !in vvNew[nUBucket] && |n| == 4 && forall j :: 0 <= j < 4 ==> n[j] < |vvNew[nUBucket]|
      modifies this
      ensures Victim(old(View()), old(vvNew[nUBucket]), nNow, n, victim)
      ensures View() == Unref(old(View()), nUBucket, victim)
      ensures forall y :: y in old(vvNew[nUBucket]) ==> y in old(mapInfo)
      ensures victim in old(vvNew[nUBucket])
      ensures r == if exists y :: y in old(vvNew[nUBucket]) && GivenUp(old(mapInfo)[y], nNow) && !JustTried(old(mapInfo)[y], nNow) then 0 else 1
      ensures r == 0 ==> && GivenUp(old(mapInfo)[victim], nNow) && !JustTried(old(mapInfo)[victim], nNow)
                         && !InGoodStanding(old(mapInfo)[victim], nNow)
    {
      ghost var v := View();
      BucketKnown(key, View(), pending, nUBucket);
      assert forall y :: y in vvNew[nUBucket] ==> y >= 0 by { assert Stamped(View()); }
      assert Indexed(View());
      hide Settled, Indexed, Unref, IsTerrible, Rank, GivenUp, JustTried, InGoodStanding;
      var it := FirstTerrible(mapInfo, vvNew[nUBucket], nNow);
      if it != NoId {
        victim := it;
        VictimIs(v, v.vvNew[nUBucket], nNow, n, victim);
        Drop(nUBucket, it);
        return 0, victim;
      }
      // otherwise the oldest of the four
      var nOldest := OldestDrawn(mapInfo, vvNew[nUBucket], n);
      victim := nOldest;
      VictimIs(v, v.vvNew[nUBucket], nNow, n, victim);
      Drop(nUBucket, nOldest);
      return 1, victim;
    }

    method RemoveFromNew(nId: int)
      requires NewOk(View(), NoId) && nId in mapInfo && !mapInfo[nId].fInTried && nId != NoId
      modifies this`vvNew, this`mapInfo
      ensures vvNew == Cleared(old(vvNew), nId)
      ensures mapInfo == old(mapInfo)[nId := old(mapInfo)[nId].(nRefCount := 0)]
    {
      var b := 0;
      assert HoldersFrom(vvNew, nId, 0) == Holders(vvNew, nId);
      while b < |vvNew|
        invariant 0 <= b <= |vvNew| == |old(vvNew)|
        invariant forall c :: 0 <= c < |vvNew| ==> vvNew[c] == if c < b then old(vvNew)[c] - {nId} else old(vvNew)[c]
        invariant mapInfo == old(mapInfo)[nId := old(mapInfo)[nId].(nRefCount := |HoldersFrom(old(vvNew), nId, b)|)]
      {
        HoldersStep(old(vvNew), nId, b);
        if nId in vvNew[b] {
          vvNew := vvNew[b := vvNew[b] - {nId}];
          mapInfo := mapInfo[nId := mapInfo[nId].(nRefCount := mapInfo[nId].nRefCount - 1)];
        }
        b := b + 1;
      }
      assert HoldersFrom(old(vvNew), nId, b) == {};
    }

    // The entry at nPos goes back to the new bucket of its own source, or to the one nId came from, and nId
    // takes its place. v are the tables before nId was taken out of the new buckets.
    method TakePlace(nId: int, nOrigin: nat, nKBucket: nat, nPos: nat, ghost v: Tables, ghost bucket: seq<int>)
      requires nId in v.mapInfo && |v.vvTried| == TRIED_BUCKET_COUNT && |v.vvNew| == NEW_BUCKET_COUNT
      requires nKBucket == key.TriedBucket(v.mapInfo[nId].addr.service)
      requires View() == Freed(v, nId).(vvTried := v.vvTried[nKBucket := bucket])
      requires nOrigin < NEW_BUCKET_COUNT && nPos < |bucket| && bucket[nPos] in v.mapInfo && bucket[nPos] != nId
      modifies this
      ensures View() == Exchanged(key, v, nId, nOrigin, bucket, nPos)
    {
      TakenPlaceIs(key, v, nId, nOrigin, nKBucket, nPos, bucket);
      hide Exchanged, Freed;
      var vTried := vvTried[nKBucket];
      var evicted := vTried[nPos];
      var nUBucket := key.NewBucket(mapInfo[evicted].Net(), mapInfo[evicted].source);
      mapInfo := mapInfo[evicted := mapInfo[evicted].(fInTried := false, nRefCount := 1)];
      // move it back there if there is place
      if |vvNew[nUBucket]| < NEW_BUCKET_SIZE {
        vvNew := vvNew[nUBucket := vvNew[nUBucket] + {evicted}];
      } else {
        vvNew := vvNew[nOrigin := vvNew[nOrigin] + {evicted}];
      }
      nNew := nNew + 1;
      vvTried := vvTried[nKBucket := vTried[nPos := nId]];
      mapInfo := mapInfo[nId := mapInfo[nId].(fInTried := true)];
    }

    method Exchange(nId: int, nOrigin: nat, ghost v: Tables) returns (ghost n: seq<nat>)
      requires nId in v.mapInfo && View() == Freed(v, nId) && CanExchangeSome(key, v, nId, nOrigin)
      requires |v.vvTried| == TRIED_BUCKET_COUNT
      requires |v.vvTried[key.TriedBucket(v.mapInfo[nId].addr.service)]| >= TRIED_BUCKET_SIZE
      modifies this
      ensures ExchangedTo(key, v, nId, nOrigin, n, View())
    {
      var nKBucket := key.TriedBucket(mapInfo[nId].addr.service);
      TriedMembers(key, v, nKBucket);
      assert Distinct(vvTried[nKBucket]);
      hide Sound;
      var draws := Draw(|vvTried[nKBucket]|);
      n := draws;
      ghost var was := vvTried[nKBucket];
      var nPos := SelectTried(nKBucket, draws);
      ghost var bucket := Shuffled(was, n, |n|);
      ExchangeReady(key, v, nId, nOrigin, mapInfo, n);
      hide CanExchange, CanExchangeSome, Distinct, Exchanged, Shuffled, EvictAt, Drawn;
      TakePlace(nId, nOrigin, nKBucket, nPos, v, bucket);
    }

    method MakeTried(nId: int, nOrigin: nat)
      requires Sound(key, View()) && nId in mapInfo && !mapInfo[nId].fInTried
      requires nOrigin < NEW_BUCKET_COUNT && nId in vvNew[nOrigin]
      modifies this
      ensures |old(vvTried)| == TRIED_BUCKET_COUNT && |old(vvNew)| == NEW_BUCKET_COUNT
      ensures TriedTo(key, old(View()), nId, nOrigin, View())
    {
      ghost var v := View();
      assert CanExchangeSome(key, v, nId, nOrigin);
      assert Numbered(v) && TriedOk(key, v) && NewOk(v, NoId);
      hide Sound;
      RemoveFromNew(nId);
      hide NewOk, TriedOk, CanExchangeSome, ExchangedTo;
      nNew := nNew - 1;
      assert View() == Freed(v, nId);

      var nKBucket := key.TriedBucket(mapInfo[nId].addr.service);
      if |vvTried[nKBucket]| < TRIED_BUCKET_SIZE {
        vvTried := vvTried[nKBucket := vvTried[nKBucket] + [nId]];
        nTried := nTried + 1;
        mapInfo := mapInfo[nId := mapInfo[nId].(fInTried := true)];
        assert View() == Promoted(key, v, nId);
        return;
      }

      ghost var n := Exchange(nId, nOrigin, v);
    }

    method Good_(addr: Service, nTime: int)
      requires Valid()
      modifies this
      ensures |old(vvTried)| == TRIED_BUCKET_COUNT && |old(vvNew)| == NEW_BUCKET_COUNT
      ensures GoodTo(key, old(View()), addr, nTime, View())
      ensures Valid() <==> nTime > 0 || old(FindService(View(), addr) !in mapInfo)
    {
      ghost var v := View();
      assert TriedOk(key, v) && NewOk(v, NoId);
      hide Settled, TriedTo;
      var nId := Find(addr.net);
      if nId == NoId || mapInfo[nId].addr.service != addr { return; }

      PraiseKeeps(key, v, nId, nTime);
      mapInfo := mapInfo[nId := SetTime(mapInfo[nId], nTime).(nLastSuccess := nTime, nLastTry := nTime, nAttempts := 0)];
      assert View() == Praised(v, nId, nTime);
      if mapInfo[nId].fInTried {
        GoodKeepsIff(key, v, addr, nTime, View());
        return;
      }

      var nRnd := GetRandInt(|vvNew|);
      var n := 0;
      SomeBucket(v, nId, nRnd);
      while n < |vvNew| && nId !in vvNew[(n + nRnd) % |vvNew|]
        invariant 0 <= n <= |vvNew| && View() == Praised(v, nId, nTime)
        invariant forall m: nat :: m < n ==> !BucketAfter(vvNew, nId, nRnd, m)
      {
        n := n + 1;
      }
      assert n < |vvNew|;
      var nUBucket := (n + nRnd) % |vvNew|;
      MakeTried(nId, nUBucket);
      GoodKeepsIff(key, v, addr, nTime, View());
    }

    method Attempt_(addr: Service, nTime: int)
      requires Valid()
      modifies this`mapInfo
      ensures View() == Attempted(old(View()), addr, nTime)
      ensures Valid() <==> nTime >= 0 || old(FindService(View(), addr) !in mapInfo)
    {
      AttemptKeepsIff(key, View(), addr, nTime);
      hide Consistent, Addressed, Indexed;
      var nId := Find(addr.net);
      if nId == NoId || mapInfo[nId].addr.service != addr { return; }
      var info := mapInfo[nId];
      info := info.(nLastTry := nTime);
      info := info.(nAttempts := info.nAttempts + 1);
      ghost var v := View();
      assert Attempted(v, addr, nTime) == SetInfo(v, nId, info);
      hide Attempted, FindService, FindIn;
      mapInfo := mapInfo[nId := info];
    }

    method Connected_(addr: Service, nTime: int)
      requires Valid()
      modifies this`mapInfo
      ensures View() == ConnectedTo(old(View()), addr, nTime) && Valid()
    {
      AttemptKeepsIff(key, View(), addr, nTime);
      hide Settled;
      var nId := Find(addr.net);
      if nId == NoId || mapInfo[nId].addr.service != addr { return; }
      var nUpdateInterval := 20 * 60;
      if nTime - mapInfo[nId].addr.nTime > nUpdateInterval {
        mapInfo := mapInfo[nId := SetTime(mapInfo[nId], nTime)];
      }
    }

    // A random part of the addresses, none of them twice.
    method GetAddr_() returns (vAddr: seq<Address>)
      requires Valid()
      modifies this`mapInfo, this`vRandom
      ensures Reordered(old(View()), View()) && Valid()
      ensures |vAddr| == (if |vRandom| * 23 / 100 > 2500 then 2500 else |vRandom| * 23 / 100) && Listed(View(), vAddr)
      ensures forall m, n :: 0 <= m < n < |vAddr| ==> vAddr[m].service.net != vAddr[n].service.net
    {
      ghost var v := View();
      assert Indexed(v) && Addressed(v) && Reordered(v, v) && Listed(v, []);
      hide Settled, Swapped, Indexed, Addressed, Reordered, Listed, Similar;
      var nNodes := GETADDR_MAX_PCT * |vRandom| / 100;
      if nNodes > GETADDR_MAX { nNodes := GETADDR_MAX; }
      vAddr := [];
      var n := 0;
      while n < nNodes
        invariant 0 <= n <= nNodes <= |vRandom| == |v.vRandom| && |vAddr| == n
        invariant Reordered(v, View()) && Indexed(View()) && Listed(View(), vAddr)
      {
        var nRndPos := GetRandInt(|vRandom| - n);
        nRndPos := nRndPos + n;
        ghost var w := View();
        IndexedAt(w, n);
        IndexedAt(w, nRndPos);
        SwapRandom(n, nRndPos);
        SwapReorders(w, n, nRndPos);
        StillIndexed(w, View());
        ReorderTwice(v, w, View());
        ListedGrows(w, nRndPos, vAddr);
        vAddr := vAddr + [mapInfo[vRandom[n]].addr];
        n := n + 1;
      }
      ReorderKeeps(key, v, View(), NoId);
      assert Addressed(View()) by { SettledAddressed(key, View()); }
      ListedDistinct(View(), vAddr);
    }

    // The reference due to nId is put into a bucket it is not in.
    method PutInto(nId: int, nUBucket: nat, nNow: int)
      requires Settled(key, View(), nId) && nId in mapInfo && !mapInfo[nId].fInTried
      requires nUBucket < NEW_BUCKET_COUNT && |vvNew| == NEW_BUCKET_COUNT && nId !in vvNew[nUBucket]
      modifies this
      ensures Indexed(old(View())) && forall y :: y in old(vvNew[nUBucket]) ==> y in old(mapInfo)
      ensures DueTo(old(View()), nUBucket, nId, nNow, View())
    {
      ghost var v := View();
      BucketKnown(key, v, nId, nUBucket);
      assert Indexed(v) && |vvNew[nUBucket]| <= NEW_BUCKET_SIZE;
      hide Settled, Victim, Unref;
      if |vvNew[nUBucket]| == NEW_BUCKET_SIZE {
        var a := GetRandInt(|vvNew[nUBucket]|);
        var b := GetRandInt(|vvNew[nUBucket]|);
        var c := GetRandInt(|vvNew[nUBucket]|);
        var d := GetRandInt(|vvNew[nUBucket]|);
        var n: seq<nat> := [a, b, c, d];
        ghost var victim;
        var r;
        r, victim := ShrinkNew(nUBucket, nNow, n, nId);
        UnrefSize(v, nUBucket, victim);
      }
      vvNew := vvNew[nUBucket := vvNew[nUBucket] + {nId}];
    }

    // The chance of a further bucket halves with every bucket an entry is in.
    method Factor(nRefCount: nat) returns (nFactor: nat)
      ensures nFactor == Pow2(nRefCount)
    {
      nFactor := 1;
      var n := 0;
      while n < nRefCount
        invariant n <= nRefCount && nFactor == Pow2(n)
      {
        nFactor := nFactor * 2;
        n := n + 1;
      }
    }

    // A further reference to a known entry, in the bucket its source chooses.
    method Reference(nId: int, source: NetAddr, nNow: int)
      requires Valid() && nId in mapInfo && !mapInfo[nId].fInTried && mapInfo[nId].nRefCount < NEW_BUCKETS_PER_ADDRESS
      modifies this
      ensures ReferencedTo(key, old(View()), nId, source, nNow, View())
    {
      ghost var v := View();
      assert |vvNew| == NEW_BUCKET_COUNT by { BucketKnown(key, v, NoId, 0); }
      var nUBucket := key.NewBucket(mapInfo[nId].Net(), source);
      BumpedKeeps(key, v, nId);
      hide Settled, DueTo;
      if nId !in vvNew[nUBucket] {
        mapInfo := mapInfo[nId := mapInfo[nId].(nRefCount := mapInfo[nId].nRefCount + 1)];
        assert View() == WithRef(v, nId, 1);
        PutInto(nId, nUBucket, nNow);
      }
    }

    // The first reference to an address not known before.
    method Introduce(addr: Address, source: NetAddr, nTimePenalty: int, nNow: int)
      requires Valid() && addr.service.net !in mapAddr
      modifies this
      ensures BucketReady(key, old(View()), addr, source, nTimePenalty)
      ensures DueTo(Fresh(old(View()), addr, source, nTimePenalty), key.NewBucket(addr.service.net, source),
                    old(nIdCount), nNow, View())
    {
      ghost var v := View();
      IntroduceReady(key, v, addr, source, nTimePenalty);
      hide Settled, DueTo;
      var nId := Create(addr, source);
      mapInfo := mapInfo[nId := SetTime(mapInfo[nId], Max(0, mapInfo[nId].addr.nTime - nTimePenalty))];
      nNew := nNew + 1;
      var nUBucket := key.NewBucket(mapInfo[nId].Net(), source);
      mapInfo := mapInfo[nId := mapInfo[nId].(nRefCount := mapInfo[nId].nRefCount + 1)];
      assert View() == Fresh(v, addr, source, nTimePenalty);
      PutInto(nId, nUBucket, nNow);
    }

    method Add_(addr: Address, source: NetAddr, nTimePenalty: int, nNow: int) returns (fNew: bool)
      requires Valid()
      modifies this
      ensures !routable(addr.service.net) ==> View() == old(View())
      ensures fNew <==> routable(addr.service.net) && FindIn(old(View()), addr.service.net) == NoId
      ensures Consistent(key, old(View()))
      ensures routable(addr.service.net) ==> AddTo(key, old(View()), addr, source, nTimePenalty, nNow, View())
      ensures Valid()
    {
      ghost var v := View();
      if !routable(addr.service.net) { return false; }
      var nId := Find(addr.service.net);
      assert nId == NoId <==> nId !in mapInfo by { assert Stamped(v); }
      if nId != NoId {
        RefreshKeeps(key, v, nId, addr, nTimePenalty, nNow);
        NewRefs(v, NoId, nId);
        hide Settled, ReferencedTo;
        var info := Refresh(mapInfo[nId], addr, nTimePenalty, nNow);
        mapInfo := mapInfo[nId := info];
        assert View() == SetInfo(v, nId, mapInfo[nId]);
        // no new information, or already as far as it can get
        if NothingNew(mapInfo[nId], addr) { return false; }
        var nFactor := Factor(mapInfo[nId].nRefCount);
        var r := GetRandInt(nFactor);
        if nFactor > 1 && r != 0 { return false; }
        Reference(nId, source, nNow);
        assert AddTo(key, v, addr, source, nTimePenalty, nNow, View());
        AddKeeps(key, v, addr, source, nTimePenalty, nNow, View());
        return false;
      }
      NotFound(v, addr.service.net);
      Introduce(addr, source, nTimePenalty, nNow);
      hide Settled, DueTo;
      AddKeeps(key, v, addr, source, nTimePenalty, nNow, View());
      return true;
    }
  }
}
