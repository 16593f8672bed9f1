/** The address manager's five cross-linked indexes as one value, what consistency of them means, and
    the elementary changes that keep it. Ids name the known addresses. */
module AddrTables {
  import opened Basics

  const TRIED_BUCKET_COUNT := 64
  const TRIED_BUCKET_SIZE := 64
  const NEW_BUCKET_COUNT := 256
  const NEW_BUCKET_SIZE := 64
  const NEW_BUCKETS_PER_ADDRESS := 4

  type NetAddr = nat   // sixteen bytes of address
  datatype Service = Service(net: NetAddr, port: nat)
  datatype Address = Address(service: Service, nServices: set<nat>, nTime: int)

  datatype Info = Info(addr: Address, source: NetAddr, nLastTry: int, nLastSuccess: int, nAttempts: int,
                       nRefCount: int, fInTried: bool, nRandomPos: int)
  {
    function Net(): NetAddr { addr.service.net }
  }

  // What hashing with the secret nKey gives, before it is reduced to a bucket.
  datatype Key = Key(triedHash: Service -> nat, newHash: (NetAddr, NetAddr) -> nat)
  {
    function TriedBucket(s: Service): (b: nat)
      ensures b < TRIED_BUCKET_COUNT
    { triedHash(s) % TRIED_BUCKET_COUNT }

    function NewBucket(net: NetAddr, source: NetAddr): (b: nat)
      ensures b < NEW_BUCKET_COUNT
    { newHash(net, source) % NEW_BUCKET_COUNT }
  }

  datatype Tables = Tables(nIdCount: int, mapInfo: map<int, Info>, mapAddr: map<NetAddr, int>, vRandom: seq<int>,
                           nTried: int, vvTried: seq<seq<int>>, nNew: int, vvNew: seq<set<int>>)

  // ---------- consistency ----------

  // vRandom and nRandomPos are inverse to each other.
  ghost predicate Indexed(v: Tables) {
    && (forall i :: 0 <= i < |v.vRandom| ==> v.vRandom[i] in v.mapInfo && v.mapInfo[v.vRandom[i]].nRandomPos == i)
    && (forall id :: id in v.mapInfo ==>
          0 <= v.mapInfo[id].nRandomPos < |v.vRandom| && v.vRandom[v.mapInfo[id].nRandomPos] == id)
  }

  // mapAddr and mapInfo are inverse to each other.
  ghost predicate Addressed(v: Tables) {
    && (forall id :: id in v.mapInfo ==> v.mapInfo[id].Net() in v.mapAddr && v.mapAddr[v.mapInfo[id].Net()] == id)
    && (forall a :: a in v.mapAddr ==> v.mapAddr[a] in v.mapInfo && v.mapInfo[v.mapAddr[a]].Net() == a)
  }

  ghost predicate Numbered(v: Tables) {
    v.nIdCount >= 0 && forall id :: id in v.mapInfo ==> 0 <= id < v.nIdCount && (v.mapInfo[id].fInTried ==> v.mapInfo[id].nRefCount == 0)
  }

  // No time is negative, and a tried entry has been reached.
  predicate TimedInfo(i: Info) { i.nLastTry >= 0 && i.nLastSuccess >= 0 && (i.fInTried ==> i.nLastSuccess > 0) }

  ghost predicate Timed(v: Tables) { forall id :: id in v.mapInfo ==> TimedInfo(v.mapInfo[id]) }

  ghost predicate Stamped(v: Tables) { Numbered(v) && Timed(v) }

  ghost predicate Distinct(s: seq<int>) { forall x :: multiset(s)[x] <= 1 }

  // The tried buckets hold exactly the tried entries, each once and where its key says.
  ghost predicate TriedOk(key: Key, v: Tables) {
    && |v.vvTried| == TRIED_BUCKET_COUNT
    && (forall b :: 0 <= b < TRIED_BUCKET_COUNT ==> |v.vvTried[b]| <= TRIED_BUCKET_SIZE)
    && (forall b, i :: 0 <= b < TRIED_BUCKET_COUNT && 0 <= i < |v.vvTried[b]| ==>
          Filed(key, v.mapInfo, v.vvTried[b][i], b))
    && (forall b :: 0 <= b < TRIED_BUCKET_COUNT ==> Distinct(v.vvTried[b]))
    && (forall id :: id in v.mapInfo && v.mapInfo[id].fInTried ==>
          id in v.vvTried[key.TriedBucket(v.mapInfo[id].addr.service)])
  }

  ghost predicate Filed(key: Key, mapInfo: map<int, Info>, id: int, b: int) {
    id in mapInfo && mapInfo[id].fInTried && key.TriedBucket(mapInfo[id].addr.service) == b
  }

  ghost function Holders(vvNew: seq<set<int>>, id: int): set<int> {
    set b | 0 <= b < |vvNew| && id in vvNew[b]
  }

  // Each other entry is in as many new buckets as its reference count says, 1 to 4 of them; the entry
  // `pending`, if there is one, has been counted once more than it has been put in.
  ghost predicate NewOk(v: Tables, pending: int) {
    && |v.vvNew| == NEW_BUCKET_COUNT
    && (forall b :: 0 <= b < NEW_BUCKET_COUNT ==> |v.vvNew[b]| <= NEW_BUCKET_SIZE)
    && (forall b, id :: 0 <= b < NEW_BUCKET_COUNT && id in v.vvNew[b] ==> id in v.mapInfo && !v.mapInfo[id].fInTried)
    && (forall id :: id in v.mapInfo && !v.mapInfo[id].fInTried ==>
          && v.mapInfo[id].nRefCount == |Holders(v.vvNew, id)| + (if id == pending then 1 else 0)
          && 1 <= v.mapInfo[id].nRefCount <= NEW_BUCKETS_PER_ADDRESS)
  }

  ghost function TriedIds(v: Tables): set<int> { set id | id in v.mapInfo && v.mapInfo[id].fInTried }
  ghost function NewIds(v: Tables): set<int> { set id | id in v.mapInfo && !v.mapInfo[id].fInTried }

  ghost predicate Counted(v: Tables) {
    v.nTried == |TriedIds(v)| && v.nNew == |NewIds(v)| && |v.vRandom| == v.nTried + v.nNew
  }

  const NoId := -1

  ghost predicate Settled(key: Key, v: Tables, pending: int) {
    Indexed(v) && Addressed(v) && Stamped(v) && TriedOk(key, v) && NewOk(v, pending) && Counted(v)
  }

  // Everything Check_ asks for, the bucket sizes, and the bucket of every tried entry.
  ghost predicate Consistent(key: Key, v: Tables) { Settled(key, v, NoId) }

  // The same without the times.
  ghost predicate Sound(key: Key, v: Tables) {
    Indexed(v) && Addressed(v) && Numbered(v) && TriedOk(key, v) && NewOk(v, NoId) && Counted(v)
  }

  // ---------- changes that leave the membership of the buckets alone ----------

  predicate Alike(i: Info, j: Info) {
    i.addr.service == j.addr.service && i.fInTried == j.fInTried && i.nRefCount == j.nRefCount
  }

  // The same entries in the same buckets; their statistics and the order of vRandom may differ.
  ghost predicate Similar(v: Tables, w: Tables) {
    && w.mapInfo.Keys == v.mapInfo.Keys && |w.vRandom| == |v.vRandom|
    && (forall id :: id in v.mapInfo ==> Alike(w.mapInfo[id], v.mapInfo[id]))
    && w.mapAddr == v.mapAddr && w.vvTried == v.vvTried && w.vvNew == v.vvNew
    && w.nTried == v.nTried && w.nNew == v.nNew && w.nIdCount == v.nIdCount
  }

  lemma SimilarTried(key: Key, v: Tables, w: Tables)
    requires Similar(v, w) && TriedOk(key, v)
    ensures TriedOk(key, w)
  {
    forall b, i | 0 <= b < TRIED_BUCKET_COUNT && 0 <= i < |w.vvTried[b]|
      ensures Filed(key, w.mapInfo, w.vvTried[b][i], b)
    {
      var id := v.vvTried[b][i];
      assert Filed(key, v.mapInfo, id, b);
    }
  }

  lemma SimilarCounted(v: Tables, w: Tables)
    requires Similar(v, w) && Counted(v)
    ensures Counted(w)
  {
    forall id ensures id in w.mapInfo <==> id in v.mapInfo { assert id in w.mapInfo.Keys <==> id in v.mapInfo.Keys; }
    forall id | id in v.mapInfo ensures w.mapInfo[id].fInTried == v.mapInfo[id].fInTried {
      assert Alike(w.mapInfo[id], v.mapInfo[id]);
    }
    assert TriedIds(w) == TriedIds(v);
    assert NewIds(w) == NewIds(v);
  }

  lemma SimilarNew(v: Tables, w: Tables, pending: int)
    requires Similar(v, w) && NewOk(v, pending) && Addressed(v)
    ensures NewOk(w, pending) && Addressed(w)
  {
    forall id | id in w.mapInfo
      ensures id in v.mapInfo && Alike(w.mapInfo[id], v.mapInfo[id]) && w.mapInfo[id].Net() == v.mapInfo[id].Net() {}
    forall a | a in w.mapAddr ensures w.mapAddr[a] in w.mapInfo && w.mapInfo[w.mapAddr[a]].Net() == a {
      var id := v.mapAddr[a];
      assert id in v.mapInfo && Alike(w.mapInfo[id], v.mapInfo[id]);
    }
  }

  lemma {:induction false} SimilarKeeps(key: Key, v: Tables, w: Tables, pending: int)
    requires Settled(key, v, pending) && Similar(v, w) && Indexed(w) && Stamped(w)
    ensures Settled(key, w, pending)
  {
    hide Similar, Indexed, Stamped, TriedOk, NewOk, Counted, Addressed;
    SimilarTried(key, v, w);
    SimilarCounted(v, w);
    SimilarNew(v, w, pending);
  }

  function SetInfo(v: Tables, id: int, info: Info): Tables { v.(mapInfo := v.mapInfo[id := info]) }

  // Statistics of an entry may change freely, times staying non-negative.
  lemma {:induction false} SetInfoKeeps(key: Key, v: Tables, pending: int, id: int, info: Info)
    requires Settled(key, v, pending) && id in v.mapInfo
    requires Alike(info, v.mapInfo[id]) && info.nRandomPos == v.mapInfo[id].nRandomPos
    requires info.nLastTry >= 0 && info.nLastSuccess >= 0 && (info.fInTried ==> info.nLastSuccess > 0)
    ensures Settled(key, SetInfo(v, id, info), pending)
  {
    hide TriedOk, NewOk, Counted, Addressed;
    SimilarKeeps(key, v, SetInfo(v, id, info), pending);
  }

  // ---------- positions in vRandom ----------

  function Swapped(v: Tables, i: nat, j: nat): Tables
    requires i < |v.vRandom| && j < |v.vRandom| && v.vRandom[i] in v.mapInfo && v.vRandom[j] in v.mapInfo
  {
    if i == j then v
    else
      var a, b := v.vRandom[i], v.vRandom[j];
      var once := v.mapInfo[a := v.mapInfo[a].(nRandomPos := j)];
      v.(mapInfo := once[b := once[b].(nRandomPos := i)], vRandom := v.vRandom[i := b][j := a])
  }

  // Only the order of vRandom differs.
  ghost predicate Reordered(v: Tables, w: Tables) {
    && Similar(v, w) && (Indexed(v) ==> Indexed(w))
    && (forall id :: id in v.mapInfo ==> w.mapInfo[id] == v.mapInfo[id].(nRandomPos := w.mapInfo[id].nRandomPos))
  }

  lemma SwapReorders(v: Tables, i: nat, j: nat)
    requires Indexed(v) && i < |v.vRandom| && j < |v.vRandom|
    ensures Reordered(v, Swapped(v, i, j))
  {}

  lemma {:induction false} ReorderKeeps(key: Key, v: Tables, w: Tables, pending: int)
    requires Settled(key, v, pending) && Reordered(v, w)
    ensures Settled(key, w, pending)
  {
    hide TriedOk, NewOk, Counted, Addressed, Indexed;
    SimilarKeeps(key, v, w, pending);
  }

  // ---------- dropping one reference from a new bucket ----------

  // The entry goes: it is swapped to the end of vRandom and removed.
  function Erased(v: Tables, id: int): Tables
    requires id in v.mapInfo && |v.vRandom| > 0 && 0 <= v.mapInfo[id].nRandomPos < |v.vRandom|
    requires v.vRandom[v.mapInfo[id].nRandomPos] == id && v.vRandom[|v.vRandom| - 1] in v.mapInfo
  {
    var s := Swapped(v, v.mapInfo[id].nRandomPos, |v.vRandom| - 1);
    s.(vRandom := s.vRandom[..|s.vRandom| - 1], mapAddr := s.mapAddr - {v.mapInfo[id].Net()},
       mapInfo := s.mapInfo - {id}, nNew := s.nNew - 1)
  }

  function WithRef(v: Tables, id: int, delta: int): Tables
    requires id in v.mapInfo
  {
    SetInfo(v, id, v.mapInfo[id].(nRefCount := v.mapInfo[id].nRefCount + delta))
  }

  ghost function Unref(v: Tables, b: nat, id: int): Tables
    requires Indexed(v) && id in v.mapInfo && b < |v.vvNew|
  {
    var u := WithRef(v, id, -1);
    var w := if v.mapInfo[id].nRefCount == 1 then Erased(u, id) else u;
    w.(vvNew := w.vvNew[b := w.vvNew[b] - {id}])
  }

  // All the other entries, in the same buckets.
  ghost predicate Without(v: Tables, w: Tables, id: int) {
    && w.mapInfo.Keys == v.mapInfo.Keys - {id}
    && (forall k :: k in w.mapInfo ==> w.mapInfo[k] == v.mapInfo[k].(nRandomPos := w.mapInfo[k].nRandomPos))
    && id in v.mapInfo && w.mapAddr == v.mapAddr - {v.mapInfo[id].Net()}
    && |w.vRandom| == |v.vRandom| - 1
    && w.vvTried == v.vvTried && w.nTried == v.nTried && w.nNew == v.nNew - 1 && w.nIdCount == v.nIdCount
  }

  lemma SwappedEnds(v: Tables, id: int)
    requires Indexed(v) && id in v.mapInfo
    ensures var s := Swapped(v, v.mapInfo[id].nRandomPos, |v.vRandom| - 1);
            && s.mapInfo.Keys == v.mapInfo.Keys && |s.vRandom| == |v.vRandom| && s.vRandom[|v.vRandom| - 1] == id
            && s.mapInfo[id].nRandomPos == |v.vRandom| - 1
            && s == v.(mapInfo := s.mapInfo, vRandom := s.vRandom)
  {}

  lemma ErasedIndexed(v: Tables, id: int)
    requires Indexed(v) && id in v.mapInfo
    ensures Indexed(Erased(v, id))
  {
    SwapReorders(v, v.mapInfo[id].nRandomPos, |v.vRandom| - 1);
    SwappedEnds(v, id);
    hide Swapped, Similar;
  }

  lemma ErasedIsWithout(v: Tables, id: int)
    requires Indexed(v) && id in v.mapInfo
    ensures Without(v, Erased(v, id), id)
  {
    SwapReorders(v, v.mapInfo[id].nRandomPos, |v.vRandom| - 1);
    SwappedEnds(v, id);
    hide Swapped, Similar, Indexed;
  }

  lemma HoldersLose(vvNew: seq<set<int>>, b: nat, id: int)
    requires b < |vvNew|
    ensures var r := vvNew[b := vvNew[b] - {id}];
            && Holders(r, id) == Holders(vvNew, id) - {b}
            && forall k :: k != id ==> Holders(r, k) == Holders(vvNew, k)
  {
    var r := vvNew[b := vvNew[b] - {id}];
    assert Holders(r, id) == Holders(vvNew, id) - {b};
    forall k | k != id ensures Holders(r, k) == Holders(vvNew, k) {}
  }

  lemma HoldersGain(vvNew: seq<set<int>>, b: nat, id: int)
    requires b < |vvNew|
    ensures var r := vvNew[b := vvNew[b] + {id}];
            && Holders(r, id) == Holders(vvNew, id) + {b}
            && forall k :: k != id ==> Holders(r, k) == Holders(vvNew, k)
  {
    var r := vvNew[b := vvNew[b] + {id}];
    assert Holders(r, id) == Holders(vvNew, id) + {b};
    forall k | k != id ensures Holders(r, k) == Holders(vvNew, k) {}
  }

  lemma WithoutEntry(v: Tables, w: Tables, id: int, k: int)
    requires Without(v, w, id)
    ensures k in w.mapInfo <==> k in v.mapInfo && k != id
    ensures k in w.mapInfo ==> w.mapInfo[k] == v.mapInfo[k].(nRandomPos := w.mapInfo[k].nRandomPos)
  {
    assert k in w.mapInfo.Keys <==> k in v.mapInfo.Keys && k != id;
  }

  lemma WithoutIndexes(v: Tables, w: Tables, id: int)
    requires Without(v, w, id) && Addressed(v) && Stamped(v) && Counted(v) && !v.mapInfo[id].fInTried
    ensures Addressed(w) && Stamped(w) && Counted(w)
  {
    forall k ensures k in w.mapInfo <==> k in v.mapInfo && k != id { WithoutEntry(v, w, id, k); }
    forall a | a in w.mapAddr ensures w.mapAddr[a] in w.mapInfo && w.mapInfo[w.mapAddr[a]].Net() == a {
      assert a in v.mapAddr && a != v.mapInfo[id].Net();
    }
    assert TriedIds(w) == TriedIds(v);
    assert NewIds(w) == NewIds(v) - {id};
    assert id in NewIds(v);
  }

  lemma WithoutNew(v: Tables, w: Tables, b: nat, id: int, pending: int)
    requires NewOk(v, pending) && b < NEW_BUCKET_COUNT && id in v.vvNew[b] && id != pending && Without(v, w, id)
    requires v.mapInfo[id].nRefCount == 1 && w.vvNew == v.vvNew[b := v.vvNew[b] - {id}]
    ensures NewOk(w, pending)
  {
    HoldersLose(v.vvNew, b, id);
    OneHolder(v.vvNew, b, id);
    forall k ensures k in w.mapInfo <==> k in v.mapInfo && k != id { WithoutEntry(v, w, id, k); }
  }

  lemma WithoutTried(key: Key, v: Tables, w: Tables, id: int)
    requires TriedOk(key, v) && Without(v, w, id) && !v.mapInfo[id].fInTried
    ensures TriedOk(key, w)
  {
    forall k ensures k in w.mapInfo <==> k in v.mapInfo && k != id { WithoutEntry(v, w, id, k); }
    forall c, i | 0 <= c < TRIED_BUCKET_COUNT && 0 <= i < |w.vvTried[c]| ensures Filed(key, w.mapInfo, w.vvTried[c][i], c) {
      assert Filed(key, v.mapInfo, v.vvTried[c][i], c);
    }
  }

  // The last reference: nobody else's buckets change.
  lemma {:induction false} WithoutKeeps(key: Key, v: Tables, w: Tables, b: nat, id: int, pending: int)
    requires Settled(key, v, pending) && b < NEW_BUCKET_COUNT && id in v.vvNew[b] && id != pending
    requires v.mapInfo[id].nRefCount == 1 && Without(v, w, id) && Indexed(w)
    requires w.vvNew == v.vvNew[b := v.vvNew[b] - {id}]
    ensures Settled(key, w, pending)
  {
    UntriedInNew(v, pending, b, id);
    hide TriedOk, Indexed, Stamped, Addressed, Counted, Without;
    assert Without(v, w, id);
    WithoutIndexes(v, w, id);
    WithoutNew(v, w, b, id, pending);
    WithoutTried(key, v, w, id);
  }

  lemma UntriedInNew(v: Tables, pending: int, b: nat, id: int)
    requires NewOk(v, pending) && b < NEW_BUCKET_COUNT && id in v.vvNew[b]
    ensures id in v.mapInfo && !v.mapInfo[id].fInTried
  {}

  // An entry in one bucket only is in no other.
  lemma OneHolder(vvNew: seq<set<int>>, b: nat, id: int)
    requires b < |vvNew| && id in vvNew[b] && |Holders(vvNew, id)| == 1
    ensures forall c :: 0 <= c < |vvNew| && id in vvNew[c] ==> c == b
  {
    forall c | 0 <= c < |vvNew| && id in vvNew[c] ensures c == b {
      assert {b, c} <= Holders(vvNew, id);
      if c != b { SubsetSize({b, c}, Holders(vvNew, id)); }
    }
  }

  lemma {:induction false} UnrefKeeps(key: Key, v: Tables, b: nat, id: int, pending: int)
    requires Settled(key, v, pending) && b < NEW_BUCKET_COUNT && id in v.vvNew[b] && id != pending
    ensures Settled(key, Unref(v, b, id), pending)
  {
    UntriedInNew(v, pending, b, id);
    var u := WithRef(v, id, -1);
    if v.mapInfo[id].nRefCount == 1 {
      hide TriedOk, NewOk, Counted, Addressed, Swapped;
      ErasedIndexed(u, id);
      ErasedIsWithout(u, id);
      WithoutKeeps(key, v, Unref(v, b, id), b, id, pending);
    } else {
      assert Settled(key, Unref(v, b, id), pending) by { RefMove(key, v, Unref(v, b, id), b, id, pending); }
    }
  }

  lemma RefTried(key: Key, v: Tables, id: int, delta: int)
    requires TriedOk(key, v) && id in v.mapInfo
    ensures TriedOk(key, WithRef(v, id, delta))
  {
    var w := WithRef(v, id, delta);
    forall c, i | 0 <= c < TRIED_BUCKET_COUNT && 0 <= i < |w.vvTried[c]| ensures Filed(key, w.mapInfo, w.vvTried[c][i], c) {
      assert Filed(key, v.mapInfo, v.vvTried[c][i], c);
    }
  }

  lemma RefCounted(v: Tables, id: int, delta: int)
    requires Counted(v) && id in v.mapInfo
    ensures Counted(WithRef(v, id, delta))
  {
    assert TriedIds(WithRef(v, id, delta)) == TriedIds(v);
    assert NewIds(WithRef(v, id, delta)) == NewIds(v);
  }

  // Another reference stays.
  lemma {:induction false} RefMove(key: Key, v: Tables, w: Tables, b: nat, id: int, pending: int)
    requires Settled(key, v, pending) && b < NEW_BUCKET_COUNT && id in v.vvNew[b] && id != pending
    requires v.mapInfo[id].nRefCount > 1
    requires w == WithRef(v, id, -1).(vvNew := v.vvNew[b := v.vvNew[b] - {id}])
    ensures Settled(key, w, pending)
  {
    UntriedInNew(v, pending, b, id);
    RefTried(key, v, id, -1);
    RefCounted(v, id, -1);
    assert Indexed(w) && Addressed(w) && Stamped(w) by { hide NewOk, TriedOk, Counted; }
    assert NewOk(w, pending) by {
      hide TriedOk, Indexed, Stamped, Addressed, Counted;
      HoldersLose(v.vvNew, b, id);
    }
  }

  // ---------- a new entry, another reference ----------

  // What Add_ makes of an unknown address before it chooses a bucket: counted, with one reference due.
  function Created(v: Tables, addr: Address, source: NetAddr): Tables {
    v.(nIdCount := v.nIdCount + 1,
       mapInfo := v.mapInfo[v.nIdCount := Info(addr, source, 0, 0, 0, 0, false, |v.vRandom|)],
       mapAddr := v.mapAddr[addr.service.net := v.nIdCount],
       vRandom := v.vRandom + [v.nIdCount])
  }

  lemma CreatedCounted(v: Tables, w: Tables, id: int, info: Info)
    requires Counted(v) && id !in v.mapInfo && w.mapInfo == v.mapInfo[id := info] && !info.fInTried
    requires w.nTried == v.nTried && w.nNew == v.nNew + 1 && |w.vRandom| == |v.vRandom| + 1
    ensures Counted(w)
  {
    NewIdJoins(v, w, id, info);
    hide TriedIds, NewIds;
  }

  lemma NewIdJoins(v: Tables, w: Tables, id: int, info: Info)
    requires id !in v.mapInfo && w.mapInfo == v.mapInfo[id := info] && !info.fInTried
    ensures TriedIds(w) == TriedIds(v) && NewIds(w) == NewIds(v) + {id} && id !in NewIds(v)
  {}

  lemma {:induction false} CreatedKeeps(key: Key, v: Tables, w: Tables, id: int, info: Info)
    requires Consistent(key, v) && id == v.nIdCount >= 0 && info.Net() !in v.mapAddr
    requires info.nRefCount == 1 && !info.fInTried && info.nRandomPos == |v.vRandom|
    requires info.nLastTry >= 0 && info.nLastSuccess >= 0
    requires w == v.(nIdCount := id + 1, mapInfo := v.mapInfo[id := info], mapAddr := v.mapAddr[info.Net() := id],
                     vRandom := v.vRandom + [id], nNew := v.nNew + 1)
    ensures Settled(key, w, id)
  {
    assert id !in v.mapInfo;
    assert Indexed(w) by { hide NewOk, TriedOk, Counted, Stamped, Addressed; }
    assert Addressed(w) by { hide NewOk, TriedOk, Counted, Stamped; }
    assert Stamped(w) by { hide NewOk, TriedOk, Counted, Indexed, Addressed; }
    assert Counted(w) by {
      hide NewOk, TriedOk, Indexed, Stamped, Addressed, Counted;
      CreatedCounted(v, w, id, info);
    }
    assert NewOk(w, id) by {
      hide TriedOk, Indexed, Stamped, Addressed, Counted;
      assert Holders(v.vvNew, id) == {};
    }
    assert TriedOk(key, w) by { hide NewOk, Indexed, Stamped, Addressed, Counted; CreatedTried(key, v, w, id, info); }
  }

  lemma CreatedTried(key: Key, v: Tables, w: Tables, id: int, info: Info)
    requires TriedOk(key, v) && id !in v.mapInfo && !info.fInTried
    requires w.mapInfo == v.mapInfo[id := info] && w.vvTried == v.vvTried
    ensures TriedOk(key, w)
  {
    forall c, i | 0 <= c < TRIED_BUCKET_COUNT && 0 <= i < |w.vvTried[c]| ensures Filed(key, w.mapInfo, w.vvTried[c][i], c) {
      assert Filed(key, v.mapInfo, v.vvTried[c][i], c);
    }
  }

  lemma {:induction false} BumpedKeeps(key: Key, v: Tables, id: int)
    requires Consistent(key, v) && id in v.mapInfo && !v.mapInfo[id].fInTried
    requires v.mapInfo[id].nRefCount < NEW_BUCKETS_PER_ADDRESS
    ensures Settled(key, WithRef(v, id, 1), id)
  {
    assert Indexed(WithRef(v, id, 1)) && Addressed(WithRef(v, id, 1)) && Stamped(WithRef(v, id, 1));
    RefTried(key, v, id, 1);
    RefCounted(v, id, 1);
  }

  function Inserted(v: Tables, b: nat, id: int): Tables
    requires b < |v.vvNew|
  {
    v.(vvNew := v.vvNew[b := v.vvNew[b] + {id}])
  }

  lemma InsertedNew(v: Tables, b: nat, id: int)
    requires NewOk(v, id) && id in v.mapInfo && !v.mapInfo[id].fInTried && NoId !in v.mapInfo
    requires b < NEW_BUCKET_COUNT && id !in v.vvNew[b] && |v.vvNew[b]| < NEW_BUCKET_SIZE
    ensures NewOk(Inserted(v, b, id), NoId)
  {
    HoldersGain(v.vvNew, b, id);
  }

  // The bucket has room: the due reference is made good.
  lemma {:induction false} InsertedKeeps(key: Key, v: Tables, b: nat, id: int)
    requires Settled(key, v, id) && id in v.mapInfo && !v.mapInfo[id].fInTried
    requires b < NEW_BUCKET_COUNT && id !in v.vvNew[b] && |v.vvNew[b]| < NEW_BUCKET_SIZE
    ensures Consistent(key, Inserted(v, b, id))
  {
    InsertedNew(v, b, id);
    hide NewOk;
    var w := Inserted(v, b, id);
    assert TriedIds(w) == TriedIds(v) && NewIds(w) == NewIds(v);
    assert TriedOk(key, w) by { hide Indexed, Addressed, Stamped, Counted; }
  }

  // ---------- from new to tried ----------

  lemma DistinctAt(s: seq<int>, i: nat, j: nat)
    requires Distinct(s) && i < j < |s|
    ensures s[i] != s[j]
  {
    var a, b := s[..j], s[j..];
    assert s == a + b;
    assert s[i] == a[i] && a[i] in multiset(a);
    assert s[j] == b[0] && b[0] in multiset(b);
    assert multiset(s)[s[j]] == multiset(a)[s[j]] + multiset(b)[s[j]];
  }

  lemma PermutationSame(a: seq<int>, b: seq<int>)
    requires multiset(a) == multiset(b)
    ensures |a| == |b| && (forall x :: x in b <==> x in a) && (Distinct(a) ==> Distinct(b))
  {
    assert |multiset(a)| == |multiset(b)|;
    forall x ensures x in b <==> x in a { assert x in multiset(b) <==> x in multiset(a); }
  }

  // Removed from every new bucket.
  function Cleared(vvNew: seq<set<int>>, id: int): (r: seq<set<int>>)
    ensures |r| == |vvNew|
    ensures forall b :: 0 <= b < |r| ==> r[b] == vvNew[b] - {id}
  {
    seq(|vvNew|, b requires 0 <= b < |vvNew| => vvNew[b] - {id})
  }

  lemma ClearedHolders(vvNew: seq<set<int>>, id: int)
    ensures Holders(Cleared(vvNew, id), id) == {}
    ensures forall k :: k != id ==> Holders(Cleared(vvNew, id), k) == Holders(vvNew, k)
  {
    forall k | k != id ensures Holders(Cleared(vvNew, id), k) == Holders(vvNew, k) {}
  }

  // There is room in the tried bucket of the entry.
  function Promoted(key: Key, v: Tables, id: int): Tables
    requires id in v.mapInfo && |v.vvTried| == TRIED_BUCKET_COUNT
  {
    var b := key.TriedBucket(v.mapInfo[id].addr.service);
    v.(vvNew := Cleared(v.vvNew, id), nNew := v.nNew - 1, nTried := v.nTried + 1,
       mapInfo := v.mapInfo[id := v.mapInfo[id].(nRefCount := 0, fInTried := true)],
       vvTried := v.vvTried[b := v.vvTried[b] + [id]])
  }

  // The new bucket for an evicted entry: its own if that has room, else the one `id` came from.
  function Fallback(key: Key, v: Tables, id: int, nOrigin: nat, evicted: int): (b: nat)
    requires evicted in v.mapInfo && |v.vvNew| == NEW_BUCKET_COUNT && nOrigin < NEW_BUCKET_COUNT
    ensures b < NEW_BUCKET_COUNT
  {
    var b := key.NewBucket(v.mapInfo[evicted].Net(), v.mapInfo[evicted].source);
    if |Cleared(v.vvNew, id)[b]| < NEW_BUCKET_SIZE then b else nOrigin
  }

  // There is none: the entry takes the place `nPos` in the shuffled bucket, whose holder is new again.
  function Exchanged(key: Key, v: Tables, id: int, nOrigin: nat, bucket: seq<int>, nPos: nat): Tables
    requires id in v.mapInfo && |v.vvTried| == TRIED_BUCKET_COUNT && |v.vvNew| == NEW_BUCKET_COUNT
    requires nOrigin < NEW_BUCKET_COUNT && nPos < |bucket| && bucket[nPos] in v.mapInfo
  {
    var b := key.TriedBucket(v.mapInfo[id].addr.service);
    var evicted := bucket[nPos];
    var target := Fallback(key, v, id, nOrigin, evicted);
    var vvNew := Cleared(v.vvNew, id);
    v.(vvNew := vvNew[target := vvNew[target] + {evicted}],
       mapInfo := v.mapInfo[evicted := v.mapInfo[evicted].(nRefCount := 1, fInTried := false)]
                           [id := v.mapInfo[id].(nRefCount := 0, fInTried := true)],
       vvTried := v.vvTried[b := bucket[nPos := id]])
  }

  // Moving changes only where an entry is held, and then nobody else's.
  predicate MovedInfo(i: Info, j: Info) {
    && j == i.(nRefCount := j.nRefCount, fInTried := j.fInTried)
    && (j.fInTried ==> j.nRefCount == 0)
  }

  lemma MovedIndexes(key: Key, v: Tables, w: Tables)
    requires Indexed(v) && Addressed(v) && Numbered(v)
    requires w.vRandom == v.vRandom && w.mapAddr == v.mapAddr && w.nIdCount == v.nIdCount
    requires forall k :: k in w.mapInfo <==> k in v.mapInfo
    requires forall k :: k in v.mapInfo ==> MovedInfo(v.mapInfo[k], w.mapInfo[k])
    ensures Indexed(w) && Addressed(w) && Numbered(w)
  {
    forall k | k in w.mapInfo ensures k in v.mapInfo && MovedInfo(v.mapInfo[k], w.mapInfo[k]) {}
    forall k | k in v.mapInfo ensures k in w.mapInfo && MovedInfo(v.mapInfo[k], w.mapInfo[k]) {}
    forall a | a in w.mapAddr ensures w.mapAddr[a] in w.mapInfo && w.mapInfo[w.mapAddr[a]].Net() == a {
      var k := v.mapAddr[a];
      assert k in v.mapInfo && MovedInfo(v.mapInfo[k], w.mapInfo[k]);
    }
  }

  lemma {:induction false} PromotedKeeps(key: Key, v: Tables, id: int)
    requires Sound(key, v) && id in v.mapInfo && !v.mapInfo[id].fInTried
    requires |v.vvTried[key.TriedBucket(v.mapInfo[id].addr.service)]| < TRIED_BUCKET_SIZE
    ensures Sound(key, Promoted(key, v, id))
  {
    assert |v.vvTried| == TRIED_BUCKET_COUNT;
    hide Indexed, Addressed, TriedOk, NewOk, Counted;
    MovedIndexes(key, v, Promoted(key, v, id));
    PromotedCounted(key, v, id);
    PromotedNew(key, v, id);
    PromotedTried(key, v, id);
  }

  lemma PromotedCounted(key: Key, v: Tables, id: int)
    requires Counted(v) && id in v.mapInfo && !v.mapInfo[id].fInTried && |v.vvTried| == TRIED_BUCKET_COUNT
    ensures Counted(Promoted(key, v, id))
  {
    var w := Promoted(key, v, id);
    assert TriedIds(w) == TriedIds(v) + {id} && id !in TriedIds(v);
    assert NewIds(w) == NewIds(v) - {id} && id in NewIds(v);
  }

  lemma {:induction false} PromotedNew(key: Key, v: Tables, id: int)
    requires NewOk(v, NoId) && id in v.mapInfo && |v.vvTried| == TRIED_BUCKET_COUNT
    ensures NewOk(Promoted(key, v, id), NoId)
  {
    var w := Promoted(key, v, id);
    ClearedHolders(v.vvNew, id);
    forall b | 0 <= b < NEW_BUCKET_COUNT ensures |w.vvNew[b]| <= NEW_BUCKET_SIZE { SubsetSize(w.vvNew[b], v.vvNew[b]); }
  }

  lemma PromotedTried(key: Key, v: Tables, id: int)
    requires TriedOk(key, v) && id in v.mapInfo && !v.mapInfo[id].fInTried
    requires |v.vvTried[key.TriedBucket(v.mapInfo[id].addr.service)]| < TRIED_BUCKET_SIZE
    ensures TriedOk(key, Promoted(key, v, id))
  {
    var w := Promoted(key, v, id);
    var b := key.TriedBucket(v.mapInfo[id].addr.service);
    forall c, i | 0 <= c < TRIED_BUCKET_COUNT && 0 <= i < |w.vvTried[c]| ensures Filed(key, w.mapInfo, w.vvTried[c][i], c) {
      assert i < |v.vvTried[c]| ==> Filed(key, v.mapInfo, v.vvTried[c][i], c);
    }
    assert Distinct(w.vvTried[b]) by {
      forall i | 0 <= i < |v.vvTried[b]| ensures v.vvTried[b][i] != id { assert Filed(key, v.mapInfo, v.vvTried[b][i], b); }
      assert multiset(w.vvTried[b]) == multiset(v.vvTried[b]) + multiset{id};
    }
    forall k | k in w.mapInfo && w.mapInfo[k].fInTried ensures k in w.vvTried[key.TriedBucket(w.mapInfo[k].addr.service)] {
      if k == id { assert w.vvTried[b][|w.vvTried[b]| - 1] == id; }
    }
  }

  // What an exchange needs: a full bucket, shuffled.
  ghost predicate CanExchange(key: Key, v: Tables, id: int, nOrigin: nat, bucket: seq<int>, nPos: nat) {
    && Sound(key, v) && id in v.mapInfo && !v.mapInfo[id].fInTried
    && nOrigin < NEW_BUCKET_COUNT && id in v.vvNew[nOrigin] && nPos < |bucket|
    && multiset(bucket) == multiset(v.vvTried[key.TriedBucket(v.mapInfo[id].addr.service)])
  }

  lemma EvictedIsTried(key: Key, v: Tables, id: int, nOrigin: nat, bucket: seq<int>, nPos: nat)
    requires CanExchange(key, v, id, nOrigin, bucket, nPos)
    ensures bucket[nPos] in v.mapInfo && v.mapInfo[bucket[nPos]].fInTried && bucket[nPos] != id
    ensures |v.vvTried| == TRIED_BUCKET_COUNT && |v.vvNew| == NEW_BUCKET_COUNT
  {
    var b := key.TriedBucket(v.mapInfo[id].addr.service);
    PermutationSame(v.vvTried[b], bucket);
    assert bucket[nPos] in bucket;
    var i :| 0 <= i < |v.vvTried[b]| && v.vvTried[b][i] == bucket[nPos];
    assert Filed(key, v.mapInfo, v.vvTried[b][i], b);
  }

  lemma {:induction false} ExchangedCounted(key: Key, v: Tables, id: int, nOrigin: nat, bucket: seq<int>, nPos: nat)
    requires CanExchange(key, v, id, nOrigin, bucket, nPos)
    requires bucket[nPos] in v.mapInfo && v.mapInfo[bucket[nPos]].fInTried
    ensures Counted(Exchanged(key, v, id, nOrigin, bucket, nPos))
  {
    hide TriedOk, NewOk, Indexed, Addressed, Numbered, Fallback;
    assert |v.vvTried| == TRIED_BUCKET_COUNT && |v.vvNew| == NEW_BUCKET_COUNT by { EvictedIsTried(key, v, id, nOrigin, bucket, nPos); }
    var w := Exchanged(key, v, id, nOrigin, bucket, nPos);
    var evicted := bucket[nPos];
    assert TriedIds(w) == TriedIds(v) - {evicted} + {id} && id !in TriedIds(v) && evicted in TriedIds(v);
    assert NewIds(w) == NewIds(v) - {id} + {evicted} && id in NewIds(v) && evicted !in NewIds(v);
  }

  // The fallback has room: the entry has just been taken out of the bucket it came from.
  lemma FallbackHasRoom(key: Key, v: Tables, id: int, nOrigin: nat, evicted: int)
    requires NewOk(v, NoId) && nOrigin < NEW_BUCKET_COUNT && id in v.vvNew[nOrigin] && evicted in v.mapInfo
    ensures |Cleared(v.vvNew, id)[Fallback(key, v, id, nOrigin, evicted)]| < NEW_BUCKET_SIZE
  {}

  lemma {:induction false} ExchangedNew(key: Key, v: Tables, id: int, nOrigin: nat, bucket: seq<int>, nPos: nat)
    requires CanExchange(key, v, id, nOrigin, bucket, nPos)
    requires bucket[nPos] in v.mapInfo && v.mapInfo[bucket[nPos]].fInTried
    ensures NewOk(Exchanged(key, v, id, nOrigin, bucket, nPos), NoId)
  {
    EvictedIsTried(key, v, id, nOrigin, bucket, nPos);
    hide TriedOk, Counted, Indexed, Addressed, Numbered;
    var evicted := bucket[nPos];
    var w := Exchanged(key, v, id, nOrigin, bucket, nPos);
    var target := Fallback(key, v, id, nOrigin, evicted);
    FallbackHasRoom(key, v, id, nOrigin, evicted);
    hide Fallback;
    var vvNew := Cleared(v.vvNew, id);
    ClearedHolders(v.vvNew, id);
    HoldersGain(vvNew, target, evicted);
    assert Holders(v.vvNew, evicted) == {};
    forall b | 0 <= b < NEW_BUCKET_COUNT ensures |w.vvNew[b]| <= NEW_BUCKET_SIZE { SubsetSize(vvNew[b], v.vvNew[b]); }
  }

  lemma Replaced(was: seq<int>, bucket: seq<int>, nPos: nat, id: int)
    requires multiset(bucket) == multiset(was) && Distinct(was) && id !in was && nPos < |bucket|
    ensures var now := bucket[nPos := id];
            Distinct(now) && forall x :: x in now <==> x == id || (x in was && x != bucket[nPos])
  {
    var now := bucket[nPos := id];
    PermutationSame(was, bucket);
    assert multiset(now) == multiset(bucket) - multiset{bucket[nPos]} + multiset{id};
    assert bucket[nPos] in bucket && bucket[nPos] in multiset(bucket);
    forall x ensures x in now <==> x == id || (x in was && x != bucket[nPos]) {
      assert x in now <==> x in multiset(now);
      assert x in bucket <==> x in multiset(bucket);
    }
  }

  lemma {:induction false} ExchangedTried(key: Key, v: Tables, id: int, nOrigin: nat, bucket: seq<int>, nPos: nat)
    requires CanExchange(key, v, id, nOrigin, bucket, nPos)
    requires bucket[nPos] in v.mapInfo && v.mapInfo[bucket[nPos]].fInTried
    ensures TriedOk(key, Exchanged(key, v, id, nOrigin, bucket, nPos))
  {
    EvictedIsTried(key, v, id, nOrigin, bucket, nPos);
    hide NewOk, Counted, Indexed, Addressed, Numbered, Fallback, Distinct;
    var evicted := bucket[nPos];
    var b := key.TriedBucket(v.mapInfo[id].addr.service);
    var was := v.vvTried[b];
    var w := Exchanged(key, v, id, nOrigin, bucket, nPos);
    EvictedBucket(key, v, bucket, nPos, b);
    forall i | 0 <= i < |was| ensures was[i] in v.mapInfo && was[i] != id { assert Filed(key, v.mapInfo, was[i], b); }
    PermutationSame(was, bucket);
    Replaced(was, bucket, nPos, id);
    forall c, i | 0 <= c < TRIED_BUCKET_COUNT && 0 <= i < |w.vvTried[c]| ensures Filed(key, w.mapInfo, w.vvTried[c][i], c) {
      var k := w.vvTried[c][i];
      assert k in w.vvTried[c];
      if k != id {
        assert k in v.vvTried[c];
        var j :| 0 <= j < |v.vvTried[c]| && v.vvTried[c][j] == k;
        assert Filed(key, v.mapInfo, v.vvTried[c][j], c);
      }
    }
  }

  lemma EvictedBucket(key: Key, v: Tables, bucket: seq<int>, nPos: nat, b: nat)
    requires TriedOk(key, v) && b < TRIED_BUCKET_COUNT && nPos < |bucket| && multiset(bucket) == multiset(v.vvTried[b])
    ensures Filed(key, v.mapInfo, bucket[nPos], b)
  {
    PermutationSame(v.vvTried[b], bucket);
    assert bucket[nPos] in bucket;
    var i :| 0 <= i < |v.vvTried[b]| && v.vvTried[b][i] == bucket[nPos];
    assert Filed(key, v.mapInfo, v.vvTried[b][i], b);
  }

  lemma {:induction false} ExchangedKeeps(key: Key, v: Tables, id: int, nOrigin: nat, bucket: seq<int>, nPos: nat)
    requires CanExchange(key, v, id, nOrigin, bucket, nPos)
    ensures bucket[nPos] in v.mapInfo && |v.vvTried| == TRIED_BUCKET_COUNT && |v.vvNew| == NEW_BUCKET_COUNT
    ensures Sound(key, Exchanged(key, v, id, nOrigin, bucket, nPos))
  {
    EvictedIsTried(key, v, id, nOrigin, bucket, nPos);
    hide Indexed, Addressed, TriedOk, NewOk, Counted, Fallback;
    MovedIndexes(key, v, Exchanged(key, v, id, nOrigin, bucket, nPos));
    ExchangedCounted(key, v, id, nOrigin, bucket, nPos);
    ExchangedNew(key, v, id, nOrigin, bucket, nPos);
    ExchangedTried(key, v, id, nOrigin, bucket, nPos);
  }
}
