/** Inputs at which the address manager fails what it keeps only under a condition. */
module AddrFailures {
  import opened Basics
  import opened AddrTables
  import opened AddrCheck
  import opened AddrFile
  import opened AddrRebuild

  // ---------- a file that rebuilds a bucket too full ----------

  // Every source hashes to bucket 0.
  const OneBucket := Key((s: Service) => 0, (n: NetAddr, m: NetAddr) => 0)

  const SIZE := NEW_BUCKET_SIZE + 1

  function Entry(i: nat): Info { Info(Address(Service(i, 0), {}, 0), 0, 0, 0, 0, 1, false, i) }

  // 65 new entries: 64 of them in bucket 0, as many as there may be, and the last in bucket 1.
  function InBucket(b: int): set<int> {
    if b == 0 then Upto(NEW_BUCKET_SIZE) else if b == 1 then {NEW_BUCKET_SIZE} else {}
  }

  function Crowded(): Tables {
    Tables(SIZE, map i: int | 0 <= i < SIZE :: Entry(i), map i: nat | i in Upto(SIZE) :: i, seq(SIZE, i => i),
           0, seq(TRIED_BUCKET_COUNT, _ => []), SIZE, seq(NEW_BUCKET_COUNT, b => InBucket(b)))
  }

  lemma CrowdedHolders(i: int)
    requires 0 <= i < SIZE
    ensures Holders(Crowded().vvNew, i) == if i < NEW_BUCKET_SIZE then {0} else {1}
  {
    hide Upto;
    var vvNew := Crowded().vvNew;
    forall b | 0 <= b < NEW_BUCKET_COUNT ensures i in vvNew[b] <==> b == if i < NEW_BUCKET_SIZE then 0 else 1 {
      assert vvNew[b] == InBucket(b);
    }
  }

  lemma CrowdedCounted()
    ensures Counted(Crowded()) && NewIds(Crowded()) == Upto(SIZE) && TriedIds(Crowded()) == {}
  {
    hide Upto;
    assert NewIds(Crowded()) == Upto(SIZE);
    assert TriedIds(Crowded()) == {};
  }

  lemma CrowdedNew()
    ensures NewOk(Crowded(), NoId)
  {
    hide Upto;
    var v := Crowded();
    forall b | 0 <= b < NEW_BUCKET_COUNT ensures v.vvNew[b] == InBucket(b) && |v.vvNew[b]| <= NEW_BUCKET_SIZE {}
    forall i | 0 <= i < SIZE ensures |Holders(v.vvNew, i)| == 1 { CrowdedHolders(i); }
    hide Holders;
  }

  lemma CrowdedIsConsistent()
    ensures Consistent(OneBucket, Crowded())
  {
    hide Upto;
    CrowdedCounted();
    CrowdedNew();
    hide NewOk, Counted;
  }

  // The file of a version that has two new buckets.
  function CrowdedFile(): Peers {
    Peers(seq(SIZE, i requires i >= 0 => Packed(Entry(i))), [], 2, [seq(NEW_BUCKET_SIZE, i => i), [NEW_BUCKET_SIZE]])
  }

  lemma CrowdedIsSaved()
    ensures SavedElsewhere(Crowded(), CrowdedFile(), seq(SIZE, i => i), [])
  {
    hide Upto;
    CrowdedCounted();
    hide Counted;
    var ids: seq<int> := seq(SIZE, i => i);
    forall x | x in Upto(SIZE) ensures x in ids { assert ids[x] == x; }
  }

  lemma AllInOne()
    ensures |Rebuilt(OneBucket, CrowdedFile().news, 0)| == SIZE
  {
    hide Upto;
    assert Rebuilt(OneBucket, CrowdedFile().news, 0) == Upto(SIZE);
  }

  // The manager is consistent, and what is read from its file is not: all 65 entries go to bucket 0.
  lemma RebuiltTooFull()
    ensures Consistent(OneBucket, Crowded()) && SavedElsewhere(Crowded(), CrowdedFile(), seq(SIZE, i => i), [])
    ensures |Rebuilt(OneBucket, CrowdedFile().news, 0)| > NEW_BUCKET_SIZE
    ensures !Consistent(OneBucket, Restored(OneBucket, CrowdedFile()))
  {
    hide Upto;
    AllInOne();
    CrowdedIsConsistent();
    CrowdedIsSaved();
    hide Settled, SavedElsewhere, Restored, Rebuilt, Crowded;
    TooFull(Crowded(), CrowdedFile(), seq(SIZE, i => i));
  }

  lemma TooFull(v: Tables, p: Peers, newIds: seq<int>)
    requires Consistent(OneBucket, v) && SavedElsewhere(v, p, newIds, []) && |Rebuilt(OneBucket, p.news, 0)| > NEW_BUCKET_SIZE
    ensures |p.buckets| <= NEW_BUCKET_COUNT && !Consistent(OneBucket, Restored(OneBucket, p))
  {
    hide Settled, SavedEntries, Restored, Rebuilt;
    RebuiltIff(OneBucket, v, p, newIds, []);
  }

  // ---------- a fault that the self-check does not find ----------

  // One new entry, of id 0, whose address cannot be looked up.
  function Unlisted(): Tables {
    Tables(1, map[0 := Entry(0)], map[], [0], 0, seq(TRIED_BUCKET_COUNT, _ => []), 1, seq(NEW_BUCKET_COUNT, b => if b == 0 then {0} else {}))
  }

  lemma {:induction false} FlattenEmpty(ss: seq<seq<int>>)
    requires forall b :: 0 <= b < |ss| ==> ss[b] == []
    ensures Flatten(ss) == []
  {
    if ss != [] { FlattenEmpty(ss[..|ss| - 1]); }
  }

  lemma MissingAddressPasses(key: Key)
    ensures Checked(Unlisted()) && !Consistent(key, Unlisted())
  {
    var v := Unlisted();
    assert !Addressed(v) by { assert 0 in v.mapInfo; }
    hide Settled;
    FlattenEmpty(v.vvTried);
    assert TriedIds(v) == {} && NewIds(v) == {0};
    forall id ensures |Holders(v.vvNew, id)| == if id == 0 then 1 else 0 {
      assert Holders(v.vvNew, id) == if id == 0 then {0} else {};
    }
    hide Holders, Flatten;
  }
}
