/** The target of the next block, moving towards one block per target spacing. */
module Retarget {
  import opened Basics
  import opened Compact

  const STAKE_TARGET_SPACING: int := 60
  const TARGET_TIMESPAN: int := 7 * 24 * 60 * 60
  const TARGET_SPACING_WORK_MAX: int := 12 * STAKE_TARGET_SPACING

  // What depends on the network, and the test for protocol 0.5 by block time.
  datatype Params = Params(bnProofOfWorkLimit: nat, bnInitialHashTarget: nat, bnInitialProofOfStakeHashTarget: nat,
                           isNuProtocolV05: int -> bool)

  // What the target depends on of a block index entry, with the entries below it.
  datatype Header = Null | Entry(pprev: Header, fProofOfStake: bool, nTime: int, nBits: nat, nHeight: int)

  ghost predicate Linked(b: Header) {
    b.Entry? ==>
      && b.nBits < 0x1_0000_0000 && 0 <= b.nTime < 0x1_0000_0000
      && Linked(b.pprev) && (b.pprev.Entry? ==> b.nHeight == b.pprev.nHeight + 1)
  }

  // ---------- finding a block of one kind ----------

  // The nearest block at or before b that is of the kind asked for, or else the first block.
  function LastOf(b: Header, fProofOfStake: bool): Header {
    if b.Entry? && b.pprev.Entry? && b.fProofOfStake != fProofOfStake then LastOf(b.pprev, fProofOfStake) else b
  }

  method GetLastBlockIndex(b: Header, fProofOfStake: bool) returns (pindex: Header)
    ensures pindex == LastOf(b, fProofOfStake)
  {
    pindex := b;
    while pindex.Entry? && pindex.pprev.Entry? && pindex.fProofOfStake != fProofOfStake
      invariant LastOf(pindex, fProofOfStake) == LastOf(b, fProofOfStake)
      decreases pindex
    {
      pindex := pindex.pprev;
    }
  }

  // The block found is at or before b, and none of its kind lies between.
  lemma {:induction false} LastIs(b: Header, fProofOfStake: bool)
    requires b.Entry? && Linked(b)
    ensures var p := LastOf(b, fProofOfStake);
            && p.Entry? && Linked(p) && p.nHeight <= b.nHeight
            && (p.fProofOfStake == fProofOfStake || p.pprev == Null)
            && forall x :: Before(x, b) && x.nHeight > p.nHeight ==> x.fProofOfStake != fProofOfStake
  {
    if b.pprev.Entry? && b.fProofOfStake != fProofOfStake {
      LastIs(b.pprev, fProofOfStake);
    } else {
      forall x | Before(x, b) ensures x.nHeight <= b.nHeight { BeforeIsLower(x, b); }
    }
  }

  // x is b or one of its ancestors.
  ghost predicate Before(x: Header, b: Header) {
    x.Entry? && b.Entry? && (x == b || Before(x, b.pprev))
  }

  lemma {:induction false} BeforeIsLower(x: Header, b: Header)
    requires Linked(b) && Before(x, b)
    ensures x.nHeight <= b.nHeight
  {
    if x != b { BeforeIsLower(x, b.pprev); }
  }

  // ---------- the next target ----------

  // Division that drops the fraction, as big numbers divide.
  function Divided(x: int, y: int): int
    requires y > 0
  {
    if x >= 0 then x / y else -((-x) / y)
  }

  function Interval(nTargetSpacing: int): int
    requires nTargetSpacing > 0
  {
    TARGET_TIMESPAN / nTargetSpacing
  }

  // The target moved towards the spacing it should give, before any limit.
  function Moved(target: int, nTargetSpacing: int, nActualSpacing: int): int
    requires nTargetSpacing > 0
  {
    var nInterval := Interval(nTargetSpacing);
    ScalePositive(nTargetSpacing);
    Divided(target * ((nInterval - 1) * nTargetSpacing + nActualSpacing + nActualSpacing), (nInterval + 1) * nTargetSpacing)
  }

  lemma ScalePositive(s: int)
    requires s > 0
    ensures (Interval(s) + 1) * s > 0 && Interval(s) >= 0
    ensures (Interval(s) - 1) * s + s + s == (Interval(s) + 1) * s
  {
    assert Interval(s) >= 0;
    hide Interval;
  }

  function Limited(p: Params, fV05: bool, target: int): int {
    if target > p.bnProofOfWorkLimit && !fV05 then p.bnProofOfWorkLimit else target
  }

  function NextTarget(p: Params, fV05: bool, nBits: nat, nTargetSpacing: int, nActualSpacing: int): int
    requires nTargetSpacing > 0
  {
    Limited(p, fV05, Moved(Decoded(nBits), nTargetSpacing, nActualSpacing))
  }

  // Proof-of-work blocks are expected further apart the more blocks lie between.
  function TargetSpacing(fProofOfStake: bool, nBetween: int): (s: int)
    requires nBetween >= 0
    ensures STAKE_TARGET_SPACING <= s <= TARGET_SPACING_WORK_MAX
  {
    if fProofOfStake then STAKE_TARGET_SPACING
    else if TARGET_SPACING_WORK_MAX < STAKE_TARGET_SPACING * (1 + nBetween) then TARGET_SPACING_WORK_MAX
    else STAKE_TARGET_SPACING * (1 + nBetween)
  }

  function InitialTarget(p: Params, fProofOfStake: bool): nat {
    if fProofOfStake then p.bnInitialProofOfStakeHashTarget else p.bnInitialHashTarget
  }

  // The last two blocks of the kind, below or at b, if neither is the first block: the target moves by these.
  ghost predicate Adjusts(b: Header, fProofOfStake: bool)
    requires Linked(b)
  {
    b.Entry? &&
    (LastIs(b, fProofOfStake);
     var prev := LastOf(b, fProofOfStake);
     prev.pprev.Entry? && (LastIs(prev.pprev, fProofOfStake); LastOf(prev.pprev, fProofOfStake).pprev.Entry?))
  }

  ghost function Prev(b: Header, fProofOfStake: bool): (r: Header)
    requires Linked(b) && Adjusts(b, fProofOfStake)
    ensures r.Entry? && r.pprev.Entry? && Linked(r) && r.nHeight <= b.nHeight
  {
    LastIs(b, fProofOfStake);
    LastOf(b, fProofOfStake)
  }

  ghost function PrevPrev(b: Header, fProofOfStake: bool): (r: Header)
    requires Linked(b) && Adjusts(b, fProofOfStake)
    ensures r.Entry? && Linked(r) && r.nHeight < Prev(b, fProofOfStake).nHeight
  {
    LastIs(Prev(b, fProofOfStake).pprev, fProofOfStake);
    LastOf(Prev(b, fProofOfStake).pprev, fProofOfStake)
  }

  ghost function ActualSpacing(b: Header, fProofOfStake: bool): int
    requires Linked(b) && Adjusts(b, fProofOfStake)
  {
    Prev(b, fProofOfStake).nTime - PrevPrev(b, fProofOfStake).nTime
  }

  ghost function SpacingAsked(b: Header, fProofOfStake: bool): (s: int)
    requires Linked(b) && Adjusts(b, fProofOfStake)
    ensures STAKE_TARGET_SPACING <= s <= TARGET_SPACING_WORK_MAX
  {
    TargetSpacing(fProofOfStake, b.nHeight - Prev(b, fProofOfStake).nHeight)
  }

  // The target of the block after b, before it is written in compact form.
  ghost function Target(p: Params, b: Header, fProofOfStake: bool): int
    requires Linked(b)
  {
    if b == Null then p.bnProofOfWorkLimit
    else if !Adjusts(b, fProofOfStake) then InitialTarget(p, fProofOfStake)
    else
      var prev := Prev(b, fProofOfStake);
      NextTarget(p, p.isNuProtocolV05(prev.nTime), prev.nBits, SpacingAsked(b, fProofOfStake), ActualSpacing(b, fProofOfStake))
  }

  ghost function Required(p: Params, pindexLast: Header, fProofOfStake: bool): nat
    requires Linked(pindexLast)
  {
    Encoded(Target(p, pindexLast, fProofOfStake))
  }

  lemma TargetIs(p: Params, b: Header, fProofOfStake: bool)
    requires Linked(b) && Adjusts(b, fProofOfStake)
    ensures var prev := LastOf(b, fProofOfStake);
            && prev.Entry? && LastOf(prev.pprev, fProofOfStake).Entry? && prev.nHeight <= b.nHeight && prev.nBits < 0x1_0000_0000
            && Target(p, b, fProofOfStake) ==
               NextTarget(p, p.isNuProtocolV05(prev.nTime), prev.nBits, TargetSpacing(fProofOfStake, b.nHeight - prev.nHeight),
                          prev.nTime - LastOf(prev.pprev, fProofOfStake).nTime)
  {
    assert b.Entry?;
    var prev := Prev(b, fProofOfStake);
    assert Linked(prev) && prev.nBits < 0x1_0000_0000 && prev == LastOf(b, fProofOfStake);
    assert PrevPrev(b, fProofOfStake) == LastOf(prev.pprev, fProofOfStake);
    hide NextTarget, LastOf, Linked;
  }

  method GetInitialTarget(p: Params, fProofOfStake: bool) returns (nBits: nat)
    ensures nBits == Encoded(InitialTarget(p, fProofOfStake))
  {
    var bn := new BigNum(InitialTarget(p, fProofOfStake));
    nBits := bn.GetCompact();
  }

  method GetNextTargetRequired(p: Params, pindexLast: Header, fProofOfStake: bool) returns (nBits: nat)
    requires Linked(pindexLast)
    ensures nBits == Required(p, pindexLast, fProofOfStake)
  {
    hide Encoded, Decoded, Interval;
    if pindexLast == Null {
      var bnLimit := new BigNum(p.bnProofOfWorkLimit);
      nBits := bnLimit.GetCompact();
      return;
    }
    var pindexPrev := GetLastBlockIndex(pindexLast, fProofOfStake);
    LastIs(pindexLast, fProofOfStake);
    if pindexPrev.pprev == Null {
      nBits := GetInitialTarget(p, fProofOfStake);
      return;
    }
    var pindexPrevPrev := GetLastBlockIndex(pindexPrev.pprev, fProofOfStake);
    LastIs(pindexPrev.pprev, fProofOfStake);
    if pindexPrevPrev.pprev == Null {
      nBits := GetInitialTarget(p, fProofOfStake);
      return;
    }
    var nActualSpacing := pindexPrev.nTime - pindexPrevPrev.nTime;
    TargetIs(p, pindexLast, fProofOfStake);
    hide Target, Adjusts, Prev, PrevPrev, LastOf, Linked;
    var bnNew := new BigNum(0);
    bnNew.SetCompact(pindexPrev.nBits);
    var nTargetSpacing := TargetSpacing(fProofOfStake, pindexLast.nHeight - pindexPrev.nHeight);
    var nInterval := Interval(nTargetSpacing);
    ScalePositive(nTargetSpacing);
    bnNew.bn := bnNew.bn * ((nInterval - 1) * nTargetSpacing + nActualSpacing + nActualSpacing);
    bnNew.bn := Divided(bnNew.bn, (nInterval + 1) * nTargetSpacing);
    if bnNew.bn > p.bnProofOfWorkLimit && !p.isNuProtocolV05(pindexPrev.nTime) {
      bnNew.bn := p.bnProofOfWorkLimit;
    }
    nBits := bnNew.GetCompact();
  }

  // ---------- what it achieves ----------

  lemma DividedMultiple(x: int, d: int)
    requires d > 0
    ensures Divided(x * d, d) == x
  {
    if x >= 0 {
      QuotientIs(x * d, d, x);
    } else {
      QuotientIs((-x) * d, d, -x);
      assert (-x) * d == -(x * d);
    }
  }

  lemma DividedGrows(x: int, y: int, d: int)
    requires d > 0 && x <= y
    ensures Divided(x, d) <= Divided(y, d)
  {
    if x >= 0 {
      QuotientGrows(x, y, d);
    } else if y < 0 {
      QuotientGrows(-y, -x, d);
    } else {
      DividedSign(x, d);
      DividedSign(y, d);
      hide Divided;
    }
  }

  lemma DividedSign(x: int, d: int)
    requires d > 0
    ensures if x >= 0 then Divided(x, d) >= 0 else Divided(x, d) <= 0
  {
    QuotientNotNegative(Abs(x), d);
  }

  // x is the last block of its kind at or below b, and y the last of that kind below x; y is not the first block.
  ghost predicate LastTwo(b: Header, x: Header, y: Header, fProofOfStake: bool) {
    && LastOfKind(b, x, fProofOfStake) && LastOfKind(x.pprev, y, fProofOfStake) && y.pprev.Entry?
  }

  ghost predicate LastOfKind(b: Header, x: Header, fProofOfStake: bool) {
    && Before(x, b) && x.fProofOfStake == fProofOfStake
    && forall z :: Before(z, b) && z.nHeight > x.nHeight ==> z.fProofOfStake != fProofOfStake
  }

  lemma {:induction false} LastOfKindIs(b: Header, x: Header, fProofOfStake: bool)
    requires Linked(b) && LastOfKind(b, x, fProofOfStake)
    ensures LastOf(b, fProofOfStake) == x
  {
    if b.fProofOfStake == fProofOfStake {
      assert Before(b, b);
      if x != b { BeforeIsLower(x, b.pprev); }
    } else {
      assert forall z :: Before(z, b.pprev) ==> Before(z, b);
      LastOfKindIs(b.pprev, x, fProofOfStake);
    }
  }

  lemma LastTwoAre(b: Header, x: Header, y: Header, fProofOfStake: bool)
    requires Linked(b) && LastTwo(b, x, y, fProofOfStake)
    ensures Adjusts(b, fProofOfStake) && Prev(b, fProofOfStake) == x && PrevPrev(b, fProofOfStake) == y
    ensures x.nHeight <= b.nHeight && x.nBits < 0x1_0000_0000 && -0x1_0000_0000 < x.nTime - y.nTime < 0x1_0000_0000
  {
    LastOfKindIs(b, x, fProofOfStake);
    LastIs(b, fProofOfStake);
    LastOfKindIs(x.pprev, y, fProofOfStake);
    LastIs(x.pprev, fProofOfStake);
    hide LastOf, LastOfKind;
  }

  // The target moves exactly if two blocks of the kind can be found above the first block.
  lemma {:induction false} AdjustsIff(b: Header, fProofOfStake: bool)
    requires Linked(b)
    ensures Adjusts(b, fProofOfStake) <==> exists x, y :: LastTwo(b, x, y, fProofOfStake)
  {
    if Adjusts(b, fProofOfStake) {
      var x := LastOf(b, fProofOfStake);
      LastIs(b, fProofOfStake);
      LastIsBefore(b, fProofOfStake);
      LastIs(x.pprev, fProofOfStake);
      LastIsBefore(x.pprev, fProofOfStake);
      assert LastTwo(b, x, LastOf(x.pprev, fProofOfStake), fProofOfStake);
    }
    if x, y :| LastTwo(b, x, y, fProofOfStake) { LastTwoAre(b, x, y, fProofOfStake); }
  }

  // Without two such blocks the initial target of the kind is required, and before any block the limit.
  lemma {:induction false} FirstTargets(p: Params, b: Header, fProofOfStake: bool)
    requires Linked(b) && forall x, y :: !LastTwo(b, x, y, fProofOfStake)
    ensures b == Null ==> Required(p, b, fProofOfStake) == Encoded(p.bnProofOfWorkLimit)
    ensures b != Null && fProofOfStake ==> Required(p, b, fProofOfStake) == Encoded(p.bnInitialProofOfStakeHashTarget)
    ensures b != Null && !fProofOfStake ==> Required(p, b, fProofOfStake) == Encoded(p.bnInitialHashTarget)
  {
    AdjustsIff(b, fProofOfStake);
    hide Encoded, Adjusts;
  }

  // Proof-of-stake blocks 60 seconds apart keep a canonical target, whatever lies between them. Proof-of-work
  // blocks keep it at 60 seconds for the next block and for each on top of the last one, but at most at 720.
  // It is kept exactly when the limit leaves it.
  lemma {:induction false} SteadyTarget(p: Params, b: Header, x: Header, y: Header, fProofOfStake: bool)
    requires Linked(b) && LastTwo(b, x, y, fProofOfStake) && Fits(p.bnProofOfWorkLimit) && Canonical(x.nBits)
    requires x.nTime - y.nTime == if fProofOfStake then 60 else if b.nHeight - x.nHeight < 12 then 60 * (1 + b.nHeight - x.nHeight) else 720
    ensures Required(p, b, fProofOfStake) == x.nBits <==> Decoded(x.nBits) <= p.bnProofOfWorkLimit || p.isNuProtocolV05(x.nTime)
  {
    LastTwoAre(b, x, y, fProofOfStake);
    hide Encoded, Decoded, NextTarget, Fits, Canonical, Adjusts, Prev, PrevPrev, LastTwo;
    assert b.Entry?;
    SteadyStep(p, p.isNuProtocolV05(x.nTime), x.nBits, SpacingAsked(b, fProofOfStake));
  }

  // x divided by d, without the fraction.
  predicate IsQuotient(q: int, x: int, d: int) { if x >= 0 then q >= 0 && q * d <= x < q * d + d else q <= 0 && q * d - d < x <= q * d }

  // The target moves in proportion to the time the two blocks are apart. For proof of stake 60 seconds leave it, and
  // every further second adds one part in 302430; for proof of work m minutes do, where m - 1 blocks, at most 11, are
  // on top of the last one, and the week is counted in whole multiples of these m minutes.
  lemma {:induction false} MovedTarget(p: Params, b: Header, x: Header, y: Header, fProofOfStake: bool) returns (moved: int)
    requires Linked(b) && LastTwo(b, x, y, fProofOfStake)
    ensures x.nHeight <= b.nHeight
    ensures var a := x.nTime - y.nTime;
            var m := if b.nHeight - x.nHeight < 12 then 1 + b.nHeight - x.nHeight else 12;
            if fProofOfStake then IsQuotient(moved, Decoded(x.nBits) * (604740 + 2 * a), 604860)
            else IsQuotient(moved, Decoded(x.nBits) * ((10080 / m - 1) * 60 * m + 2 * a), (10080 / m + 1) * 60 * m)
    ensures Required(p, b, fProofOfStake) ==
            Encoded(if moved <= p.bnProofOfWorkLimit || p.isNuProtocolV05(x.nTime) then moved else p.bnProofOfWorkLimit)
  {
    LastTwoAre(b, x, y, fProofOfStake);
    hide Encoded, Decoded, Divided, IsQuotient, Adjusts, Prev, PrevPrev, LastTwo;
    assert b.Entry?;
    var a, s := x.nTime - y.nTime, SpacingAsked(b, fProofOfStake);
    var m := if fProofOfStake then 1 else if b.nHeight - x.nHeight < 12 then 1 + b.nHeight - x.nHeight else 12;
    assert s == 60 * m;
    WeekIn(m);
    ScalePositive(s);
    moved := Moved(Decoded(x.nBits), s, a);
    DividedIs(Decoded(x.nBits) * ((Interval(s) - 1) * s + a + a), (Interval(s) + 1) * s, moved);
  }

  // The multiples of m minutes in a week.
  lemma WeekIn(m: int)
    requires 1 <= m <= 12
    ensures Interval(60 * m) == 10080 / m
    ensures (Interval(60 * m) - 1) * (60 * m) == (10080 / m - 1) * 60 * m && (Interval(60 * m) + 1) * (60 * m) == (10080 / m + 1) * 60 * m
    ensures m == 1 ==> (Interval(60) - 1) * 60 == 604740 && (Interval(60) + 1) * 60 == 604860
  {}

  lemma DividedIs(x: int, d: int, q: int)
    requires d > 0
    ensures IsQuotient(q, x, d) <==> Divided(x, d) == q
  {
    var r := Abs(x) / d;
    Basics.Quotient(Abs(x), d);
    QuotientNotNegative(Abs(x), d);
    assert (-r) * d == -(r * d) && (-q) * d == -(q * d);
    if IsQuotient(q, x, d) { QuotientIs(Abs(x), d, Abs(q)); }
  }

  lemma SteadyStep(p: Params, fV05: bool, nBits: nat, s: int)
    requires s > 0 && Canonical(nBits) && Fits(p.bnProofOfWorkLimit)
    ensures Encoded(NextTarget(p, fV05, nBits, s, s)) == nBits <==> Decoded(nBits) <= p.bnProofOfWorkLimit || fV05
  {
    var target := Decoded(nBits);
    ReadThenWrite(nBits);
    ScalePositive(s);
    DividedMultiple(target, (Interval(s) + 1) * s);
    assert Moved(target, s, s) == target;
    hide Moved, Encoded, Decoded, Fits;
    if target > p.bnProofOfWorkLimit && !fV05 {
      assert p.bnProofOfWorkLimit >= 0;
      KeptIsLess(p.bnProofOfWorkLimit);
    }
  }

  lemma KeptIsLess(m: nat)
    requires Fits(m)
    ensures Decoded(Encoded(m)) <= m
  {
    ReadBack(m);
    KeptBound(m);
  }

  // ---------- other block times ----------

  // The chain with another time in the block at height h.
  function Retimed(b: Header, h: int, t: int): Header {
    if b == Null then Null else b.(pprev := Retimed(b.pprev, h, t), nTime := if b.nHeight == h then t else b.nTime)
  }

  lemma {:induction false} RetimedLinked(b: Header, h: int, t: int)
    requires Linked(b) && 0 <= t < 0x1_0000_0000
    ensures Linked(Retimed(b, h, t))
  {
    if b.Entry? { RetimedLinked(b.pprev, h, t); }
  }

  lemma {:induction false} RetimedLast(b: Header, fProofOfStake: bool, h: int, t: int)
    ensures LastOf(Retimed(b, h, t), fProofOfStake) == Retimed(LastOf(b, fProofOfStake), h, t)
  {
    if b.Entry? && b.pprev.Entry? && b.fProofOfStake != fProofOfStake { RetimedLast(b.pprev, fProofOfStake, h, t); }
  }

  // The same two blocks are found in the other chain.
  lemma {:induction false} RetimedAdjusts(b: Header, fProofOfStake: bool, h: int, t: int)
    requires Linked(b) && 0 <= t < 0x1_0000_0000
    ensures Linked(Retimed(b, h, t)) && (Adjusts(Retimed(b, h, t), fProofOfStake) <==> Adjusts(b, fProofOfStake))
    ensures Adjusts(b, fProofOfStake) ==>
              && Prev(Retimed(b, h, t), fProofOfStake) == Retimed(Prev(b, fProofOfStake), h, t)
              && PrevPrev(Retimed(b, h, t), fProofOfStake) == Retimed(PrevPrev(b, fProofOfStake), h, t)
              && SpacingAsked(Retimed(b, h, t), fProofOfStake) == SpacingAsked(b, fProofOfStake)
  {
    RetimedLinked(b, h, t);
    if b.Entry? {
      RetimedLast(b, fProofOfStake, h, t);
      LastIs(b, fProofOfStake);
      var prev := LastOf(b, fProofOfStake);
      RetimedLast(prev.pprev, fProofOfStake, h, t);
      hide LastOf;
    }
  }

  // Protocol 0.5 does not end.
  ghost predicate Lasting(p: Params) { forall x, y :: x <= y && p.isNuProtocolV05(x) ==> p.isNuProtocolV05(y) }

  // A block of the kind that comes later than it did, the last one, makes the next target larger, never smaller;
  // if the one before it comes later the target gets smaller, never larger; and no other block time matters.
  lemma {:induction false} SlowerIsEasier(p: Params, b: Header, fProofOfStake: bool, h: int, t: int)
    requires Linked(b) && Linked(Retimed(b, h, t)) && 0 <= t < 0x1_0000_0000 && Lasting(p)
    requires Adjusts(b, fProofOfStake) ==> Decoded(Prev(b, fProofOfStake).nBits) >= 0 && Size(Prev(b, fProofOfStake).nBits) <= 248
    ensures var (was, now) := (Required(p, b, fProofOfStake), Required(p, Retimed(b, h, t), fProofOfStake));
            if Adjusts(b, fProofOfStake) && h == Prev(b, fProofOfStake).nHeight then
              t >= Prev(b, fProofOfStake).nTime ==> Decoded(was) <= Decoded(now)
            else if Adjusts(b, fProofOfStake) && h == PrevPrev(b, fProofOfStake).nHeight then
              t >= PrevPrev(b, fProofOfStake).nTime ==> Decoded(now) <= Decoded(was)
            else now == was
  {
    hide Adjusts, Prev, PrevPrev, NextTarget, Encoded, Decoded, Size, Lasting;
    RetimedAdjusts(b, fProofOfStake, h, t);
    if Adjusts(b, fProofOfStake) {
      var c := Retimed(b, h, t);
      var prev, prevPrev := Prev(b, fProofOfStake), PrevPrev(b, fProofOfStake);
      var s, x, y := SpacingAsked(b, fProofOfStake), ActualSpacing(b, fProofOfStake), ActualSpacing(c, fProofOfStake);
      var now := Prev(c, fProofOfStake);
      if h == prev.nHeight && t >= prev.nTime {
        assert x <= y && now.nTime == t;
        LastingAt(p, prev.nTime, t);
        SlowerStep(p, p.isNuProtocolV05(prev.nTime), p.isNuProtocolV05(t), prev.nBits, s, x, y);
      } else if h == prevPrev.nHeight && t >= prevPrev.nTime {
        assert y <= x && now.nTime == prev.nTime;
        SlowerStep(p, p.isNuProtocolV05(prev.nTime), p.isNuProtocolV05(prev.nTime), prev.nBits, s, y, x);
      }
    }
  }

  lemma LastingAt(p: Params, x: int, y: int)
    requires Lasting(p) && x <= y
    ensures p.isNuProtocolV05(x) ==> p.isNuProtocolV05(y)
  {}

  lemma SlowerStep(p: Params, fV05: bool, fV05Then: bool, nBits: nat, s: int, a: int, b: int)
    requires STAKE_TARGET_SPACING <= s <= TARGET_SPACING_WORK_MAX && nBits < 0x1_0000_0000 && (fV05 ==> fV05Then)
    requires -0x1_0000_0000 < a <= b < 0x1_0000_0000 && Decoded(nBits) >= 0 && Size(nBits) <= 248
    ensures Decoded(Encoded(NextTarget(p, fV05, nBits, s, a))) <= Decoded(Encoded(NextTarget(p, fV05Then, nBits, s, b)))
  {
    MovedGrows(Decoded(nBits), s, a, b);
    MovedFits(nBits, s, a);
    MovedFits(nBits, s, b);
    LimitedFits(p, fV05, Moved(Decoded(nBits), s, a));
    LimitedFits(p, fV05Then, Moved(Decoded(nBits), s, b));
    hide Moved, Encoded, Decoded, Fits;
    OrderKept(NextTarget(p, fV05, nBits, s, a), NextTarget(p, fV05Then, nBits, s, b));
  }

  lemma LimitedFits(p: Params, fV05: bool, x: int)
    requires Fits(x)
    ensures Fits(Limited(p, fV05, x))
  {
    if x > p.bnProofOfWorkLimit { ExponentGrows(p.bnProofOfWorkLimit, x); }
    hide Exponent;
  }

  // Five bytes and a bit more than the target had are enough for the moved one.
  lemma MovedFits(nBits: nat, s: int, a: int)
    requires STAKE_TARGET_SPACING <= s <= TARGET_SPACING_WORK_MAX && nBits < 0x1_0000_0000
    requires -0x1_0000_0000 < a < 0x1_0000_0000 && Decoded(nBits) >= 0 && Size(nBits) <= 248
    ensures Fits(Moved(Decoded(nBits), s, a))
  {
    var target, size := Decoded(nBits), Size(nBits);
    DecodedBelow(nBits);
    ScalePositive(s);
    IntervalSmall(s);
    var i := Interval(s);
    var k, d := (i - 1) * s + a + a, (i + 1) * s;
    hide Decoded, Interval, Size;
    Product(target, k, Pow(256, size), 0x100_0000_0000);
    DividedSmaller(target * k, d);
    FiveBytes(size);
    BelowPow(Abs(Divided(target * k, d)), size + 5);
  }

  lemma IntervalSmall(s: int)
    requires STAKE_TARGET_SPACING <= s <= TARGET_SPACING_WORK_MAX
    ensures 0 <= (Interval(s) - 1) * s <= TARGET_TIMESPAN
  {
    Quotient(TARGET_TIMESPAN, s);
    assert Interval(s) * s <= TARGET_TIMESPAN && Interval(s) >= 1;
  }

  lemma Product(t: nat, k: int, m: nat, n: nat)
    requires t <= m && Abs(k) <= n
    ensures Abs(t * k) <= m * n
  {
    Scaled(t, Abs(k), n);
    MulMonotone(t, m, n);
    assert Abs(t * k) == t * Abs(k) by { if k < 0 { assert t * k == -(t * (-k)); assert t * (-k) >= 0; } else { assert t * k >= 0; } }
  }

  lemma DividedSmaller(x: int, d: int)
    requires d > 0
    ensures Abs(Divided(x, d)) <= Abs(x)
  {
    var q := Abs(x) / d;
    Quotient(Abs(x), d);
    QuotientNotNegative(Abs(x), d);
    assert q <= q * d by { Scaled(q, 1, d); }
  }

  lemma FiveBytes(n: nat)
    ensures Pow(256, n + 5) == 0x100_0000_0000 * Pow(256, n)
  {
    PowAdd(n, 5);
    Pows();
    assert Pow(256, 5) == 256 * Pow(256, 4) && Pow(256, 4) == 256 * Pow(256, 3);
    hide Pow;
  }

  lemma BelowPow(m: nat, n: nat)
    requires m <= Pow(256, n) && n <= 253
    ensures Fits(m)
  {
    ExponentBound(m);
    assert Pow(256, n + 1) == 256 * Pow(256, n);
    hide Exponent;
    if Exponent(m) > n + 1 { PowGrows(n + 1, Exponent(m) - 1); }
  }

  lemma DecodedBelow(c: nat)
    requires c < 0x1_0000_0000 && Decoded(c) >= 0
    ensures Decoded(c) <= Pow(256, Size(c))
  {
    MagnitudeBound(Word(c), Size(c));
    hide Magnitude, Word, Size, Negative;
  }

  lemma MovedGrows(target: nat, s: int, a: int, b: int)
    requires s > 0 && a <= b
    ensures Moved(target, s, a) <= Moved(target, s, b)
  {
    ScalePositive(s);
    var i := Interval(s);
    hide Interval;
    var x, y := (i - 1) * s + a + a, (i - 1) * s + b + b;
    Scaled(target, x, y);
    DividedGrows(target * x, target * y, (i + 1) * s);
  }

  lemma Scaled(t: nat, x: int, y: int)
    requires x <= y
    ensures t * x <= t * y
  {
    assert t * (y - x) >= 0;
  }

  // ---------- the limit ----------

  // Before protocol 0.5 no target above the limit is asked for, whatever the chain.
  lemma {:induction false} WithinLimit(p: Params, b: Header, fProofOfStake: bool)
    requires Linked(b) && InitialTarget(p, fProofOfStake) <= p.bnProofOfWorkLimit && Fits(p.bnProofOfWorkLimit)
    requires Adjusts(b, fProofOfStake) ==> !p.isNuProtocolV05(Prev(b, fProofOfStake).nTime)
    ensures Decoded(Required(p, b, fProofOfStake)) <= p.bnProofOfWorkLimit
  {
    hide Adjusts, Prev, Encoded, Decoded, Moved, Fits;
    BelowLimit(Target(p, b, fProofOfStake), p.bnProofOfWorkLimit);
  }

  lemma BelowLimit(t: int, limit: nat)
    requires t <= limit && Fits(limit)
    ensures Decoded(Encoded(t)) <= limit
  {
    if t < 0 {
      NegativeStays(t);
    } else {
      ExponentGrows(t, limit);
      KeptIsLess(t);
    }
    hide Exponent, Encoded, Decoded;
  }

  // A negative number keeps its sign, even where its exponent does not fit.
  lemma NegativeStays(x: int)
    requires x < 0
    ensures Decoded(Encoded(x)) <= 0
  {
    hide Exponent, Mantissa, Magnitude, Word, Size, Negative;
    MantissaOf(Abs(x));
    Fields(Mantissa(Abs(x), Exponent(Abs(x))), Exponent(Abs(x)) % 0x100, true);
  }

  // Every block but the first carries the target that was required of it.
  ghost predicate Conforms(p: Params, b: Header)
    requires Linked(b)
  {
    b.Entry? && b.pprev.Entry? ==> b.nBits == Required(p, b.pprev, b.fProofOfStake) && Conforms(p, b.pprev)
  }

  // So before protocol 0.5 no block of such a chain has a target above the limit, if the first has not.
  lemma {:induction false} EveryTargetWithinLimit(p: Params, b: Header, x: Header)
    requires Linked(b) && Conforms(p, b) && Before(x, b) && Fits(p.bnProofOfWorkLimit)
    requires p.bnInitialHashTarget <= p.bnProofOfWorkLimit && p.bnInitialProofOfStakeHashTarget <= p.bnProofOfWorkLimit
    requires forall y :: Before(y, b) ==> !p.isNuProtocolV05(y.nTime)
    requires x.pprev == Null ==> Decoded(x.nBits) <= p.bnProofOfWorkLimit
    ensures Decoded(x.nBits) <= p.bnProofOfWorkLimit
  {
    hide Required, Adjusts, Decoded, Fits;
    if x != b {
      EveryTargetWithinLimit(p, b.pprev, x);
    } else if b.pprev.Entry? {
      if Adjusts(b.pprev, b.fProofOfStake) { PrevIsBefore(b.pprev, b.fProofOfStake); }
      WithinLimit(p, b.pprev, b.fProofOfStake);
    }
  }

  lemma {:induction false} LastIsBefore(b: Header, fProofOfStake: bool)
    requires b.Entry?
    ensures Before(LastOf(b, fProofOfStake), b)
  {
    if b.pprev.Entry? && b.fProofOfStake != fProofOfStake { LastIsBefore(b.pprev, fProofOfStake); }
  }

  lemma PrevIsBefore(b: Header, fProofOfStake: bool)
    requires Linked(b) && Adjusts(b, fProofOfStake)
    ensures Before(Prev(b, fProofOfStake), b)
  {
    LastIsBefore(b, fProofOfStake);
  }
}
