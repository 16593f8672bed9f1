/** The stored form of coins in numbers: the codes of amounts, and the two records that the format's own
    description spells out. */
module CodecFormat {
  import Basics
  import opened Ledger
  import opened CoinsCodec

  // ---------- amounts ----------

  // An amount of e trailing zeros, at most nine of them counted, by what is left of it.
  lemma AmountCode(m: nat, e: nat)
    requires m > 0 && e <= 9 && (e < 9 ==> m % 10 != 0)
    ensures e < 9 ==> Compressed(m * Pow10(e)) == 1 + 10 * (9 * (m / 10) + m % 10 - 1) + e
    ensures e == 9 ==> Compressed(m * Pow10(9)) == 10 * m
  {
    StripFinds(m, 0, e);
    hide Strip;
  }

  lemma Tens()
    ensures Pow10(0) == 1 && Pow10(6) == 1_000_000 && Pow10(8) == 100_000_000 && Pow10(9) == 1_000_000_000
  {
    assert Pow10(3) == 1000 by { assert Pow10(1) == 10 && Pow10(2) == 100; }
    assert Pow10(6) == 1_000_000 by { assert Pow10(4) == 10_000 && Pow10(5) == 100_000; }
    assert Pow10(7) == 10_000_000;
  }

  // The pairs of src/test/compress_tests.cpp, for a coin of 100,000,000 and a cent of 1,000,000.
  lemma KnownAmounts()
    ensures Compressed(0) == 0 && Compressed(1) == 1 && Compressed(1_000_000) == 7 && Compressed(100_000_000) == 9
    ensures Compressed(50 * 100_000_000) == 0x32 && Compressed(21_000_000 * 100_000_000) == 0x140_6f40
  {
    Tens();
    AmountCode(1, 0);
    AmountCode(1, 6);
    AmountCode(1, 8);
    AmountCode(5, 9);
    AmountCode(2_100_000, 9);
    hide Pow10, Strip, Pack;
    assert Compressed(0) == 0;
  }

  // ---------- records ----------

  lemma {:induction false} OutTokensSplit(a: seq<TxOut>, b: seq<TxOut>)
    ensures OutTokens(a + b) == OutTokens(a) + OutTokens(b)
  {
    if a != [] {
      OutTokensSplit(a[1..], b);
      assert (a + b)[1..] == a[1..] + b;
    } else {
      assert a + b == b;
    }
  }

  lemma {:induction false} NoTokens(a: seq<TxOut>)
    requires forall i :: 0 <= i < |a| ==> a[i].IsNull()
    ensures OutTokens(a) == []
  {
    if a != [] { NoTokens(a[1..]); }
  }

  // Two outputs, the first of them spent: 600 coins are left in the second.
  lemma FirstExample(s: Script, nTime: nat, cUnit: char)
    ensures var c := Coins(false, [NullOut, TxOut(60_000_000_000, s)], 203998, 1, false, nTime, cUnit);
            HeaderCode(c) >= 0 &&
            Serialized(c) == [VarInt(1), VarInt(4), VarInt(600), ScriptToken(s),
                              VarInt(203998), VarInt(0), VarInt(nTime), VarInt(cUnit as int)]
  {
    var vout := [NullOut, TxOut(60_000_000_000, s)];
    Tens();
    AmountCode(60, 9);
    hide Pow10, Strip, Pack, Compressed;
    assert vout == [NullOut] + [TxOut(60_000_000_000, s)];
    OutTokensSplit([NullOut], [TxOut(60_000_000_000, s)]);
    NoTokens([NullOut]);
    assert [TxOut(60_000_000_000, s)][1..] == [];
    assert OutTokens([]) == [];
    assert OutTokens(vout) == [VarInt(600), ScriptToken(s)];
  }

  // A coinbase of seventeen outputs or more of which those at 4 and 16 are left.
  function Sparse(a: TxOut, b: TxOut): (r: seq<TxOut>)
    ensures |r| == 17
  {
    [NullOut, NullOut, NullOut, NullOut, a] + seq(11, _ => NullOut) + [b]
  }

  // A mask byte with one bit.
  lemma {:induction false} OneBit(vout: seq<TxOut>, b: nat, k: nat, n: nat)
    requires k < 8 && n <= 8 && forall j :: 2 + b * 8 <= j < 10 + b * 8 ==> (Available(vout, j) <==> j == 2 + b * 8 + k)
    ensures MaskBits(vout, b, n) == if n <= k then 0 else Basics.Mask(k)
  {
    if n > 0 {
      OneBit(vout, b, k, n - 1);
      Basics.OrNothing(MaskBits(vout, b, n - 1));
      ZeroOr(Basics.Mask(k));
    }
  }

  lemma ZeroOr(x: bv8)
    ensures 0 | x == x
  {}

  lemma SparseMask(a: TxOut, b: TxOut)
    requires !a.IsNull() && !b.IsNull()
    ensures var vout := Sparse(a, b);
            && MaskByte(vout, 0) == 0x04 && MaskByte(vout, 1) == 0x40 && MaskRange(vout) == 2
            && LastUsed(vout, 2) == 2 && NonZero(vout, 2) == 2
            && MaskTokens(vout, 2) == [Byte(0x04), Byte(0x40)]
  {
    var vout := Sparse(a, b);
    assert forall j :: 2 <= j < 18 ==> (Available(vout, j) <==> j == 4 || j == 16);
    OneBit(vout, 0, 2, 8);
    OneBit(vout, 1, 6, 8);
    hide MaskBits, Sparse, Available;
    assert MaskByte(vout, 0) == 0x04 && MaskByte(vout, 1) == 0x40;
    hide MaskByte;
    assert MaskTokens(vout, 0) == [] && MaskTokens(vout, 1) == [Byte(0x04)];
    assert NonZero(vout, 0) == 0 && NonZero(vout, 1) == 1;
  }

  lemma SparseOuts(a: TxOut, b: TxOut)
    ensures OutTokens(Sparse(a, b)) == OutToken(a) + OutToken(b)
  {
    var front, middle: seq<TxOut> := [NullOut, NullOut, NullOut, NullOut], seq(11, _ => NullOut);
    assert Sparse(a, b) == front + ([a] + (middle + [b]));
    OutTokensSplit(front, [a] + (middle + [b]));
    OutTokensSplit([a], middle + [b]);
    OutTokensSplit(middle, [b]);
    NoTokens(front);
    NoTokens(middle);
    assert [a][1..] == [] && [b][1..] == [] && OutTokens([]) == [];
    assert OutTokens([a]) == OutToken(a) && OutTokens([b]) == OutToken(b);
    hide OutTokens, OutToken;
  }

  lemma SecondExample(s: Script, t: Script, nTime: nat, cUnit: char)
    ensures var c := Coins(true, Sparse(TxOut(234_925_952, s), TxOut(110_397, t)), 120891, 1, false, nTime, cUnit);
            HeaderCode(c) >= 0 &&
            Serialized(c) == [VarInt(1), VarInt(9), Byte(0x04), Byte(0x40),
                              VarInt(2_114_333_561), ScriptToken(s), VarInt(993_571), ScriptToken(t),
                              VarInt(120891), VarInt(0), VarInt(nTime), VarInt(cUnit as int)]
  {
    var a, b := TxOut(234_925_952, s), TxOut(110_397, t);
    Tens();
    AmountCode(234_925_952, 0);
    AmountCode(110_397, 0);
    SparseMask(a, b);
    SparseOuts(a, b);
    assert !Available(Sparse(a, b), 0) && !Available(Sparse(a, b), 1);
    hide Pow10, Strip, Pack, Compressed, Sparse, MaskTokens, MaskByte, OutTokens, LastUsed, NonZero, MaskRange, Available;
  }
}
