/** The compact form of big numbers, in which block headers hold their targets. */
module Compact {
  import opened Basics

  function NumBytes(m: nat): nat { if m == 0 then 0 else 1 + NumBytes(m / 256) }

  // ---------- powers, products and quotients ----------

  lemma {:induction false} PowAdd(i: nat, j: nat)
    ensures Pow(256, i + j) == Pow(256, i) * Pow(256, j)
  {
    if i > 0 {
      PowAdd(i - 1, j);
      Assoc(256, Pow(256, i - 1), Pow(256, j));
    }
  }

  lemma Assoc(x: int, y: int, z: int)
    ensures x * (y * z) == (x * y) * z
  {}

  lemma Pows()
    ensures Pow(256, 0) == 1 && Pow(256, 1) == 0x100 && Pow(256, 2) == 0x10000 && Pow(256, 3) == 0x1000000
  {
    assert Pow(256, 1) == 256 * Pow(256, 0);
    assert Pow(256, 2) == 256 * Pow(256, 1);
    assert Pow(256, 3) == 256 * Pow(256, 2);
  }

  lemma {:induction false} PowGrows(i: nat, j: nat)
    requires i <= j
    ensures Pow(256, i) <= Pow(256, j)
  {
    if i < j { PowGrows(i, j - 1); }
  }

  lemma {:induction false} BytesBound(m: nat)
    ensures m < Pow(256, NumBytes(m)) && (m > 0 ==> NumBytes(m) > 0 && Pow(256, NumBytes(m) - 1) <= m)
  {
    if m > 0 {
      BytesBound(m / 256);
      if m / 256 == 0 { assert NumBytes(m) == 1 && Pow(256, 0) == 1 && Pow(256, 1) == 256 * Pow(256, 0); }
    }
  }

  lemma BytesAre(m: nat, n: nat)
    requires m < Pow(256, n) && (n > 0 ==> Pow(256, n - 1) <= m)
    ensures NumBytes(m) == n
  {
    BytesBound(m);
    var k := NumBytes(m);
    if k < n { PowGrows(k, n - 1); }
    if n < k { PowGrows(n, k - 1); }
  }

  // ---------- shifts by whole bytes ----------

  function Shl(m: nat, n: nat): nat {
    NotNegative(m, Pow(256, n));
    m * Pow(256, n)
  }

  function Shr(m: nat, n: nat): nat {
    QuotientNotNegative(m, Pow(256, n));
    m / Pow(256, n)
  }

  lemma NotNegative(m: nat, u: nat)
    ensures m * u >= 0
  {}

  lemma ShlOrder(x: nat, y: nat, n: nat)
    ensures x < y <==> Shl(x, n) < Shl(y, n)
  {
    MulLess(x, y, Pow(256, n));
    MulLess(y, x, Pow(256, n));
  }

  lemma ShrOrder(x: nat, y: nat, n: nat)
    requires x <= y
    ensures Shr(x, n) <= Shr(y, n)
  {
    QuotientGrows(x, y, Pow(256, n));
  }

  lemma ShlPow(i: nat, n: nat)
    ensures Shl(Pow(256, i), n) == Pow(256, i + n)
  {
    PowAdd(i, n);
  }

  // Shifting right and back cuts off less than one unit.
  lemma ShrBound(m: nat, n: nat)
    ensures Shl(Shr(m, n), n) <= m < Shl(Shr(m, n), n) + Pow(256, n)
  {
    Quotient(m, Pow(256, n));
  }

  lemma ShrLess(m: nat, w: nat, n: nat)
    ensures Shr(m, n) < w <==> m < Shl(w, n)
  {
    QuotientLess(m, w, Pow(256, n));
  }

  lemma ShlThenShr(m: nat, n: nat)
    ensures Shr(Shl(m, n), n) == m
  {
    QuotientIs(m * Pow(256, n), Pow(256, n), m);
  }

  lemma ShlDouble(m: nat, n: nat)
    ensures Shl(2 * m, n) == 2 * Shl(m, n)
  {
    Assoc(2, m, Pow(256, n));
  }

  lemma ShrAgain(m: nat, n: nat)
    ensures Shr(m, n + 1) == Shr(m, n) / 0x100
  {
    Twice(m, Pow(256, n));
  }

  lemma ShlLess(m: nat, n: nat)
    ensures Shl(m, n + 1) == 0x100 * Shl(m, n)
  {
    Assoc(m, 0x100, Pow(256, n));
    Assoc(0x100, m, Pow(256, n));
  }

  lemma Twice(m: nat, u: nat)
    requires u > 0
    ensures m / (256 * u) == m / u / 256
  {
    var q := m / u / 256;
    Quotient(m, u);
    Quotient(m / u, 256);
    MulLess(q * 256, m / u, u);
    MulUp(m / u, q * 256 + 256, u);
    assert (q * 256) * u == q * (256 * u);
    assert (q * 256 + 256) * u == q * (256 * u) + 256 * u;
    QuotientIs(m, 256 * u, q);
  }

  // ---------- the form ----------

  // The number of bytes a magnitude takes with a bit to spare for the sign.
  function Exponent(m: nat): nat { NumBytes(2 * m) }

  function Mantissa(m: nat, e: nat): nat {
    if e <= 3 then Shl(m, 3 - e) else Shr(m, e - 3)
  }

  // 8 bits of exponent, a sign bit and 23 bits of mantissa. An exponent over 255 loses its high bits.
  function Encoded(x: int): nat {
    var e := Exponent(Abs(x));
    Mantissa(Abs(x), e) + (e % 0x100) * 0x1000000 + (if x < 0 then 0x800000 else 0)
  }

  function Magnitude(word: nat, size: nat): nat {
    if size <= 3 then Shr(word, 3 - size) else Shl(word, size - 3)
  }

  function Decoded(c: nat): int {
    Signed(Magnitude(Word(c), Size(c)), Negative(c))
  }

  function Size(c: nat): nat { c / 0x1000000 }
  function Word(c: nat): nat { c % 0x800000 }
  predicate Negative(c: nat) { c / 0x800000 % 2 == 1 }

  function Signed(m: nat, negative: bool): int { if negative then -(m as int) else m }

  // What is left of a number written in compact form and read back.
  function Truncated(x: int): int { Decoded(Encoded(x)) }

  ghost predicate Fits(x: int) { Exponent(Abs(x)) <= 0xff }

  // The values GetCompact produces.
  ghost predicate Canonical(c: nat) {
    var size, word := Size(c), Word(c);
    c < 0x1_0000_0000 && (c == 0 || (size > 0 && word >= 0x8000 && (size < 3 ==> Shl(Shr(word, 3 - size), 3 - size) == word)))
  }

  // ---------- mantissas ----------

  // The exponent says between which powers of 256 twice the magnitude lies.
  ghost predicate Between(m: nat, e: nat) {
    2 * m < Pow(256, e) && (e > 0 ==> Pow(256, e - 1) <= 2 * m)
  }

  lemma ExponentBound(m: nat)
    ensures Between(m, Exponent(m)) && (Exponent(m) == 0 <==> m == 0)
  {
    BytesBound(2 * m);
  }

  lemma ExponentIs(m: nat, e: nat)
    requires Between(m, e)
    ensures Exponent(m) == e
  {
    BytesAre(2 * m, e);
  }

  ghost predicate Normal(w: nat) { 0x8000 <= w < 0x800000 }

  // A mantissa takes 23 bits and at least 16: exactly when the exponent is the right one.
  lemma MantissaBound(m: nat, e: nat)
    requires Between(m, e) && e > 0
    ensures Normal(Mantissa(m, e))
  {
    Pows();
    if e <= 3 {
      ShlDouble(m, 3 - e);
      ShlOrder(2 * m, Pow(256, e), 3 - e);
      ShlOrder(2 * m, Pow(256, e - 1), 3 - e);
      ShlPow(e, 3 - e);
      ShlPow(e - 1, 3 - e);
    } else {
      ShrLess(m, 0x800000, e - 3);
      ShrLess(m, 0x8000, e - 3);
      Doubled(e - 3);
    }
    hide Shl, Shr, Pow;
  }

  lemma Doubled(n: nat)
    ensures 2 * Shl(0x800000, n) == Pow(256, 3 + n) && 2 * Shl(0x8000, n) == Pow(256, 2 + n)
  {
    Pows();
    ShlDouble(0x800000, n);
    ShlDouble(0x8000, n);
    ShlPow(3, n);
    ShlPow(2, n);
  }

  lemma MantissaOf(m: nat)
    ensures var w := Mantissa(m, Exponent(m)); if m == 0 then w == 0 else Normal(w)
  {
    ExponentBound(m);
    if m > 0 { MantissaBound(m, Exponent(m)); }
  }

  // ---------- reading back ----------

  lemma Fields(w: nat, size: nat, negative: bool)
    requires w < 0x800000 && size < 0x100
    ensures var c := w + size * 0x1000000 + if negative then 0x800000 else 0;
            Word(c) == w && Size(c) == size && (Negative(c) <==> negative) && c < 0x1_0000_0000
  {}

  lemma FieldsOf(c: nat)
    requires c < 0x1_0000_0000
    ensures c == Word(c) + Size(c) * 0x1000000 + (if Negative(c) then 0x800000 else 0)
    ensures Word(c) < 0x800000 && Size(c) < 0x100
  {}

  // What is kept of a magnitude: all of it, or a multiple of 256^(e - 3).
  function Kept(m: nat): nat {
    var e := Exponent(m);
    if e <= 3 then m else Shl(Shr(m, e - 3), e - 3)
  }

  // A written number is read back with its sign, its magnitude cut off.
  lemma ReadBack(x: int)
    requires Fits(x)
    ensures Truncated(x) == Signed(Kept(Abs(x)), x < 0)
  {
    hide Exponent, Mantissa, Magnitude, Kept, Word, Size, Negative;
    var m, e := Abs(x), Exponent(Abs(x));
    MantissaOf(m);
    KeptIs(m);
    Fields(Mantissa(m, e), e, x < 0);
    Small(e);
  }

  lemma KeptIs(m: nat)
    ensures Magnitude(Mantissa(m, Exponent(m)), Exponent(m)) == Kept(m)
  {
    var e := Exponent(m);
    if e <= 3 { ShlThenShr(m, 3 - e); }
    hide Exponent, Shl, Shr;
  }

  lemma KeptBound(m: nat)
    ensures Kept(m) <= m && (m > 0 ==> (m - Kept(m)) * 0x8000 < m) && (m < 0x800000 ==> Kept(m) == m)
  {
    var e := Exponent(m);
    ExponentBound(m);
    if m < 0x800000 { SmallExponent(m); }
    if e > 3 {
      ShrBound(m, e - 3);
      Doubled(e - 3);
      UnitOf(e - 3);
    }
    hide Exponent, Shl, Shr, Pow;
  }

  lemma UnitOf(n: nat)
    ensures Shl(0x8000, n) == 0x8000 * Pow(256, n)
  {}

  lemma SmallExponent(m: nat)
    requires m < 0x800000
    ensures Exponent(m) <= 3
  {
    ExponentBound(m);
    Pows();
    hide Exponent;
    if Exponent(m) > 3 { PowGrows(3, Exponent(m) - 1); }
  }

  // Writing a number loses less than one part in 2^15 of it, and loses nothing below 2^23: provided its
  // exponent fits, and only then.
  lemma SmallLoss(x: int)
    requires x != 0
    ensures Abs(x - Truncated(x)) * 0x8000 < Abs(x) <==> Fits(x)
    ensures Fits(x) ==> Abs(Truncated(x)) <= Abs(x) && (Abs(x) < 0x800000 ==> Truncated(x) == x)
  {
    if Fits(x) {
      ReadBack(x);
      KeptBound(Abs(x));
    } else {
      WrappedIsTiny(x);
    }
    hide Truncated, Kept, Exponent;
  }

  lemma MagnitudeBound(word: nat, size: nat)
    requires word < 0x1000000
    ensures Magnitude(word, size) < Pow(256, size)
  {
    Pows();
    if size <= 3 {
      ShlPow(size, 3 - size);
      ShrLess(word, Pow(256, size), 3 - size);
    } else {
      ShlPow(3, size - 3);
      ShlOrder(word, Pow(256, 3), size - 3);
    }
  }

  // An exponent that does not fit makes a number at least 128 times too small.
  lemma WrappedIsTiny(x: int)
    requires !Fits(x)
    ensures 128 * Abs(Truncated(x)) <= Abs(x) && x != 0
  {
    var m, e := Abs(x), Exponent(Abs(x));
    ExponentBound(m);
    MantissaOf(m);
    Fields(Mantissa(m, e), e % 0x100, x < 0);
    MagnitudeBound(Mantissa(m, e), e % 0x100);
    hide Exponent, Mantissa, Magnitude;
    PowGrows(e % 0x100, e - 0x100);
    PowGrows(e - 0xff, e - 1);
    assert Pow(256, e - 0xff) == 256 * Pow(256, e - 0x100);
  }

  // ---------- order ----------

  lemma ExponentGrows(m: nat, n: nat)
    requires m <= n
    ensures Exponent(m) <= Exponent(n)
  {
    ExponentBound(m);
    ExponentBound(n);
    hide Exponent;
    if Exponent(n) < Exponent(m) { PowGrows(Exponent(n), Exponent(m) - 1); }
  }

  lemma KeptGrows(m: nat, n: nat)
    requires m <= n
    ensures Kept(m) <= Kept(n)
    ensures Exponent(m) == Exponent(n) ==> Mantissa(m, Exponent(m)) <= Mantissa(n, Exponent(m))
  {
    var d, e := Exponent(m), Exponent(n);
    ExponentGrows(m, n);
    if d == e {
      if e <= 3 { ShlOrder(n, m, 3 - e); } else {
        ShrOrder(m, n, e - 3);
        ShlOrder(Shr(n, e - 3), Shr(m, e - 3), e - 3);
      }
      hide Exponent, Shl, Shr;
    } else {
      KeptBound(m);
      KeptLeast(n);
      ExponentBound(m);
      ExponentBound(n);
      hide Exponent, Kept;
      PowGrows(d, e - 1);
    }
  }

  lemma KeptLeast(n: nat)
    requires n > 0
    ensures Pow(256, Exponent(n) - 1) <= 2 * Kept(n)
  {
    var e := Exponent(n);
    ExponentBound(n);
    if e > 3 {
      MantissaBound(n, e);
      Doubled(e - 3);
      ShlOrder(Shr(n, e - 3), 0x8000, e - 3);
    }
    hide Exponent, Shl, Shr, Pow;
  }

  // Truncation respects order, and on what is not negative so does the written form itself.
  lemma OrderKept(x: int, y: int)
    requires x <= y && Fits(x) && Fits(y)
    ensures Truncated(x) <= Truncated(y)
    ensures 0 <= x ==> Encoded(x) <= Encoded(y)
  {
    ReadBack(x);
    ReadBack(y);
    if y <= 0 { KeptGrows(Abs(y), Abs(x)); }
    if 0 <= x {
      KeptGrows(x, y);
      EncodingGrows(x, y);
    }
    hide Truncated, Kept, Encoded;
  }

  lemma EncodingGrows(x: nat, y: nat)
    requires x <= y && Fits(x) && Fits(y)
    ensures Encoded(x) <= Encoded(y)
  {
    hide Mantissa, Exponent, Kept;
    KeptGrows(x, y);
    ExponentGrows(x, y);
    MantissaOf(x);
    MantissaOf(y);
    var d, e := Exponent(x), Exponent(y);
    FieldsOrder(Mantissa(x, d), d, Mantissa(y, e), e);
    assert Abs(x) == x && Abs(y) == y;
    Small(d);
    Small(e);
  }

  lemma Small(e: nat)
    requires e <= 0xff
    ensures e % 0x100 == e
  {}

  lemma FieldsOrder(v: nat, d: nat, w: nat, e: nat)
    requires v < 0x800000 && (d < e || (d == e && v <= w))
    ensures v + d * 0x1000000 <= w + e * 0x1000000
  {}

  // ---------- canonical forms ----------

  lemma EncodedIsCanonical(x: int)
    requires Fits(x)
    ensures Canonical(Encoded(x))
  {
    hide Word, Size, Negative, Shl, Shr, NumBytes;
    var m, e := Abs(x), Exponent(Abs(x));
    MantissaOf(m);
    ExponentBound(m);
    if 0 < e < 3 { ShlThenShr(m, 3 - e); }
    Fields(Mantissa(m, e), e, x < 0);
    hide Exponent;
  }

  lemma MagnitudeIs(word: nat, size: nat)
    requires Normal(word) && size > 0 && (size < 3 ==> Shl(Shr(word, 3 - size), 3 - size) == word)
    ensures var m := Magnitude(word, size); Between(m, size) && Mantissa(m, size) == word
  {
    Pows();
    if size <= 3 {
      var m := Shr(word, 3 - size);
      if size == 3 { assert Pow(256, 0) == 1; }
      ShlDouble(m, 3 - size);
      ShlOrder(2 * m, Pow(256, size), 3 - size);
      ShlOrder(2 * m, Pow(256, size - 1), 3 - size);
      ShlPow(size, 3 - size);
      ShlPow(size - 1, 3 - size);
      assert Shl(m, 3 - size) == word;
    } else {
      ShlThenShr(word, size - 3);
      ShlOrder(word, 0x800000, size - 3);
      ShlOrder(word, 0x8000, size - 3);
      Doubled(size - 3);
    }
    hide Shl, Shr, Pow;
  }

  // A canonical form is what its number is written as: reading loses nothing.
  lemma ReadThenWrite(c: nat)
    requires Canonical(c)
    ensures Fits(Decoded(c)) && Encoded(Decoded(c)) == c
  {
    hide Word, Size, Negative, Exponent, Shl, Shr, Mantissa, Magnitude;
    FieldsOf(c);
    var size, word := Size(c), Word(c);
    var m := Magnitude(word, size);
    if c == 0 {
      ReadZero();
    } else {
      MagnitudeIs(word, size);
      ExponentIs(m, size);
      ExponentBound(m);
      SignedAbs(m, Negative(c));
    }
  }

  lemma SignedAbs(m: nat, negative: bool)
    ensures Abs(Signed(m, negative)) == m && (m > 0 ==> (Signed(m, negative) < 0 <==> negative))
  {}

  lemma ReadZero()
    ensures Decoded(0) == 0 && Encoded(0) == 0 && Fits(0)
  {
    hide Shl, Shr, Pow;
    ShiftZero(3);
  }

  lemma ShiftZero(n: nat)
    ensures Shl(0, n) == 0 && Shr(0, n) == 0
  {
    QuotientIs(0, Pow(256, n), 0);
  }

  lemma DecodedFits(c: nat)
    requires c < 0x1_0000_0000
    ensures Fits(Decoded(c))
  {
    hide Word, Size, Negative, Shl, Shr, Exponent;
    FieldsOf(c);
    var size, word := Size(c), Word(c);
    var m := Magnitude(word, size);
    SignedAbs(m, Negative(c));
    ExponentBound(m);
    if size <= 3 {
      MagnitudeBound(word, size);
      PowGrows(size, 3);
    } else {
      ShlOrder(word, 0x800000, size - 3);
      Doubled(size - 3);
    }
    Pows();
    assert Pow(256, 4) == 256 * Pow(256, 3);
    var bound := if size <= 3 then 4 else size;
    assert 2 * m < Pow(256, bound);
    if bound < Exponent(m) { PowGrows(bound, Exponent(m) - 1); }
  }

  // The canonical forms are the ones that reading and writing leaves as they are.
  lemma CanonicalIff(c: nat)
    requires c < 0x1_0000_0000
    ensures Canonical(c) <==> Encoded(Decoded(c)) == c
  {
    hide Encoded, Decoded, Fits;
    if Canonical(c) {
      ReadThenWrite(c);
    } else {
      DecodedFits(c);
      EncodedIsCanonical(Decoded(c));
    }
  }

  // So truncating twice is truncating once.
  lemma TruncatedTwice(x: int)
    requires Fits(x)
    ensures Fits(Truncated(x)) && Truncated(Truncated(x)) == Truncated(x)
  {
    EncodedIsCanonical(x);
    ReadThenWrite(Encoded(x));
    hide Encoded, Decoded;
  }

  // ---------- the two procedures ----------

  class BigNum {
    var bn: int

    constructor (bn: int)
      ensures this.bn == bn
    {
      this.bn := bn;
    }

    method SetCompact(nCompact: nat)
      requires nCompact < 0x1_0000_0000
      modifies this
      ensures bn == Decoded(nCompact)
    {
      hide Shl, Shr;
      var nSize := Size(nCompact);
      var fNegative := Negative(nCompact);
      var nWord := Word(nCompact);
      if nSize <= 3 {
        nWord := Shr(nWord, 3 - nSize);
        bn := nWord;
      } else {
        bn := nWord;
        bn := Shl(nWord, nSize - 3);
      }
      if fNegative { bn := -bn; }
    }

    method GetCompact() returns (nCompact: nat)
      ensures nCompact == Encoded(bn)
    {
      hide Shl, Shr, Exponent;
      var m := Abs(bn);
      AdjustSize(m);
      var nSize := NumBytes(m);
      hide NumBytes;
      if nSize <= 3 {
        nCompact := Shl(m, 3 - nSize);
      } else {
        nCompact := Shr(m, nSize - 3);
      }
      hide Mantissa;
      if nCompact >= 0x800000 {
        nCompact := nCompact / 0x100;
        nSize := nSize + 1;
      }
      nCompact := nCompact + nSize % 0x100 * 0x1000000;
      if bn < 0 { nCompact := nCompact + 0x800000; }
    }
  }

  // The form with the spare bit is reached from the plain one by giving up the last byte, if the top bit is taken.
  lemma {:induction false} AdjustSize(m: nat)
    ensures var n := NumBytes(m);
            var w := Mantissa(m, n);
            && w < 0x1000000
            && Exponent(m) == (if w >= 0x800000 then n + 1 else n)
            && Mantissa(m, Exponent(m)) == (if w >= 0x800000 then w / 0x100 else w)
  {
    var n := NumBytes(m);
    BytesBound(m);
    if m > 0 {
      FullMantissa(m, n);
      ExponentIs(m, if Mantissa(m, n) >= 0x800000 then n + 1 else n);
    } else {
      MantissaOf(0);
    }
  }

  lemma FullMantissa(m: nat, n: nat)
    requires n > 0 && Pow(256, n - 1) <= m < Pow(256, n)
    ensures var w := Mantissa(m, n);
            && w < 0x1000000 && Mantissa(m, n + 1) == w / 0x100
            && Between(m, if w >= 0x800000 then n + 1 else n)
  {
    Pows();
    assert Pow(256, n + 1) == 256 * Pow(256, n);
    if n <= 3 {
      ShlDouble(m, 3 - n);
      ShlOrder(2 * m, Pow(256, n), 3 - n);
      ShlOrder(m, Pow(256, n), 3 - n);
      ShlPow(n, 3 - n);
      if n < 3 { ShlLess(m, 2 - n); } else { assert Shl(m, 0) == m && Shr(m, 1) == m / 0x100; }
    } else {
      ShrLess(m, 0x800000, n - 3);
      ShrLess(m, 0x1000000, n - 3);
      ShlPow(3, n - 3);
      Doubled(n - 3);
      ShrAgain(m, n - 3);
    }
    hide Shl, Shr, Pow;
  }
}
