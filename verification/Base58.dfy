/** Base 58: byte strings as numbers, written with letters that are hard to confuse. */
module Base58 {
  import opened Basics

  type Byte = n: nat | n < 256 witness 0

  datatype Result = Decoded(bytes: seq<Byte>) | Malformed

  predicate IsSpace(c: char) { c == ' ' || '\t' <= c <= '\r' }

  // Space, tab, line feed, vertical tab, form feed and carriage return.
  lemma SpacesAre(c: char)
    ensures IsSpace(c) <==> c as int in {0x20, 0x09, 0x0a, 0x0b, 0x0c, 0x0d}
  {}

  // ---------- digits, least significant first ----------

  function ToBase(n: nat, base: nat): (d: seq<nat>)
    requires base > 1
    ensures forall i :: 0 <= i < |d| ==> d[i] < base
    ensures d != [] ==> d[|d| - 1] != 0
    decreases n
  {
    if n == 0 then [] else Smaller(n, base); [n % base] + ToBase(n / base, base)
  }

  lemma ToBaseStep(n: nat, base: nat)
    requires n > 0 && base > 1
    ensures n / base < n && n % base < base && ToBase(n, base) == [n % base] + ToBase(n / base, base)
  {
    Smaller(n, base);
  }

  lemma Smaller(n: nat, base: nat)
    requires n > 0 && base > 1
    ensures n / base < n && (n / base == 0 ==> n % base != 0)
  {
    DivMod(n, base);
    FactorSteps(2, base, n / base);
  }

  lemma DivMod(n: nat, base: nat)
    requires base > 0
    ensures n == n / base * base + n % base && n / base * base == base * (n / base)
  {}

  function FromBase(d: seq<nat>, base: nat): nat {
    if d == [] then 0 else d[0] + base * FromBase(d[1..], base)
  }

  lemma {:induction false} FromTo(n: nat, base: nat)
    requires base > 1
    ensures FromBase(ToBase(n, base), base) == n
    decreases n
  {
    if n > 0 {
      Smaller(n, base);
      FromTo(n / base, base);
      assert ToBase(n, base)[1..] == ToBase(n / base, base);
      DivMod(n, base);
    }
  }

  lemma DigitOut(x: nat, base: nat, q: nat)
    requires x < base
    ensures (x + base * q) / base == q && (x + base * q) % base == x
  {
    var n := x + base * q;
    var p := n / base;
    assert n == base * p + n % base;
    if p < q { FactorSteps(p + 1, q, base); }
    if q < p { FactorSteps(q + 1, p, base); }
    assert p == q;
  }

  lemma FactorSteps(x: nat, y: nat, d: nat)
    requires x <= y
    ensures d * x <= d * y && d * (y + 1) == d * y + d && (x > 0 ==> d * (x - 1) == d * x - d)
  {}

  // Digits without a zero at the most significant end are those of their number.
  lemma {:induction false} ToFrom(d: seq<nat>, base: nat)
    requires base > 1 && (forall i :: 0 <= i < |d| ==> d[i] < base) && (d != [] ==> d[|d| - 1] != 0)
    ensures ToBase(FromBase(d, base), base) == d
  {
    if d != [] {
      var q := FromBase(d[1..], base);
      ToFrom(d[1..], base);
      assert FromBase(d, base) == d[0] + base * q;
      if q == 0 { assert ToBase(0, base) == []; }
      hide FromBase;
      Prepend(d[0], q, base);
      assert d == [d[0]] + d[1..];
    }
  }

  lemma Prepend(x: nat, q: nat, base: nat)
    requires base > 1 && x < base && (q == 0 ==> x != 0)
    ensures ToBase(x + base * q, base) == [x] + ToBase(q, base)
  {
    DigitOut(x, base, q);
    hide ToBase;
    Positive(x, q, base);
    ToBaseStep(x + base * q, base);
  }

  lemma Positive(x: nat, q: nat, base: nat)
    requires base > 1 && (q == 0 ==> x != 0)
    ensures x + base * q > 0
  {
    if q > 0 { FactorSteps(1, q, base); }
  }

  lemma Distribute(base: nat, p: nat, q: nat, x: nat)
    ensures base * (p + q * x) == base * p + (base * q) * x
  {
    assert base * (q * x) == (base * q) * x;
  }

  lemma {:induction false} FromAppend(d: seq<nat>, x: nat, base: nat)
    ensures FromBase(d + [x], base) == FromBase(d, base) + Pow(base, |d|) * x
  {
    if d != [] {
      FromAppend(d[1..], x, base);
      assert (d + [x])[1..] == d[1..] + [x];
      var p, q := FromBase(d[1..], base), Pow(base, |d| - 1);
      Distribute(base, p, q, x);
    } else {
      assert FromBase([x][1..], base) == 0;
    }
  }

  // Zeros at the most significant end do not count.
  lemma {:induction false} FromZeros(d: seq<nat>, z: nat, base: nat)
    ensures FromBase(d + Repeat(0, z), base) == FromBase(d, base)
  {
    var zeros := Repeat(0, z);
    if z > 0 {
      FromZeros(d, z - 1, base);
      assert d + zeros == (d + Repeat(0, z - 1)) + [0];
      FromAppend(d + Repeat(0, z - 1), 0, base);
    } else {
      assert d + zeros == d;
    }
  }

  function Repeat<T>(x: T, z: nat): (s: seq<T>)
    ensures |s| == z && forall i :: 0 <= i < z ==> s[i] == x
  {
    seq(z, _ => x)
  }

  function Reverse<T>(s: seq<T>): (r: seq<T>)
    ensures |r| == |s| && forall i :: 0 <= i < |s| ==> r[i] == s[|s| - 1 - i]
  {
    seq(|s|, i requires 0 <= i < |s| => s[|s| - 1 - i])
  }

  // How many leading entries are x.
  function Leading<T(==)>(s: seq<T>, x: T): (z: nat)
    ensures z <= |s| && (forall i :: 0 <= i < z ==> s[i] == x) && (z < |s| ==> s[z] != x)
  {
    if s != [] && s[0] == x then 1 + Leading(s[1..], x) else 0
  }

  lemma LeadingIs<T>(s: seq<T>, x: T, z: nat)
    requires z <= |s| && (forall i :: 0 <= i < z ==> s[i] == x) && (z < |s| ==> s[z] != x)
    ensures Leading(s, x) == z
  {}

  // ---------- numbers as little-endian bytes with a sign bit ----------

  function GetVch(n: nat): seq<Byte> {
    var d := Bytes(ToBase(n, 256));
    if d != [] && d[|d| - 1] >= 0x80 then d + [0] else d
  }

  function Bytes(d: seq<nat>): (r: seq<Byte>)
    requires forall i :: 0 <= i < |d| ==> d[i] < 256
    ensures r == d
  {
    seq(|d|, i requires 0 <= i < |d| => d[i])
  }

  function TrimSign(v: seq<Byte>): seq<Byte> {
    if |v| >= 2 && v[|v| - 1] == 0 && v[|v| - 2] >= 0x80 then v[..|v| - 1] else v
  }

  // The bytes are of that number, and the last one leaves the bit for the sign free.
  lemma GetVchIs(n: nat)
    ensures FromBase(GetVch(n), 256) == n && (GetVch(n) != [] ==> GetVch(n)[|GetVch(n)| - 1] < 128)
    ensures |GetVch(n)| <= |ToBase(n, 256)| + 1 && (n == 0 ==> GetVch(n) == [])
  {
    FromTo(n, 256);
    ZeroAbove(ToBase(n, 256), 256);
  }

  lemma {:induction false} ZeroAbove(d: seq<nat>, base: nat)
    ensures FromBase(d + [0], base) == FromBase(d, base)
  {
    if d == [] {
      assert [0][1..] == [] && FromBase([0], base) == 0 + base * FromBase([], base);
    } else {
      assert (d + [0])[1..] == d[1..] + [0];
      ZeroAbove(d[1..], base);
    }
  }

  lemma TrimGetVch(n: nat)
    ensures TrimSign(GetVch(n)) == ToBase(n, 256)
  {}

  // ---------- letters ----------

  // Digits and letters without 0, I, O and l.
  const Alphabet := "123456789" + "ABCDEFGH" + "JKLMN" + "PQRSTUVWXYZ" + "abcdefghijk" + "mnopqrstuvwxyz"

  // The letter at k, run by run.
  function Letter(k: nat): char
    requires k < 58
  {
    if k < 9 then '1' + k as char else if k < 17 then 'A' + (k - 9) as char else if k < 22 then 'J' + (k - 17) as char
    else if k < 33 then 'P' + (k - 22) as char else if k < 44 then 'a' + (k - 33) as char else 'm' + (k - 44) as char
  }

  lemma AlphabetIs(k: nat)
    requires k < 58
    ensures |Alphabet| == 58 && Alphabet[k] == Letter(k)
  {}

  // Where a letter stands in the alphabet, -1 for what is no letter.
  function IndexOf(c: char): (i: int)
    ensures -1 <= i < 58 && (i >= 0 ==> Letter(i) == c)
  {
    if '1' <= c <= '9' then (c - '1') as int
    else if 'A' <= c <= 'H' then (c - 'A') as int + 9
    else if 'J' <= c <= 'N' then (c - 'J') as int + 17
    else if 'P' <= c <= 'Z' then (c - 'P') as int + 22
    else if 'a' <= c <= 'k' then (c - 'a') as int + 33
    else if 'm' <= c <= 'z' then (c - 'm') as int + 44
    else -1
  }

  predicate IsLetter(c: char) { IndexOf(c) != -1 }

  lemma LetterIndex(i: nat)
    requires i < 58
    ensures IndexOf(Letter(i)) == i && IsLetter(Letter(i))
  {}

  lemma LettersAreNotSpaces(c: char)
    requires IsLetter(c)
    ensures !IsSpace(c)
  {}

  // What is no letter is nowhere in the alphabet.
  lemma NoLetter(c: char)
    ensures IsLetter(c) <==> c in Alphabet
  {
    if IsLetter(c) {
      AlphabetIs(IndexOf(c));
    } else if c in Alphabet {
      var k :| 0 <= k < |Alphabet| && Alphabet[k] == c;
      AlphabetIs(k);
      LetterIndex(k);
    }
  }

  // ---------- encoding and decoding ----------

  function Letters(d: seq<nat>): (r: string)
    requires forall i :: 0 <= i < |d| ==> d[i] < 58
    ensures |r| == |d| && forall i :: 0 <= i < |d| ==> r[i] == Letter(d[i])
  {
    seq(|d|, i requires 0 <= i < |d| => Letter(d[i]))
  }

  // Digits of one base, most significant first, as digits of another; each leading zero stands for itself.
  function Convert(s: seq<nat>, base: nat, other: nat): (t: seq<nat>)
    requires other > 1
    ensures forall i :: 0 <= i < |t| ==> t[i] < other
  {
    Repeat(0, Leading(s, 0)) + Reverse(ToBase(FromBase(Reverse(s), base), other))
  }

  function Encoded(b: seq<Byte>): string { Letters(Convert(b, 256, 58)) }

  ghost predicate AllLetters(s: string) { forall i :: 0 <= i < |s| ==> IsLetter(s[i]) }

  function Digits(s: string): (d: seq<nat>)
    requires AllLetters(s)
    ensures |d| == |s| && forall i :: 0 <= i < |s| ==> d[i] < 58 && Letter(d[i]) == s[i]
  {
    seq(|s|, i requires 0 <= i < |s| => IndexOf(s[i]))
  }

  // The bytes of a string of letters.
  ghost function DecodedLetters(s: string): seq<Byte>
    requires AllLetters(s)
  {
    Bytes(Convert(Digits(s), 58, 256))
  }

  lemma DigitsOfLetters(d: seq<nat>)
    requires forall i :: 0 <= i < |d| ==> d[i] < 58
    ensures AllLetters(Letters(d)) && Digits(Letters(d)) == d
  {
    forall i | 0 <= i < |d| ensures IndexOf(Letters(d)[i]) == d[i] && IsLetter(Letters(d)[i]) { LetterIndex(d[i]); }
  }

  // Leading zeros in front of digits that do not begin with one.
  lemma {:induction false} ValueOfPadded(z: nat, d: seq<nat>, base: nat)
    ensures Reverse(Repeat(0, z) + Reverse(d)) == d + Repeat(0, z)
    ensures FromBase(Reverse(Repeat(0, z) + Reverse(d)), base) == FromBase(d, base)
  {
    FromZeros(d, z, base);
  }

  // The digits of a string without its leading zeros, least significant first.
  lemma SplitZeros(s: seq<nat>) returns (d: seq<nat>)
    ensures s == Repeat(0, Leading(s, 0)) + Reverse(d) && (d != [] ==> d[|d| - 1] != 0)
    ensures |d| == |s| - Leading(s, 0) && forall i :: 0 <= i < |d| ==> d[i] in s
  {
    var z := Leading(s, 0);
    d := Reverse(s[z..]);
    assert Reverse(d) == s[z..];
    assert s == Repeat(0, z) + s[z..];
  }

  lemma LeadingOfPadded(z: nat, d: seq<nat>)
    requires d != [] ==> d[|d| - 1] != 0
    ensures Leading(Repeat(0, z) + Reverse(d), 0) == z
  {
    LeadingIs(Repeat(0, z) + Reverse(d), 0, z);
  }

  lemma ThereAndBack(s: seq<nat>, base: nat, other: nat)
    requires base > 1 && other > 1 && forall i :: 0 <= i < |s| ==> s[i] < base
    ensures Convert(Convert(s, base, other), other, base) == s
  {
    hide ToBase, FromBase, Reverse, Leading, Repeat;
    var d := SplitZeros(s);
    var z := Leading(s, 0);
    ValueOfPadded(z, d, base);
    var n := FromBase(d, base);
    ToFrom(d, base);
    var e := ToBase(n, other);
    FromTo(n, other);
    ValueOfPadded(z, e, other);
    LeadingOfPadded(z, e);
  }

  // Decoding what was encoded gives the bytes back, leading zeros included.
  lemma {:induction false} DecodeEncode(b: seq<Byte>)
    ensures AllLetters(Encoded(b)) && DecodedLetters(Encoded(b)) == b
  {
    ThereAndBack(b, 256, 58);
    DigitsOfLetters(Convert(b, 256, 58));
    hide Convert;
  }

  // Encoding what was decoded gives the letters back.
  lemma {:induction false} EncodeDecode(s: string)
    requires AllLetters(s)
    ensures Encoded(DecodedLetters(s)) == s
  {
    ThereAndBack(Digits(s), 58, 256);
    hide Convert;
    assert Letters(Digits(s)) == s;
  }

  // ---------- the two procedures ----------

  ghost predicate Written(str: string, bn: nat, n: nat) {
    |str| <= |ToBase(n, 58)|
      && str == Letters(ToBase(n, 58)[..|str|]) && ToBase(bn, 58) == ToBase(n, 58)[|str|..]
  }

  lemma WriteNext(str: string, bn: nat, n: nat)
    requires Written(str, bn, n) && bn > 0
    ensures bn / 58 < bn && bn % 58 < 58
    ensures Written(str + [Letter(bn % 58)], bn / 58, n)
  {
    hide ToBase, Letters;
    var d := ToBase(n, 58);
    ToBaseStep(bn, 58);
    assert d[|str|] == bn % 58 && d[|str| + 1..] == d[|str|..][1..];
    assert d[..|str| + 1] == d[..|str|] + [bn % 58];
  }

  lemma WriteNone(n: nat)
    ensures Written("", n, n)
  {
    assert ToBase(n, 58)[..0] == [] && Letters([]) == "";
  }

  lemma WrittenOut(str: string, n: nat)
    requires Written(str, 0, n)
    ensures str == Letters(ToBase(n, 58))
  {
    assert ToBase(0, 58) == [];
    hide ToBase, Letters;
    assert ToBase(n, 58)[..|str|] == ToBase(n, 58);
  }

  // A number as letters, least significant first.
  method NumberLetters(n: nat) returns (str: string)
    ensures str == Letters(ToBase(n, 58))
  {
    hide ToBase, Letters, Written;
    str := "";
    var bn := n;
    WriteNone(n);
    while bn > 0
      invariant Written(str, bn, n)
      decreases bn
    {
      WriteNext(str, bn, n);
      str, bn := str + [Letter(bn % 58)], bn / 58;
    }
    WrittenOut(str, n);
  }

  method ZeroLetters(b: seq<Byte>) returns (str: string)
    ensures str == Repeat(Letter(0), Leading(b, 0))
  {
    str := "";
    var p := 0;
    while p < |b| && b[p] == 0
      invariant 0 <= p <= |b| && (forall i :: 0 <= i < p ==> b[i] == 0) && str == Repeat(Letter(0), p)
    {
      str := str + [Letter(0)];
      p := p + 1;
    }
    LeadingIs(b, 0, p);
  }

  lemma BigEndian(d: seq<nat>, z: nat)
    requires forall i :: 0 <= i < |d| ==> d[i] < 58
    ensures Reverse(Letters(d) + Repeat(Letter(0), z)) == Letters(Repeat(0, z) + Reverse(d))
  {}

  method EncodeBase58(b: seq<Byte>) returns (str: string)
    ensures str == Encoded(b)
  {
    hide FromBase, ToBase, Letters, Leading;
    // The zero put behind the bytes does not change the number.
    var vchTmp := Reverse<nat>(b) + [0];
    FromZeros(Reverse<nat>(b), 1, 256);
    assert Reverse<nat>(b) + Repeat(0, 1) == vchTmp;
    var bn := FromBase(vchTmp, 256);
    var number := NumberLetters(bn);
    var zeros := ZeroLetters(b);
    BigEndian(ToBase(bn, 58), Leading(b, 0));
    // little endian string to big endian
    str := Reverse(number + zeros);
  }

  ghost predicate FramedAt(s: string, a: int, b: int) {
    0 <= a <= b <= |s| && (forall m :: a <= m < b ==> IsLetter(s[m]))
      && (forall m :: 0 <= m < a ==> IsSpace(s[m])) && (forall m :: b <= m < |s| ==> IsSpace(s[m]))
  }

  // The letters between leading and trailing white space, if there is nothing else.
  ghost predicate Framed(s: string, letters: string) {
    exists i, j :: FramedAt(s, i, j) && letters == s[i..j]
  }

  method SkipSpaces(s: string, i: nat) returns (j: nat)
    requires i <= |s|
    ensures i <= j <= |s| && (forall k :: i <= k < j ==> IsSpace(s[k])) && (j < |s| ==> !IsSpace(s[j]))
  {
    j := i;
    while j < |s| && IsSpace(s[j])
      invariant i <= j <= |s| && forall k :: i <= k < j ==> IsSpace(s[k])
    {
      j := j + 1;
    }
  }

  // The value of the letters from i on, and where they end.
  method ReadLetters(s: string, i: nat) returns (bn: nat, j: nat)
    requires i <= |s|
    ensures i <= j <= |s| && AllLetters(s[i..j]) && (j < |s| ==> !IsLetter(s[j]))
    ensures bn == FromBase(Reverse(Digits(s[i..j])), 58)
  {
    bn, j := 0, i;
    assert s[i..i] == [];
    hide FromBase, IndexOf, IsLetter, Reverse, Digits;
    while j < |s| && IsLetter(s[j])
      invariant i <= j <= |s| && AllLetters(s[i..j]) && bn == FromBase(Reverse(Digits(s[i..j])), 58)
    {
      NextLetter(s, i, j);
      bn := bn * 58 + IndexOf(s[j]);
      j := j + 1;
    }
  }

  lemma {:induction false} NextLetter(s: string, i: nat, j: nat)
    requires i <= j < |s| && AllLetters(s[i..j]) && IsLetter(s[j])
    ensures AllLetters(s[i..j + 1])
    ensures FromBase(Reverse(Digits(s[i..j + 1])), 58) == FromBase(Reverse(Digits(s[i..j])), 58) * 58 + IndexOf(s[j])
  {
    var t := s[i..j + 1];
    assert t[..|t| - 1] == s[i..j] && t[|t| - 1] == s[j] && IsLetter(s[j]);
    var d := Reverse(Digits(t));
    assert d[1..] == Reverse(Digits(s[i..j]));
  }

  // What stands after the letters and the spaces that follow them is in no frame.
  lemma NotFramed(s: string, i: nat, j: nat, k: nat)
    requires i <= j <= k < |s| && AllLetters(s[i..j]) && !IsSpace(s[k]) && !IsSpace(s[i])
    requires !IsLetter(s[j]) && forall m :: j <= m < k ==> IsSpace(s[m])
    ensures forall letters :: !Framed(s, letters)
  {
    if i < j {
      assert s[i..j][0] == s[i];
      LettersAreNotSpaces(s[i]);
    }
    forall a, b ensures !FramedAt(s, a, b) { hide IsSpace; }
  }

  lemma NoSpaceOutside(s: string, a: int, b: int)
    requires FramedAt(s, a, b) && forall m :: 0 <= m < |s| ==> !IsSpace(s[m])
    ensures a == 0 && b == |s|
  {
    hide IsLetter, IsSpace;
    if |s| > 0 {
      var first, last := s[0], s[|s| - 1];
      assert !IsSpace(first) && !IsSpace(last);
    }
  }

  // A string of letters is framed as itself and in no other way.
  lemma OnlyFrame(s: string, letters: string)
    requires AllLetters(s)
    ensures Framed(s, letters) <==> letters == s
  {
    hide IsLetter, IsSpace;
    forall m | 0 <= m < |s| ensures !IsSpace(s[m]) { LettersAreNotSpaces(s[m]); }
    assert FramedAt(s, 0, |s|) && s[0..|s|] == s;
    forall a, b | FramedAt(s, a, b) ensures s[a..b] == s { NoSpaceOutside(s, a, b); }
  }

  lemma ZeroDigits(letters: string, z: nat)
    requires AllLetters(letters) && z <= |letters| && (forall m :: 0 <= m < z ==> letters[m] == Letter(0))
    requires z < |letters| ==> letters[z] != Letter(0)
    ensures Leading(Digits(letters), 0) == z
  {
    LetterIndex(0);
    LeadingIs(Digits(letters), 0, z);
  }

  // Decodes a C string, which has no NUL before its end.
  method DecodeBase58(s: string) returns (r: Result)
    ensures r.Decoded? ==> exists letters :: Framed(s, letters) && r.bytes == DecodedLetters(letters)
    ensures r.Malformed? ==> forall letters :: !Framed(s, letters)
  {
    hide FromBase, IndexOf, IsLetter, Reverse, Digits, ToBase, GetVch, TrimSign, Leading, IsSpace;
    var i := SkipSpaces(s, 0);
    var bn, j := ReadLetters(s, i);
    var k := SkipSpaces(s, j);
    ghost var letters := s[i..j];
    if k < |s| {
      NotFramed(s, i, j, k);
      return Malformed;
    }
    // The byte TrimSign takes away holds no digit.
    TrimGetVch(bn);
    var vchTmp := TrimSign(GetVch(bn));
    var nLeadingZeros := 0;
    while i + nLeadingZeros < j && s[i + nLeadingZeros] == Letter(0)
      invariant 0 <= nLeadingZeros <= j - i && forall m :: 0 <= m < nLeadingZeros ==> letters[m] == Letter(0)
    {
      nLeadingZeros := nLeadingZeros + 1;
    }
    ZeroDigits(letters, nLeadingZeros);
    assert FramedAt(s, i, j);
    r := Decoded(Repeat(0, nLeadingZeros) + Reverse(vchTmp));
    assert r.bytes == DecodedLetters(letters);
  }
}
