/** How the unspent outputs of a transaction are stored: compressed amounts, a header code and a mask of
    which outputs are left. Variable-length integers and compressed scripts are tokens of the stream. */
module CoinsCodec {
  import Basics
  import opened Ledger

  // ---------- amounts ----------

  function Pow10(e: nat): (r: nat)
    ensures r > 0
  {
    if e == 0 then 1 else 10 * Pow10(e - 1)
  }

  // Divides by ten while that leaves no remainder, at most nine times in all.
  function Strip(n: nat, e: nat): (nat, nat)
    requires n > 0 && e <= 9
    decreases 9 - e
  {
    if n % 10 == 0 && e < 9 then Strip(n / 10, e + 1) else (n, e)
  }

  // A number without trailing zeros and how many it had, as one code.
  function Pack(m: nat, e: nat): nat
    requires m > 0 && (e < 9 ==> m % 10 != 0)
  {
    if e < 9 then 1 + (m / 10 * 9 + m % 10 - 1) * 10 + e else 1 + (m - 1) * 10 + 9
  }

  function Unpack(x: nat): (r: (nat, nat))
    requires x > 0
    ensures r.0 > 0 && r.1 <= 9
  {
    var e := (x - 1) % 10;
    var y := (x - 1) / 10;
    (if e < 9 then y / 9 * 10 + y % 9 + 1 else y + 1, e)
  }

  lemma UnpackPack(m: nat, e: nat)
    requires m > 0 && e <= 9 && (e < 9 ==> m % 10 != 0)
    ensures Pack(m, e) > 0 && Unpack(Pack(m, e)) == (m, e)
  {
    var x := Pack(m, e);
    if e < 9 {
      var y := m / 10 * 9 + (m % 10 - 1);
      assert x - 1 == y * 10 + e;
      assert y / 9 == m / 10 && y % 9 == m % 10 - 1;
    }
  }

  lemma PackUnpack(x: nat)
    requires x > 0
    ensures var (m, e) := Unpack(x); (e < 9 ==> m % 10 != 0) && Pack(m, e) == x
  {
    var (m, e) := Unpack(x);
    var y := (x - 1) / 10;
    if e < 9 { assert m / 10 == y / 9 && m % 10 == y % 9 + 1; }
  }

  function Compressed(n: nat): nat {
    if n == 0 then 0 else StripEnds(n, 0); Pack(Strip(n, 0).0, Strip(n, 0).1)
  }

  function Decompressed(x: nat): nat {
    if x == 0 then 0 else Unpack(x).0 * Pow10(Unpack(x).1)
  }

  lemma MoveTen(n: nat, p: nat)
    ensures n * (10 * p) == (n * 10) * p && (n % 10 == 0 ==> n * p == n / 10 * (10 * p))
  {
    if n % 10 == 0 {
      var q := n / 10;
      assert n == q * 10;
      assert (q * 10) * p == q * (10 * p);
    }
  }

  lemma {:induction false} StripEnds(n: nat, e: nat)
    requires n > 0 && e <= 9
    ensures var (m, f) := Strip(n, e);
            m > 0 && e <= f <= 9 && n * Pow10(e) == m * Pow10(f) && (f < 9 ==> m % 10 != 0)
    decreases 9 - e
  {
    if n % 10 == 0 && e < 9 {
      StripEnds(n / 10, e + 1);
      MoveTen(n, Pow10(e));
      hide Strip;
    }
  }

  lemma {:induction false} StripFinds(m: nat, e: nat, f: nat)
    requires m > 0 && e <= f <= 9 && (f < 9 ==> m % 10 != 0)
    ensures m * Pow10(f - e) > 0 && Strip(m * Pow10(f - e), e) == (m, f)
    decreases f - e
  {
    if e < f {
      StripFinds(m, e + 1, f);
      TenOut(m, Pow10(f - e - 1));
      StripTen(m * Pow10(f - e - 1), e);
      hide Strip;
    } else {
      assert m * Pow10(0) == m;
    }
  }

  lemma TenOut(m: nat, q: nat)
    ensures m * (10 * q) == 10 * (m * q)
  {}

  lemma StripTen(p: nat, e: nat)
    requires p > 0 && e < 9
    ensures Strip(10 * p, e) == Strip(p, e + 1)
  {}

  // The two functions are inverse to each other, on all amounts and on all codes.
  lemma DecompressCompress(n: nat)
    ensures Decompressed(Compressed(n)) == n
  {
    if n > 0 {
      StripEnds(n, 0);
      UnpackPack(Strip(n, 0).0, Strip(n, 0).1);
      assert n * Pow10(0) == n;
      hide Pack, Unpack, Strip;
    }
  }

  lemma CompressDecompress(x: nat)
    ensures Compressed(Decompressed(x)) == x
  {
    if x > 0 {
      PackUnpack(x);
      StripFinds(Unpack(x).0, 0, Unpack(x).1);
      hide Pack, Unpack, Strip;
    }
  }

  method CompressAmount(amount: nat) returns (x: nat)
    ensures x == Compressed(amount)
  {
    var n := amount;
    if n == 0 { return 0; }
    var e := 0;
    while n % 10 == 0 && e < 9
      invariant 0 <= e <= 9 && n > 0 && Strip(n, e) == Strip(amount, 0)
      decreases 9 - e
    {
      n := n / 10;
      e := e + 1;
    }
    if e < 9 {
      var d := n % 10;
      n := n / 10;
      return 1 + (n * 9 + d - 1) * 10 + e;
    }
    return 1 + (n - 1) * 10 + 9;
  }

  method DecompressAmount(code: nat) returns (n: nat)
    ensures n == Decompressed(code)
  {
    if code == 0 { return 0; }
    var x := code - 1;
    var e := x % 10;
    x := x / 10;
    if e < 9 {
      var d := x % 9 + 1;
      x := x / 9;
      n := x * 10 + d;
    } else {
      n := x + 1;
    }
    assert (n, e) == Unpack(code);
    hide Unpack;
    while e > 0
      invariant 0 <= e && n * Pow10(e) == Decompressed(code)
    {
      MoveTen(n, Pow10(e - 1));
      n := n * 10;
      e := e - 1;
    }
  }

  // ---------- the mask of unspent outputs ----------

  datatype Token = VarInt(n: nat) | Byte(b: bv8) | ScriptToken(s: Script)

  predicate Available(vout: seq<TxOut>, i: nat) { i < |vout| && !vout[i].IsNull() }

  // The first n bits of mask byte b. Outputs 0 and 1 have their bits elsewhere.
  function MaskBits(vout: seq<TxOut>, b: nat, n: nat): bv8
    requires n <= 8
  {
    if n == 0 then 0
    else MaskBits(vout, b, n - 1) | (if Available(vout, 2 + b * 8 + n - 1) then Basics.Mask(n - 1) else 0)
  }

  function MaskByte(vout: seq<TxOut>, b: nat): bv8 { MaskBits(vout, b, 8) }

  lemma {:induction false} MaskBitsAre(vout: seq<TxOut>, b: nat, n: nat, i: nat)
    requires n <= 8 && i < 8
    ensures MaskBits(vout, b, n) & Basics.Mask(i) != 0 <==> i < n && Available(vout, 2 + b * 8 + i)
  {
    if n > 0 {
      MaskBitsAre(vout, b, n - 1, i);
      var before := MaskBits(vout, b, n - 1);
      if Available(vout, 2 + b * 8 + n - 1) { Basics.OrMask(before, n - 1, i); } else { Basics.OrNothing(before); }
    } else {
      NoBits(i);
    }
  }

  lemma NoBits(i: nat)
    requires i < 8
    ensures 0 & Basics.Mask(i) == 0
  {}

  // How many bytes the mask needs, and how many of its first n bytes are not zero.
  function LastUsed(vout: seq<TxOut>, n: nat): nat {
    if n == 0 then 0 else if MaskByte(vout, n - 1) != 0 then n else LastUsed(vout, n - 1)
  }

  function NonZero(vout: seq<TxOut>, n: nat): nat {
    if n == 0 then 0 else NonZero(vout, n - 1) + (if MaskByte(vout, n - 1) != 0 then 1 else 0)
  }

  // The bytes that could be needed.
  function MaskRange(vout: seq<TxOut>): nat { if |vout| <= 2 then 0 else (|vout| - 2 + 7) / 8 }

  lemma OrZero(x: bv8, y: bv8)
    ensures x | y == 0 <==> x == 0 && y == 0
  {}

  lemma {:induction false} MaskBitsRest(vout: seq<TxOut>, b: nat, i: nat)
    requires i <= 8 && (i < 8 ==> 2 + b * 8 + i >= |vout|)
    ensures MaskBits(vout, b, i) == MaskByte(vout, b)
    decreases 8 - i
  {
    if i < 8 {
      Basics.OrNothing(MaskBits(vout, b, i));
      MaskBitsRest(vout, b, i + 1);
    }
  }

  method IsZeroByte(vout: seq<TxOut>, b: nat) returns (fZero: bool)
    ensures fZero <==> MaskByte(vout, b) == 0
  {
    fZero := true;
    var i := 0;
    while i < 8 && 2 + b * 8 + i < |vout|
      invariant 0 <= i <= 8 && (fZero <==> MaskBits(vout, b, i) == 0)
    {
      OrZero(MaskBits(vout, b, i), if Available(vout, 2 + b * 8 + i) then Basics.Mask(i) else 0);
      if !vout[2 + b * 8 + i].IsNull() { fZero := false; }
      i := i + 1;
    }
    MaskBitsRest(vout, b, i);
  }

  method CalcMaskSize(vout: seq<TxOut>) returns (nBytes: nat, nNonzeroBytes: nat)
    ensures nBytes == LastUsed(vout, MaskRange(vout)) && nNonzeroBytes == NonZero(vout, MaskRange(vout))
  {
    nBytes, nNonzeroBytes := 0, 0;
    var b := 0;
    while 2 + b * 8 < |vout|
      invariant 0 <= b <= MaskRange(vout) && nBytes == LastUsed(vout, b) && nNonzeroBytes == NonZero(vout, b)
    {
      var fZero := IsZeroByte(vout, b);
      if !fZero {
        nBytes := b + 1;
        nNonzeroBytes := nNonzeroBytes + 1;
      }
      b := b + 1;
    }
  }

  // ---------- writing ----------

  function MaskTokens(vout: seq<TxOut>, n: nat): seq<Token> {
    if n == 0 then [] else MaskTokens(vout, n - 1) + [Byte(MaskByte(vout, n - 1))]
  }

  // A spent output is not written.
  function OutToken(o: TxOut): seq<Token> {
    if o.IsNull() then [] else [VarInt(Compressed(Amount(o))), ScriptToken(o.scriptPubKey)]
  }

  function OutTokens(vout: seq<TxOut>): seq<Token> {
    if vout == [] then [] else OutToken(vout[0]) + OutTokens(vout[1..])
  }

  lemma {:induction false} OutTokensNext(vout: seq<TxOut>, o: TxOut)
    ensures OutTokens(vout + [o]) == OutTokens(vout) + OutToken(o)
  {
    if vout != [] {
      OutTokensNext(vout[1..], o);
      assert (vout + [o])[1..] == vout[1..] + [o];
    } else {
      assert OutTokens([o][1..]) == [];
    }
  }

  function Amount(o: TxOut): nat { if o.nValue < 0 then 0 else o.nValue }

  function HeaderCode(c: Coins): int {
    var fFirst, fSecond := Available(c.vout, 0), Available(c.vout, 1);
    8 * (NonZero(c.vout, MaskRange(c.vout)) - (if fFirst || fSecond then 0 else 1)) +
    (if c.fCoinBase then 1 else 0) + (if fFirst then 2 else 0) + (if fSecond then 4 else 0)
  }

  // What can be stored: some output is left, amounts are not negative, the unit is a byte.
  ghost predicate Storable(c: Coins) {
    && !c.IsPruned() && c.cUnit as int < 256
    && forall i :: 0 <= i < |c.vout| ==> c.vout[i].nValue >= 0 || c.vout[i] == NullOut
  }

  function Tail(c: Coins): seq<Token> {
    [VarInt(c.nHeight), VarInt(if c.fCoinStake then 1 else 0), VarInt(c.nTime), VarInt(c.cUnit as int)]
  }

  // Something is left among the first two outputs or in the mask.
  lemma CodeIsNat(c: Coins)
    requires !c.IsPruned()
    ensures Available(c.vout, 0) || Available(c.vout, 1) || NonZero(c.vout, MaskRange(c.vout)) > 0
    ensures HeaderCode(c) >= 0
  {
    var k :| 0 <= k < |c.vout| && !c.vout[k].IsNull();
    if k >= 2 {
      var b, i := (k - 2) / 8, (k - 2) % 8;
      MaskBitsAre(c.vout, b, 8, i);
      assert Available(c.vout, 2 + b * 8 + i);
      NoBits(i);
      NonZeroCounts(c.vout, MaskRange(c.vout), b);
    }
  }

  lemma {:induction false} NonZeroCounts(vout: seq<TxOut>, n: nat, b: nat)
    requires b < n && MaskByte(vout, b) != 0
    ensures NonZero(vout, n) > 0
  {
    if b < n - 1 { NonZeroCounts(vout, n - 1, b); }
  }

  function Serialized(c: Coins): seq<Token>
    requires HeaderCode(c) >= 0
  {
    [VarInt(StoredVersion(c.nVersion)), VarInt(HeaderCode(c))] + MaskTokens(c.vout, LastUsed(c.vout, MaskRange(c.vout))) + OutTokens(c.vout) + Tail(c)
  }

  method MaskByteOf(vout: seq<TxOut>, b: nat) returns (chAvail: bv8)
    ensures chAvail == MaskByte(vout, b)
  {
    chAvail := 0;
    var i := 0;
    while i < 8 && 2 + b * 8 + i < |vout|
      invariant 0 <= i <= 8 && chAvail == MaskBits(vout, b, i)
    {
      Basics.OrNothing(chAvail);
      if !vout[2 + b * 8 + i].IsNull() { chAvail := chAvail | Basics.Mask(i); }
      i := i + 1;
    }
    MaskBitsRest(vout, b, i);
  }

  method WriteMask(vout: seq<TxOut>, nMaskSize: nat) returns (s: seq<Token>)
    ensures s == MaskTokens(vout, nMaskSize)
  {
    s := [];
    var b := 0;
    while b < nMaskSize
      invariant 0 <= b <= nMaskSize && s == MaskTokens(vout, b)
    {
      var chAvail := MaskByteOf(vout, b);
      s := s + [Byte(chAvail)];
      b := b + 1;
    }
  }

  method WriteOuts(vout: seq<TxOut>) returns (s: seq<Token>)
    requires forall i :: 0 <= i < |vout| ==> vout[i].nValue >= 0 || vout[i] == NullOut
    ensures s == OutTokens(vout)
  {
    s := [];
    var i := 0;
    while i < |vout|
      invariant 0 <= i <= |vout| && s == OutTokens(vout[..i])
    {
      assert vout[..i + 1] == vout[..i] + [vout[i]];
      OutTokensNext(vout[..i], vout[i]);
      hide OutTokens, Compressed;
      if !vout[i].IsNull() {
        var x := CompressAmount(vout[i].nValue);
        s := s + [VarInt(x), ScriptToken(vout[i].scriptPubKey)];
      }
      i := i + 1;
    }
    assert vout[..i] == vout;
  }

  method Serialize(c: Coins) returns (s: seq<Token>)
    requires Storable(c)
    ensures HeaderCode(c) >= 0 && s == Serialized(c)
  {
    CodeIsNat(c);
    hide MaskBits, Compressed, OutTokens, LastUsed, NonZero, MaskRange, MaskTokens;
    var nMaskSize, nMaskCode := CalcMaskSize(c.vout);
    var fFirst := |c.vout| > 0 && !c.vout[0].IsNull();
    var fSecond := |c.vout| > 1 && !c.vout[1].IsNull();
    assert fFirst || fSecond || nMaskCode > 0;
    var nCode := 8 * (nMaskCode - (if fFirst || fSecond then 0 else 1)) +
                 (if c.fCoinBase then 1 else 0) + (if fFirst then 2 else 0) + (if fSecond then 4 else 0);
    var mask := WriteMask(c.vout, nMaskSize);
    var outs := WriteOuts(c.vout);
    // version, header code; then height, flags, timestamp, unit
    s := [VarInt(StoredVersion(c.nVersion)), VarInt(nCode)] + mask + outs +
         [VarInt(c.nHeight), VarInt(if c.fCoinStake then 1 else 0), VarInt(c.nTime), VarInt(c.cUnit as int)];
  }

  // ---------- reading ----------

  function Bits(b: bv8): (r: seq<bool>)
    ensures |r| == 8
  {
    seq(8, p requires 0 <= p < 8 => b & Basics.Mask(p) != 0)
  }

  // Mask bytes are read until so many of them were not zero.
  function ReadMask(s: seq<Token>, nMaskCode: nat): Option<(seq<bool>, seq<Token>)>
    decreases |s|
  {
    if nMaskCode == 0 then Some(([], s))
    else if s == [] || !s[0].Byte? then None
    else
      match ReadMask(s[1..], if s[0].b != 0 then nMaskCode - 1 else nMaskCode)
      case None => None
      case Some((rest, t)) => Some((Bits(s[0].b) + rest, t))
  }

  function ReadOuts(s: seq<Token>, vAvail: seq<bool>): Option<(seq<TxOut>, seq<Token>)>
    decreases |vAvail|
  {
    if vAvail == [] then Some(([], s))
    else if !vAvail[0] then
      match ReadOuts(s, vAvail[1..])
      case None => None
      case Some((rest, t)) => Some(([NullOut] + rest, t))
    else if |s| < 2 || !s[0].VarInt? || !s[1].ScriptToken? then None
    else
      match ReadOuts(s[2..], vAvail[1..])
      case None => None
      case Some((rest, t)) => Some(([TxOut(Decompressed(s[0].n), s[1].s)] + rest, t))
  }

  // A record and what follows it in the stream.
  function Unserialized(s: seq<Token>): Option<(Coins, seq<Token>)> {
    if |s| < 2 || !s[0].VarInt? || !s[1].VarInt? then None
    else
      var nCode := s[1].n;
      var vAvail := [nCode / 2 % 2 == 1, nCode / 4 % 2 == 1];
      match ReadMask(s[2..], nCode / 8 + (if vAvail[0] || vAvail[1] then 0 else 1))
      case None => None
      case Some((mask, t)) =>
        match ReadOuts(t, vAvail + mask)
        case None => None
        case Some((vout, u)) =>
          if |u| < 4 || !u[0].VarInt? || !u[1].VarInt? || !u[2].VarInt? || !u[3].VarInt? then None
          else Some((Coins(nCode % 2 == 1, Trim(vout), u[0].n, s[0].n, u[1].n % 2 == 1, u[2].n, (u[3].n % 256) as char), u[4..]))
  }

  // A result with more in front.
  function Prefixed<T>(a: seq<T>, r: Option<(seq<T>, seq<Token>)>): Option<(seq<T>, seq<Token>)> {
    match r case None => None case Some((m, t)) => Some((a + m, t))
  }

  lemma PrefixLaws<T>(a: seq<T>, b: seq<T>, r: Option<(seq<T>, seq<Token>)>)
    ensures Prefixed([], r) == r && Prefixed(a + b, r) == Prefixed(a, Prefixed(b, r))
    ensures forall t :: Prefixed(a, Some(([], t))) == Some((a, t))
  {
    match r {
      case None =>
      case Some((m, t)) => assert [] + m == m && (a + b) + m == a + (b + m);
    }
    assert a + [] == a;
  }

  method ByteBits(chAvail: bv8) returns (bits: seq<bool>)
    ensures bits == Bits(chAvail)
  {
    bits := [];
    var p := 0;
    while p < 8
      invariant 0 <= p <= 8 && |bits| == p && forall k :: 0 <= k < p ==> bits[k] == Bits(chAvail)[k]
    {
      var f := chAvail & Basics.Mask(p) != 0;
      assert Bits(chAvail)[p] == f;
      bits := bits + [f];
      p := p + 1;
    }
  }

  // Reads mask bytes; s is what is left of the stream.
  method ReadMaskBytes(stream: seq<Token>, count: nat) returns (ok: bool, mask: seq<bool>, s: seq<Token>)
    ensures ReadMask(stream, count) == if ok then Some((mask, s)) else None
  {
    mask, s := [], stream;
    var nMaskCode := count;
    PrefixLaws([], [], ReadMask(stream, count));
    while nMaskCode > 0
      invariant ReadMask(stream, count) == Prefixed(mask, ReadMask(s, nMaskCode))
      decreases |s|
    {
      if s == [] || !s[0].Byte? { return false, mask, s; }
      var chAvail := s[0].b;
      var bits := ByteBits(chAvail);
      if chAvail != 0 { nMaskCode := nMaskCode - 1; }
      s := s[1..];
      PrefixLaws(mask, bits, ReadMask(s, nMaskCode));
      hide Bits;
      mask := mask + bits;
    }
    PrefixLaws(mask, [], None);
    ok := true;
  }

  method ReadTxOuts(stream: seq<Token>, vAvail: seq<bool>) returns (ok: bool, vout: seq<TxOut>, s: seq<Token>)
    ensures ReadOuts(stream, vAvail) == if ok then Some((vout, s)) else None
  {
    vout, s := [], stream;
    var i := 0;
    PrefixLaws([], [], ReadOuts(stream, vAvail));
    assert vAvail[0..] == vAvail;
    while i < |vAvail|
      invariant 0 <= i <= |vAvail| && ReadOuts(stream, vAvail) == Prefixed(vout, ReadOuts(s, vAvail[i..]))
    {
      assert vAvail[i..][1..] == vAvail[i + 1..];
      var o := NullOut;
      if vAvail[i] {
        if |s| < 2 || !s[0].VarInt? || !s[1].ScriptToken? { return false, vout, s; }
        var nValue := DecompressAmount(s[0].n);
        o := TxOut(nValue, s[1].s);
        s := s[2..];
      }
      PrefixLaws(vout, [o], ReadOuts(s, vAvail[i + 1..]));
      vout := vout + [o];
      i := i + 1;
    }
    PrefixLaws(vout, [], None);
    ok := true;
  }

  method Unserialize(s: seq<Token>) returns (r: Option<(Coins, seq<Token>)>)
    ensures r == Unserialized(s)
  {
    if |s| < 2 || !s[0].VarInt? || !s[1].VarInt? { return None; }
    // version, header code
    var nVersion, nCode := s[0].n, s[1].n;
    var fCoinBase := nCode % 2 == 1;
    var vAvail := [nCode / 2 % 2 == 1, nCode / 4 % 2 == 1];
    var nMaskCode := nCode / 8 + (if vAvail[0] || vAvail[1] then 0 else 1);
    var okMask, mask, t := ReadMaskBytes(s[2..], nMaskCode);
    if !okMask { return None; }
    var okOuts, vout, u := ReadTxOuts(t, vAvail + mask);
    if !okOuts { return None; }
    // height, flags, timestamp, unit
    if |u| < 4 || !u[0].VarInt? || !u[1].VarInt? || !u[2].VarInt? || !u[3].VarInt? { return None; }
    return Some((Coins(fCoinBase, Trim(vout), u[0].n, nVersion, u[1].n % 2 == 1, u[2].n, (u[3].n % 256) as char), u[4..]));
  }

  // ---------- what was written is read back ----------

  // Which outputs are left, from index i on.
  function Availability(vout: seq<TxOut>, i: nat, n: nat): (r: seq<bool>)
    ensures |r| == n && forall k :: 0 <= k < n ==> r[k] == Available(vout, i + k)
  {
    seq(n, k requires 0 <= k < n => Available(vout, i + k))
  }

  lemma BitsAre(vout: seq<TxOut>, b: nat)
    ensures Bits(MaskByte(vout, b)) == Availability(vout, 2 + b * 8, 8)
  {
    forall i | 0 <= i < 8 ensures Bits(MaskByte(vout, b))[i] == Available(vout, 2 + b * 8 + i) { MaskBitsAre(vout, b, 8, i); }
  }

  lemma {:induction false} LastUsedMeans(vout: seq<TxOut>, n: nat)
    ensures LastUsed(vout, n) <= n && NonZero(vout, LastUsed(vout, n)) == NonZero(vout, n)
    ensures LastUsed(vout, n) > 0 ==> MaskByte(vout, LastUsed(vout, n) - 1) != 0
    ensures forall b :: LastUsed(vout, n) <= b < n ==> MaskByte(vout, b) == 0
  {
    if n > 0 && MaskByte(vout, n - 1) == 0 { LastUsedMeans(vout, n - 1); }
  }

  // Outputs that the mask does not reach are spent.
  lemma BeyondMask(vout: seq<TxOut>, i: nat)
    requires i >= 2 + LastUsed(vout, MaskRange(vout)) * 8
    ensures !Available(vout, i)
  {
    LastUsedMeans(vout, MaskRange(vout));
    if i < |vout| {
      var b, k := (i - 2) / 8, (i - 2) % 8;
      MaskBitsAre(vout, b, 8, k);
      NoBits(k);
      assert b < MaskRange(vout) && MaskByte(vout, b) == 0;
      assert 2 + b * 8 + k == i;
    }
  }

  lemma {:induction false} NonZeroMonotone(vout: seq<TxOut>, b: nat, n: nat)
    requires b <= n
    ensures NonZero(vout, b) <= NonZero(vout, n)
  {
    if b < n { NonZeroMonotone(vout, b, n - 1); }
  }

  lemma {:induction false} MaskTokenAt(vout: seq<TxOut>, n: nat, b: nat)
    requires b < n
    ensures |MaskTokens(vout, n)| == n && MaskTokens(vout, n)[b] == Byte(MaskByte(vout, b))
  {
    MaskTokensSize(vout, n);
    if b < n - 1 { MaskTokenAt(vout, n - 1, b); }
  }

  lemma {:induction false} MaskTokensSize(vout: seq<TxOut>, n: nat)
    ensures |MaskTokens(vout, n)| == n
  {
    if n > 0 { MaskTokensSize(vout, n - 1); }
  }

  // Counting the bytes that are not zero finds the end of the mask.
  lemma {:induction false} ReadMaskBack(vout: seq<TxOut>, b: nat, n: nat, t: seq<Token>)
    requires b <= n && (n > 0 ==> MaskByte(vout, n - 1) != 0)
    ensures |MaskTokens(vout, n)| == n && NonZero(vout, b) <= NonZero(vout, n)
    ensures ReadMask(MaskTokens(vout, n)[b..] + t, NonZero(vout, n) - NonZero(vout, b)) ==
            Some((Availability(vout, 2 + b * 8, (n - b) * 8), t))
    decreases n - b
  {
    MaskTokensSize(vout, n);
    NonZeroMonotone(vout, b, n);
    var s := MaskTokens(vout, n)[b..] + t;
    if b < n {
      MaskTokenAt(vout, n, b);
      NonZeroMonotone(vout, b, n - 1);
      NonZeroMonotone(vout, b + 1, n);
      ReadMaskBack(vout, b + 1, n, t);
      BitsAre(vout, b);
      assert s[1..] == MaskTokens(vout, n)[b + 1..] + t;
      assert Availability(vout, 2 + b * 8, 8) + Availability(vout, 2 + (b + 1) * 8, (n - b - 1) * 8) == Availability(vout, 2 + b * 8, (n - b) * 8);
    } else {
      assert s == t;
      assert Availability(vout, 2 + b * 8, 0) == [];
    }
  }

  function PadTo(vout: seq<TxOut>, n: nat): (r: seq<TxOut>)
    ensures |r| == n && forall k :: 0 <= k < n ==> r[k] == if Available(vout, k) then vout[k] else NullOut
  {
    seq(n, k requires 0 <= k < n => if Available(vout, k) then vout[k] else NullOut)
  }

  // The first output left: two tokens; a spent one: none.
  lemma ReadOneOut(vout: seq<TxOut>, n: nat, t: seq<Token>, back: seq<TxOut>)
    requires n > 0 && (vout != [] ==> vout[0].nValue >= 0 || vout[0] == NullOut)
    requires var rest := if vout == [] then [] else vout[1..];
             ReadOuts(OutTokens(rest) + t, Availability(rest, 0, n - 1)) == Some((back, t))
    ensures ReadOuts(OutTokens(vout) + t, Availability(vout, 0, n)) ==
            Some(([if Available(vout, 0) then vout[0] else NullOut] + back, t))
  {
    var rest := if vout == [] then [] else vout[1..];
    hide ReadOuts, Compressed, Decompressed, Availability;
    var avail := Availability(rest, 0, n - 1);
    FirstAvailable(vout, rest, n);
    if Available(vout, 0) {
      var o := vout[0];
      DecompressCompress(Amount(o));
      ReadOutsLeft(Compressed(Amount(o)), o.scriptPubKey, OutTokens(rest) + t, avail, back, t);
      FirstTokens(vout, t);
    } else {
      ReadOutsSpent(OutTokens(rest) + t, avail, back, t);
      assert OutTokens(vout) == OutTokens(rest);
    }
  }

  lemma FirstTokens(vout: seq<TxOut>, t: seq<Token>)
    requires Available(vout, 0)
    ensures OutTokens(vout) + t == [VarInt(Compressed(Amount(vout[0]))), ScriptToken(vout[0].scriptPubKey)] + (OutTokens(vout[1..]) + t)
  {
    hide Compressed;
    assert (OutToken(vout[0]) + OutTokens(vout[1..])) + t == OutToken(vout[0]) + (OutTokens(vout[1..]) + t);
  }

  lemma FirstAvailable(vout: seq<TxOut>, rest: seq<TxOut>, n: nat)
    requires n > 0 && rest == if vout == [] then [] else vout[1..]
    ensures Availability(vout, 0, n) == [Available(vout, 0)] + Availability(rest, 0, n - 1)
  {}

  lemma ReadOutsLeft(a: nat, b: Script, s: seq<Token>, avail: seq<bool>, back: seq<TxOut>, t: seq<Token>)
    requires ReadOuts(s, avail) == Some((back, t))
    ensures ReadOuts([VarInt(a), ScriptToken(b)] + s, [true] + avail) == Some(([TxOut(Decompressed(a), b)] + back, t))
  {
    assert ([VarInt(a), ScriptToken(b)] + s)[2..] == s && ([true] + avail)[1..] == avail;
  }

  lemma ReadOutsSpent(s: seq<Token>, avail: seq<bool>, back: seq<TxOut>, t: seq<Token>)
    requires ReadOuts(s, avail) == Some((back, t))
    ensures ReadOuts(s, [false] + avail) == Some(([NullOut] + back, t))
  {
    assert ([false] + avail)[1..] == avail;
  }

  lemma {:induction false} ReadOutsBack(vout: seq<TxOut>, n: nat, t: seq<Token>)
    requires forall i :: 0 <= i < |vout| ==> vout[i].nValue >= 0 || vout[i] == NullOut
    requires forall i :: n <= i < |vout| ==> vout[i].IsNull()
    ensures ReadOuts(OutTokens(vout) + t, Availability(vout, 0, n)) == Some((PadTo(vout, n), t))
    decreases n
  {
    if n == 0 {
      NothingWritten(vout);
      assert OutTokens(vout) + t == t;
      assert PadTo(vout, 0) == [];
    } else {
      var rest := if vout == [] then [] else vout[1..];
      ReadOutsBack(rest, n - 1, t);
      ReadOneOut(vout, n, t, PadTo(rest, n - 1));
      assert PadTo(vout, n) == [if Available(vout, 0) then vout[0] else NullOut] + PadTo(rest, n - 1);
    }
  }

  lemma {:induction false} NothingWritten(vout: seq<TxOut>)
    requires forall i :: 0 <= i < |vout| ==> vout[i].IsNull()
    ensures OutTokens(vout) == []
  {
    if vout != [] { NothingWritten(vout[1..]); }
  }

  lemma SameTrim(v: seq<TxOut>, w: seq<TxOut>)
    requires forall i :: 0 <= i < |v| ==> !v[i].IsNull() || v[i] == NullOut
    requires forall i :: 0 <= i < |w| ==> !w[i].IsNull() || w[i] == NullOut
    requires forall i: nat :: Available(v, i) == Available(w, i) && (Available(v, i) ==> v[i] == w[i])
    ensures Trim(v) == Trim(w)
  {
    TrimShape(v);
    TrimShape(w);
    hide Trim;
    var a, b := |Trim(v)|, |Trim(w)|;
    assert a > 0 ==> Trim(v)[a - 1] == v[a - 1] && Available(v, a - 1);
    assert b > 0 ==> Trim(w)[b - 1] == w[b - 1] && Available(w, b - 1);
    assert a == b;
    forall i | 0 <= i < a ensures v[..a][i] == w[..a][i] { assert Available(v, i) == Available(w, i); }
    assert v[..a] == w[..a];
  }

  // The header code says all that the reader needs.
  lemma CodeDecodes(c: Coins)
    requires !c.IsPruned()
    ensures HeaderCode(c) >= 0
    ensures var n := HeaderCode(c);
            && (n % 2 == 1 <==> c.fCoinBase) && (n / 2 % 2 == 1 <==> Available(c.vout, 0)) && (n / 4 % 2 == 1 <==> Available(c.vout, 1))
            && n / 8 + (if Available(c.vout, 0) || Available(c.vout, 1) then 0 else 1) == NonZero(c.vout, MaskRange(c.vout))
  {
    CodeIsNat(c);
  }

  lemma ReadsMask(vout: seq<TxOut>, outs: seq<Token>)
    ensures var n := LastUsed(vout, MaskRange(vout));
            ReadMask(MaskTokens(vout, n) + outs, NonZero(vout, MaskRange(vout))) == Some((Availability(vout, 2, n * 8), outs))
  {
    var n := LastUsed(vout, MaskRange(vout));
    LastUsedMeans(vout, MaskRange(vout));
    ReadMaskBack(vout, 0, n, outs);
    assert MaskTokens(vout, n)[0..] == MaskTokens(vout, n);
  }

  lemma {:induction false} ReadsOuts(c: Coins, t: seq<Token>)
    requires Storable(c)
    ensures var n := LastUsed(c.vout, MaskRange(c.vout));
            && ReadOuts(OutTokens(c.vout) + t, [Available(c.vout, 0), Available(c.vout, 1)] + Availability(c.vout, 2, n * 8)) ==
               Some((PadTo(c.vout, 2 + n * 8), t))
            && Trim(PadTo(c.vout, 2 + n * 8)) == Trim(c.vout)
  {
    NothingBeyond(c.vout);
    hide LastUsed, MaskRange, ReadOuts, OutTokens, Trim, Availability, PadTo;
    var n := LastUsed(c.vout, MaskRange(c.vout));
    assert forall i :: 0 <= i < |c.vout| ==> !c.vout[i].IsNull() || c.vout[i] == NullOut;
    ReadOutsBack(c.vout, 2 + n * 8, t);
    AvailabilitySplit(c.vout, n * 8);
    SamePadded(c.vout, 2 + n * 8);
  }

  lemma NothingBeyond(vout: seq<TxOut>)
    ensures forall i :: 2 + LastUsed(vout, MaskRange(vout)) * 8 <= i < |vout| ==> vout[i].IsNull()
  {
    hide LastUsed, MaskRange;
    forall i | 2 + LastUsed(vout, MaskRange(vout)) * 8 <= i < |vout| ensures vout[i].IsNull() { BeyondMask(vout, i); }
  }

  lemma AvailabilitySplit(vout: seq<TxOut>, m: nat)
    ensures [Available(vout, 0), Available(vout, 1)] + Availability(vout, 2, m) == Availability(vout, 0, 2 + m)
  {}

  lemma {:induction false} SamePadded(vout: seq<TxOut>, n: nat)
    requires forall i :: 0 <= i < |vout| ==> !vout[i].IsNull() || vout[i] == NullOut
    requires forall i :: n <= i < |vout| ==> vout[i].IsNull()
    ensures Trim(PadTo(vout, n)) == Trim(vout)
  {
    SameTrim(PadTo(vout, n), vout);
  }

  // Reading what was written gives the record back, up to spent outputs at its end and the sign of its
  // version, and leaves what follows.
  lemma RoundTrip(c: Coins, rest: seq<Token>)
    requires Storable(c)
    ensures HeaderCode(c) >= 0 && Unserialized(Serialized(c) + rest) == Some((c.(vout := Trim(c.vout), nVersion := StoredVersion(c.nVersion)), rest))
  {
    hide MaskTokens, OutTokens, ReadMask, ReadOuts, LastUsed, NonZero, MaskRange, HeaderCode, MaskBits, Trim, Availability, PadTo;
    CodeDecodes(c);
    var outs := OutTokens(c.vout) + (Tail(c) + rest);
    ReadsMask(c.vout, outs);
    ReadsOuts(c, Tail(c) + rest);
    var mask := MaskTokens(c.vout, LastUsed(c.vout, MaskRange(c.vout)));
    var s := Serialized(c) + rest;
    assert s == [VarInt(StoredVersion(c.nVersion)), VarInt(HeaderCode(c))] + (mask + outs);
    assert s[2..] == mask + outs;
    assert (Tail(c) + rest)[4..] == rest;
  }

  // A record as the node keeps it comes back with its stored version: unchanged exactly when its version is
  // not negative.
  lemma RoundTripTrimmed(c: Coins, rest: seq<Token>)
    requires Storable(c) && Trimmed(c.vout)
    ensures HeaderCode(c) >= 0 && Unserialized(Serialized(c) + rest) == Some((StoredCoins(c), rest))
    ensures Unserialized(Serialized(c) + rest) == Some((c, rest)) <==> c.nVersion >= 0
  {
    RoundTrip(c, rest);
    hide Serialized, Unserialized, HeaderCode;
  }

  // ---------- undo data ----------

  function UndoCode(undo: TxInUndo): nat {
    undo.nHeight * 4 + (if undo.fCoinBase then 1 else 0) + (if undo.fCoinStake then 2 else 0)
  }

  lemma UndoCodeDecodes(undo: TxInUndo)
    ensures var n := UndoCode(undo); n / 4 == undo.nHeight && (n % 2 == 1 <==> undo.fCoinBase) && (n / 2 % 2 == 1 <==> undo.fCoinStake)
  {
    CodeParts(undo.nHeight, if undo.fCoinBase then 1 else 0, if undo.fCoinStake then 1 else 0);
  }

  lemma CodeParts(h: nat, a: nat, b: nat)
    requires a < 2 && b < 2
    ensures var n := h * 4 + a + 2 * b; n / 4 == h && n % 2 == a && n / 2 % 2 == b
  {
    var n := h * 4 + a + 2 * b;
    assert n / 2 == 2 * h + b;
  }

  // The version follows only if there is a height.
  function SerializedUndo(undo: TxInUndo): seq<Token>
    requires undo.txout.nValue >= 0
  {
    [VarInt(UndoCode(undo)), VarInt(undo.nTime), VarInt(undo.cUnit as int)] +
    (if undo.nHeight > 0 then [VarInt(StoredVersion(undo.nVersion))] else []) +
    [VarInt(Compressed(undo.txout.nValue)), ScriptToken(undo.txout.scriptPubKey)]
  }

  method SerializeUndo(undo: TxInUndo) returns (s: seq<Token>)
    requires undo.txout.nValue >= 0
    ensures s == SerializedUndo(undo)
  {
    s := [VarInt(undo.nHeight * 4 + (if undo.fCoinBase then 1 else 0) + (if undo.fCoinStake then 2 else 0))];
    s := s + [VarInt(undo.nTime), VarInt(undo.cUnit as int)];
    if undo.nHeight > 0 { s := s + [VarInt(StoredVersion(undo.nVersion))]; }
    var x := CompressAmount(undo.txout.nValue);
    s := s + [VarInt(x), ScriptToken(undo.txout.scriptPubKey)];
  }

  // Reads into a fresh object, whose version is 0.
  method UnserializeUndo(s: seq<Token>) returns (r: Option<(TxInUndo, seq<Token>)>)
    ensures r == UnserializedUndo(s)
  {
    if |s| < 3 || !s[0].VarInt? || !s[1].VarInt? || !s[2].VarInt? { return None; }
    var undo := PlainUndo(NullOut);
    var nCode := s[0].n;
    undo := undo.(nHeight := nCode / 4, fCoinBase := nCode % 2 == 1, fCoinStake := nCode / 2 % 2 == 1,
                  nTime := s[1].n, cUnit := (s[2].n % 256) as char);
    var t := s[3..];
    if undo.nHeight > 0 {
      if |t| < 1 || !t[0].VarInt? { return None; }
      undo := undo.(nVersion := t[0].n);
      t := t[1..];
    }
    if |t| < 2 || !t[0].VarInt? || !t[1].ScriptToken? { return None; }
    var nValue := DecompressAmount(t[0].n);
    return Some((undo.(txout := TxOut(nValue, t[1].s)), t[2..]));
  }

  function UnserializedUndo(s: seq<Token>): Option<(TxInUndo, seq<Token>)> {
    if |s| < 4 || !s[0].VarInt? || !s[1].VarInt? || !s[2].VarInt? then None
    else
      var nHeight := s[0].n / 4;
      var t := if nHeight > 0 then s[4..] else s[3..];
      if (nHeight > 0 && !s[3].VarInt?) || |t| < 2 || !t[0].VarInt? || !t[1].ScriptToken? then None
      else Some((TxInUndo(TxOut(Decompressed(t[0].n), t[1].s), s[0].n % 2 == 1, nHeight, if nHeight > 0 then s[3].n else 0,
                          s[0].n / 2 % 2 == 1, s[1].n, (s[2].n % 256) as char), t[2..]))
  }

  // Undo data comes back with its stored version, which only the undo data of a last output has.
  lemma UndoRoundTrip(undo: TxInUndo, rest: seq<Token>)
    requires undo.txout.nValue >= 0 && undo.cUnit as int < 256
    ensures UnserializedUndo(SerializedUndo(undo) + rest) == Some((StoredUndo(undo), rest))
  {
    DecompressCompress(undo.txout.nValue);
    UndoCodeDecodes(undo);
    SerializedParts(undo, rest);
    hide Compressed, Decompressed, UndoCode, StoredVersion, SerializedUndo;
  }

  lemma SerializedParts(undo: TxInUndo, rest: seq<Token>)
    requires undo.txout.nValue >= 0
    ensures var s := SerializedUndo(undo) + rest;
            var k := if undo.nHeight > 0 then 4 else 3;
            && |s| == k + 2 + |rest| && s[0] == VarInt(UndoCode(undo)) && s[1] == VarInt(undo.nTime) && s[2] == VarInt(undo.cUnit as int)
            && (undo.nHeight > 0 ==> s[3] == VarInt(StoredVersion(undo.nVersion)))
            && s[k] == VarInt(Compressed(undo.txout.nValue)) && s[k + 1] == ScriptToken(undo.txout.scriptPubKey)
            && s[k..][2..] == rest
  {
    hide Compressed, UndoCode, StoredVersion;
  }
}
