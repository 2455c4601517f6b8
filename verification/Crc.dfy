/** The MPEG-2 CRC-32 that closes every PSI section (ISO/IEC 13818-1, Annex A).
    A `Word` is the 32-bit register, most significant bit first. */
module Crc {
  import opened Bytes

  type Bits = seq<bool>
  type Word = w: Bits | |w| == 32 witness Zeros(32)

  function Zeros(n: nat): (s: Bits)
    ensures |s| == n && forall i :: 0 <= i < n ==> !s[i]
  {
    seq(n, _ => false)
  }

  /** 0x04c1_1db7 */
  const POLYNOMIAL: Word := [
    false, false, false, false, false, true,  false, false,
    true,  true,  false, false, false, false, false, true,
    false, false, false, true,  true,  true,  false, true,
    true,  false, true,  true,  false, true,  true,  true]

  /** 0xffff_ffff */
  const INITIAL: Word := [
    true, true, true, true, true, true, true, true, true, true, true, true, true, true, true, true,
    true, true, true, true, true, true, true, true, true, true, true, true, true, true, true, true]

  const ZERO: Word := Zeros(32)

  function Xor(a: Word, b: Word): (w: Word)
    ensures forall i :: 0 <= i < 32 ==> w[i] == (a[i] != b[i])
  {
    seq(32, i requires 0 <= i < 32 => a[i] != b[i])
  }

  function Pow2(n: nat): nat {
    if n == 0 then 1 else 2 * Pow2(n - 1)
  }

  /** The low `n` bits of a number, most significant first. */
  function BitsOfNat(x: nat, n: nat): (s: Bits)
    ensures |s| == n
  {
    if n == 0 then [] else BitsOfNat(x / 2, n - 1) + [x % 2 == 1]
  }

  function Value(s: Bits): (x: nat)
    ensures x < Pow2(|s|)
  {
    if s == [] then 0
    else 2 * Value(s[..|s| - 1]) + (if s[|s| - 1] then 1 else 0)
  }

  function BitsOfByte(b: Byte): (s: Bits)
    ensures |s| == 8
  {
    BitsOfNat(b, 8)
  }

  function ByteOfBits(s: Bits): (b: Byte)
    requires |s| == 8
  {
    assert Pow2(8) == 256;
    Value(s)
  }

  function BitsOf(bytes: ByteString): (s: Bits)
    ensures |s| == 8 * |bytes|
  {
    if bytes == [] then [] else BitsOfByte(bytes[0]) + BitsOf(bytes[1..])
  }

  /** The four bytes of a word, most significant first. */
  function BigEndian(w: Word): (s: ByteString)
    ensures |s| == 4
  {
    [ByteOfBits(w[0..8]), ByteOfBits(w[8..16]), ByteOfBits(w[16..24]), ByteOfBits(w[24..32])]
  }

  /** Left-aligns at most 32 bits in a word. */
  function Pad(s: Bits): Word
    requires |s| <= 32
  {
    s + Zeros(32 - |s|)
  }

  /** One turn of the register. */
  function Shift(crc: Word): Word {
    if crc[0] then Xor(crc[1..] + [false], POLYNOMIAL) else crc[1..] + [false]
  }

  function Shifts(crc: Word, n: nat): Word
    decreases n
  {
    if n == 0 then crc else Shifts(Shift(crc), n - 1)
  }

  /** Feeds one byte: exclusive-or into the top of the register, then eight turns. */
  function Feed(crc: Word, b: Byte): Word {
    Shifts(Xor(crc, Pad(BitsOfByte(b))), 8)
  }

  function Register(crc: Word, bytes: ByteString): Word
    decreases |bytes|
  {
    if bytes == [] then crc else Register(Feed(crc, bytes[0]), bytes[1..])
  }

  function Crc32(bytes: ByteString): Word {
    Register(INITIAL, bytes)
  }

  method MpegCrc32(bytes: ByteString) returns (crc: Word)
    ensures crc == Crc32(bytes)
  {
    hide Xor, Pad, BitsOfByte, Shift;
    crc := INITIAL;
    for i := 0 to |bytes|
      invariant Register(crc, bytes[i..]) == Crc32(bytes)
    {
      ghost var before := crc;
      crc := Xor(crc, Pad(BitsOfByte(bytes[i])));
      for turn := 0 to 8
        invariant Shifts(crc, 8 - turn) == Feed(before, bytes[i])
      {
        crc := Shift(crc);
      }
      assert bytes[i..][1..] == bytes[i + 1..];
    }
  }

  /** What the muxer appends to a section. */
  function AppendCrc(section: ByteString): (s: ByteString)
    ensures |s| == |section| + 4 && s[..|section|] == section
  {
    section + BigEndian(Crc32(section))
  }

  // ----- algebra of the register -----

  lemma ShiftLinear(a: Word, b: Word)
    ensures Shift(Xor(a, b)) == Xor(Shift(a), Shift(b))
  {
    forall i | 0 <= i < 32
      ensures Shift(Xor(a, b))[i] == Xor(Shift(a), Shift(b))[i]
    {
    }
  }

  lemma ShiftInjective(a: Word, b: Word)
    requires Shift(a) == Shift(b)
    ensures a == b
  {
    assert Shift(a)[31] == a[0] && Shift(b)[31] == b[0];
    forall i | 1 <= i < 32
      ensures a[i] == b[i]
    {
      assert Shift(a)[i - 1] == (if a[0] then a[i] != POLYNOMIAL[i - 1] else a[i]);
      assert Shift(b)[i - 1] == (if b[0] then b[i] != POLYNOMIAL[i - 1] else b[i]);
    }
  }

  lemma {:induction false} ShiftsLinear(a: Word, b: Word, n: nat)
    ensures Shifts(Xor(a, b), n) == Xor(Shifts(a, n), Shifts(b, n))
    decreases n
  {
    if n != 0 {
      ShiftLinear(a, b);
      ShiftsLinear(Shift(a), Shift(b), n - 1);
    }
  }

  lemma {:induction false} ShiftsInjective(a: Word, b: Word, n: nat)
    requires Shifts(a, n) == Shifts(b, n)
    ensures a == b
    decreases n
  {
    if n != 0 {
      ShiftsInjective(Shift(a), Shift(b), n - 1);
      ShiftInjective(a, b);
    }
  }

  lemma {:induction false} ShiftsCompose(a: Word, m: nat, n: nat)
    ensures Shifts(Shifts(a, m), n) == Shifts(a, m + n)
    decreases m
  {
    if m != 0 {
      ShiftsCompose(Shift(a), m - 1, n);
    }
  }

  /** Turning a word whose leading bits are clear only moves it to the left. */
  lemma {:induction false} ShiftsOfLeadingZeros(n: nat, s: Bits)
    requires n + |s| <= 32
    ensures Shifts(Pad(Zeros(n) + s), n) == Pad(s)
    decreases n
  {
    if n == 0 {
      assert Zeros(0) + s == s;
    } else {
      assert Shift(Pad(Zeros(n) + s)) == Pad(Zeros(n - 1) + s);
      ShiftsOfLeadingZeros(n - 1, s);
    }
  }

  lemma MergeWords(crc: Word, head: Bits, rest: Bits)
    requires |head| == 8 && |rest| <= 24
    ensures Xor(Xor(crc, Pad(head)), Pad(Zeros(8) + rest)) == Xor(crc, Pad(head + rest))
  {
    forall i | 0 <= i < 32
      ensures Xor(Xor(crc, Pad(head)), Pad(Zeros(8) + rest))[i] == Xor(crc, Pad(head + rest))[i]
    {
    }
  }

  lemma XorCancel(crc: Word, a: Word, b: Word)
    requires Xor(crc, a) == Xor(crc, b)
    ensures a == b
  {
    forall i | 0 <= i < 32 ensures a[i] == b[i] {
      assert Xor(crc, a)[i] == Xor(crc, b)[i];
    }
  }

  /** Up to four bytes can be merged into the register at once. */
  lemma {:induction false} RegisterOfWord(crc: Word, bytes: ByteString)
    requires |bytes| <= 4
    ensures Register(crc, bytes) == Shifts(Xor(crc, Pad(BitsOf(bytes))), 8 * |bytes|)
    decreases |bytes|
  {
    if bytes == [] {
      assert Xor(crc, Pad([])) == crc;
    } else {
      var head, rest := BitsOfByte(bytes[0]), BitsOf(bytes[1..]);
      var merged := Xor(crc, Pad(head));
      var low := Pad(Zeros(8) + rest);
      RegisterOfWord(Feed(crc, bytes[0]), bytes[1..]);
      ShiftsOfLeadingZeros(8, rest);
      ShiftsLinear(merged, low, 8);
      MergeWords(crc, head, rest);
      ShiftsCompose(Xor(merged, low), 8, 8 * |bytes[1..]|);
    }
  }

  lemma {:induction false} RegisterAppend(crc: Word, a: ByteString, b: ByteString)
    ensures Register(crc, a + b) == Register(Register(crc, a), b)
    decreases |a|
  {
    if a == [] {
      assert a + b == b;
    } else {
      assert (a + b)[1..] == a[1..] + b;
      RegisterAppend(Feed(crc, a[0]), a[1..], b);
    }
  }

  lemma {:induction false} RegisterInjective(a: Word, b: Word, bytes: ByteString)
    requires Register(a, bytes) == Register(b, bytes)
    ensures a == b
    decreases |bytes|
  {
    if bytes != [] {
      RegisterInjective(Feed(a, bytes[0]), Feed(b, bytes[0]), bytes[1..]);
      var top := Pad(BitsOfByte(bytes[0]));
      ShiftsInjective(Xor(a, top), Xor(b, top), 8);
      forall i | 0 <= i < 32 ensures a[i] == b[i] {
        assert Xor(a, top)[i] == Xor(b, top)[i];
      }
    }
  }

  lemma {:induction false} NatRoundTrip(x: nat, n: nat)
    requires x < Pow2(n)
    ensures Value(BitsOfNat(x, n)) == x
  {
    if n != 0 {
      NatRoundTrip(x / 2, n - 1);
      var s := BitsOfNat(x, n);
      assert s[..n - 1] == BitsOfNat(x / 2, n - 1);
    }
  }

  lemma {:induction false} BitsRoundTrip(s: Bits)
    ensures BitsOfNat(Value(s), |s|) == s
  {
    if s != [] {
      var n := |s| - 1;
      BitsRoundTrip(s[..n]);
      assert Value(s) / 2 == Value(s[..n]);
      assert s == s[..n] + [s[n]];
    }
  }

  lemma BigEndianRoundTrip(w: Word)
    ensures BitsOf(BigEndian(w)) == w
  {
    var s := BigEndian(w);
    BitsRoundTrip(w[0..8]);
    BitsRoundTrip(w[8..16]);
    BitsRoundTrip(w[16..24]);
    BitsRoundTrip(w[24..32]);
    assert s[1..][1..] == s[2..] && s[2..][1..] == s[3..] && s[3..][1..] == [];
    assert BitsOf(s[3..]) == w[24..32];
    assert BitsOf(s[2..]) == w[16..32];
    assert BitsOf(s[1..]) == w[8..32];
  }

  lemma {:induction false} BitsOfInjective(a: ByteString, b: ByteString)
    requires |a| == |b| && BitsOf(a) == BitsOf(b)
    ensures a == b
    decreases |a|
  {
    if a != [] {
      assert BitsOfByte(a[0]) == BitsOf(a)[..8] && BitsOfByte(b[0]) == BitsOf(b)[..8];
      assert BitsOf(a[1..]) == BitsOf(a)[8..] && BitsOf(b[1..]) == BitsOf(b)[8..];
      assert Pow2(8) == 256;
      NatRoundTrip(a[0], 8);
      NatRoundTrip(b[0], 8);
      BitsOfInjective(a[1..], b[1..]);
    }
  }

  lemma {:induction false} ShiftsZero(n: nat)
    ensures Shifts(ZERO, n) == ZERO
    decreases n
  {
    if n != 0 {
      assert Shift(ZERO) == ZERO;
      ShiftsZero(n - 1);
    }
  }

  lemma XorZero(a: Word, b: Word)
    ensures Xor(a, b) == ZERO <==> a == b
  {
    if Xor(a, b) == ZERO {
      forall i | 0 <= i < 32 ensures a[i] == b[i] {
        assert !Xor(a, b)[i];
      }
    }
    if a == b {
      assert Xor(a, b) == ZERO;
    }
  }

  // ----- main results -----

  /** Four trailing bytes leave residue zero exactly when they are the CRC of what precedes them. */
  lemma ResidueZero(section: ByteString, tail: ByteString)
    requires |tail| == 4
    ensures Crc32(section + tail) == ZERO <==> section + tail == AppendCrc(section)
  {
    var crc := Crc32(section);
    RegisterAppend(INITIAL, section, tail);
    RegisterOfWord(crc, tail);
    assert Pad(BitsOf(tail)) == BitsOf(tail);
    XorZero(crc, BitsOf(tail));
    ShiftsZero(32);
    BigEndianRoundTrip(crc);
    if Crc32(section + tail) == ZERO {
      ShiftsInjective(Xor(crc, BitsOf(tail)), ZERO, 32);
      BitsOfInjective(tail, BigEndian(crc));
    }
    if section + tail == AppendCrc(section) {
      assert tail == (section + tail)[|section|..] == BigEndian(crc);
    }
  }

  /** Any corruption confined to four consecutive bytes changes the residue. */
  lemma BurstDetected(before: ByteString, good: ByteString, bad: ByteString, after: ByteString)
    requires |good| == |bad| == 4 && good != bad
    ensures Crc32(before + good + after) != Crc32(before + bad + after)
  {
    if Crc32(before + good + after) == Crc32(before + bad + after) {
      var crc := Crc32(before);
      RegisterAppend(INITIAL, before + good, after);
      RegisterAppend(INITIAL, before, good);
      RegisterAppend(INITIAL, before + bad, after);
      RegisterAppend(INITIAL, before, bad);
      RegisterInjective(Register(crc, good), Register(crc, bad), after);
      RegisterOfWord(crc, good);
      RegisterOfWord(crc, bad);
      ShiftsInjective(Xor(crc, Pad(BitsOf(good))), Xor(crc, Pad(BitsOf(bad))), 32);
      XorCancel(crc, Pad(BitsOf(good)), Pad(BitsOf(bad)));
      assert Pad(BitsOf(good))[..32] == BitsOf(good) && Pad(BitsOf(bad))[..32] == BitsOf(bad);
      BitsOfInjective(good, bad);
    }
  }
}
