/** CRC-32 as defined in section 8 of RFC 1952, the table-driven form the write-ahead log uses, and
    the facts the log needs from it: it can be computed piecewise, no single changed byte goes unnoticed,
    and it is the CRC-32 that other programs compute.

    A uint32_t is its 32 bits, least significant first; exclusive or, complement and right shift
    act on the bits.  `Word32` has the bits of a number. */
module Crc {
  import opened KvOps

  function Zeros(n: nat): (r: seq<bool>)
    ensures |r| == n && forall i :: 0 <= i < n ==> !r[i]
  {
    seq(n, i => false)
  }

  type Word = w: seq<bool> | |w| == 32 witness Zeros(32)

  /** The `k` lowest bits of a number. */
  function Bits(n: nat, k: nat): (r: seq<bool>)
    ensures |r| == k
  {
    if k == 0 then [] else [n % 2 == 1] + Bits(n / 2, k - 1)
  }

  function Value(b: seq<bool>): nat {
    if b == [] then 0 else (if b[0] then 1 else 0) + 2 * Value(b[1..])
  }

  lemma {:induction false} ValueOfBits(n: nat, m: nat, k: nat)
    requires Bits(n, k) == Bits(m, k) && n < Power2(k) && m < Power2(k)
    ensures n == m
  {
    if k > 0 {
      assert Bits(n, k)[0] == Bits(m, k)[0];
      assert Bits(n, k)[1..] == Bits(m, k)[1..];
      ValueOfBits(n / 2, m / 2, k - 1);
    }
  }

  function Power2(k: nat): nat {
    if k == 0 then 1 else 2 * Power2(k - 1)
  }

  lemma {:induction false} BitsOfValue(b: seq<bool>)
    ensures Bits(Value(b), |b|) == b && Value(b) < Power2(|b|)
  {
    if b != [] {
      BitsOfValue(b[1..]);
      assert Value(b) / 2 == Value(b[1..]);
      assert b == [b[0]] + b[1..];
    }
  }

  function Xor(a: Word, b: Word): (r: Word)
    ensures forall i :: 0 <= i < 32 ==> r[i] == (a[i] != b[i])
  {
    seq(32, i requires 0 <= i < 32 => a[i] != b[i])
  }

  function Not(a: Word): (r: Word)
    ensures forall i :: 0 <= i < 32 ==> r[i] == !a[i]
  {
    seq(32, i requires 0 <= i < 32 => !a[i])
  }

  function Shr(a: Word, n: nat): (r: Word)
    requires n <= 32
  {
    a[n..] + Zeros(n)
  }

  // ---- Numbers as words ----

  /** The number with only bit `i` set; zero from 32 on. */
  function Mask(i: nat): bv32 {
    if i == 0 then 1 else Mask(i - 1) << 1
  }

  predicate Has(w: bv32, m: bv32) {
    w & m != 0
  }

  function Word32(w: bv32): (r: Word)
    ensures forall i :: 0 <= i < 32 ==> r[i] == Has(w, Mask(i))
  {
    seq(32, i requires 0 <= i < 32 => Has(w, Mask(i)))
  }

  /** Bit i stands for x^(31 - i) of the generator polynomial. */
  function Poly(): Word {
    Word32(0xEDB8_8320)
  }

  // ---- The definition, one message bit at a time ----

  /** The register takes in one message bit. */
  function FeedBit(reg: Word, bit: bool): Word {
    if reg[0] != bit then Xor(Poly(), Shr(reg, 1)) else Shr(reg, 1)
  }

  function FeedBits(reg: Word, bits: seq<bool>): Word
    decreases |bits|
  {
    if bits == [] then reg else FeedBits(FeedBit(reg, bits[0]), bits[1..])
  }

  /** Octet by octet, each least significant bit first. */
  function Register(reg: Word, data: Bytes): Word {
    if data == [] then reg else FeedBits(Register(reg, data[..|data| - 1]), Bits(data[|data| - 1], 8))
  }

  /** The CRC of a message whose CRC so far is `crc`; the register starts, and is read, complemented. */
  function Crc32(crc: Word, data: Bytes): Word {
    Not(Register(Not(crc), data))
  }

  // ---- The form with a table ----

  function ShiftBit(c: Word): Word {
    if c[0] then Xor(Poly(), Shr(c, 1)) else Shr(c, 1)
  }

  function Shift(c: Word, n: nat): Word {
    if n == 0 then c else ShiftBit(Shift(c, n - 1))
  }

  lemma {:induction false} ShiftFirst(c: Word, n: nat)
    requires n > 0
    ensures Shift(c, n) == Shift(ShiftBit(c), n - 1)
  {
    if n > 1 {
      ShiftFirst(c, n - 1);
    }
  }

  /** Up to 32 bits as a word. */
  function Padded(bits: seq<bool>): Word
    requires |bits| <= 32
  {
    bits + Zeros(32 - |bits|)
  }

  lemma FeedIsShift(reg: Word, bits: seq<bool>)
    requires 1 <= |bits| <= 32
    ensures ShiftBit(Xor(reg, Padded(bits))) == Xor(FeedBit(reg, bits[0]), Padded(bits[1..]))
  {
    var c := Xor(reg, Padded(bits));
    assert Shr(c, 1) == Xor(Shr(reg, 1), Padded(bits[1..]));
    assert Xor(Poly(), Shr(c, 1)) == Xor(Xor(Poly(), Shr(reg, 1)), Padded(bits[1..]));
  }

  /** Feeding bits is shifting the register with the bits added to it. */
  lemma {:induction false} FeedBitsIsShift(reg: Word, bits: seq<bool>)
    requires |bits| <= 32
    ensures FeedBits(reg, bits) == Shift(Xor(reg, Padded(bits)), |bits|)
    decreases |bits|
  {
    var c := Xor(reg, Padded(bits));
    if bits == [] {
      assert c == reg;
    } else {
      FeedIsShift(reg, bits);
      ShiftFirst(c, |bits|);
      FeedBitsIsShift(FeedBit(reg, bits[0]), bits[1..]);
    }
  }

  lemma ShiftBitSplit(h: Word, y: Word)
    requires !h[0]
    ensures ShiftBit(Xor(h, y)) == Xor(Shr(h, 1), ShiftBit(y))
  {
    assert Shr(Xor(h, y), 1) == Xor(Shr(h, 1), Shr(y, 1));
    assert Xor(Poly(), Shr(Xor(h, y), 1)) == Xor(Shr(h, 1), Xor(Poly(), Shr(y, 1)));
  }

  /** Bits that do not reach the low end are only moved. */
  lemma {:induction false} ShiftSplit(h: Word, y: Word, n: nat)
    requires n <= 32 && forall i :: 0 <= i < n ==> !h[i]
    ensures Shift(Xor(h, y), n) == Xor(Shr(h, n), Shift(y, n))
    decreases n
  {
    if n == 0 {
      assert Shr(h, 0) == h;
    } else {
      ShiftBitSplit(h, y);
      ShiftFirst(Xor(h, y), n);
      ShiftFirst(y, n);
      ShiftSplit(Shr(h, 1), ShiftBit(y), n - 1);
      assert Shr(Shr(h, 1), n - 1) == Shr(h, n);
    }
  }

  /** `n` shifts are one table lookup on the `n` low bits and one shift by `n`. */
  lemma TableStep(x: Word, n: nat)
    requires n <= 32
    ensures Shift(x, n) == Xor(Shift(Padded(x[..n]), n), Shr(x, n))
  {
    var h := Zeros(n) + x[n..];
    assert x == Xor(h, Padded(x[..n]));
    ShiftSplit(h, Padded(x[..n]), n);
    assert Shr(h, n) == Shr(x, n);
    XorSymmetric(Shr(x, n), Shift(Padded(x[..n]), n));
  }

  lemma XorSymmetric(a: Word, b: Word)
    ensures Xor(a, b) == Xor(b, a)
  {
    assert Xor(a, b) == Xor(b, a);
  }

  /** One step of the table-driven loop is the message bits of one octet in the definition. */
  lemma TableDriven(reg: Word, bits: seq<bool>)
    requires |bits| <= 32
    ensures var low := Xor(reg, Padded(bits))[..|bits|];
            FeedBits(reg, bits) == Xor(Shift(Padded(low), |bits|), Shr(reg, |bits|))
  {
    FeedBitsIsShift(reg, bits);
    var x := Xor(reg, Padded(bits));
    TableStep(x, |bits|);
    assert Shr(x, |bits|) == Shr(reg, |bits|);
  }

  function TableEntry(i: byte): Word {
    Shift(Padded(Bits(i, 8)), 8)
  }

  ghost predicate IsTable(table: array<Word>)
    reads table
  {
    table.Length == 256 && forall i: byte :: table[i] == TableEntry(i)
  }

  method MakeTable() returns (table: array<Word>)
    ensures IsTable(table) && fresh(table)
  {
    table := new Word[256];
    for i := 0 to 256
      invariant forall j: byte :: j < i ==> table[j] == TableEntry(j)
    {
      var c := Padded(Bits(i, 8));
      for k := 0 to 8
        invariant c == Shift(Padded(Bits(i, 8)), k)
      {
        c := if c[0] then Xor(Poly(), Shr(c, 1)) else Shr(c, 1);
      }
      table[i] := c;
    }
  }

  lemma OctetRange()
    ensures Power2(8) == 256
  {
    assert Power2(4) == 16;
  }

  lemma RegisterSnoc(reg: Word, data: Bytes, i: nat)
    requires i < |data|
    ensures Register(reg, data[..i + 1]) == FeedBits(Register(reg, data[..i]), Bits(data[i], 8))
  {
    assert data[..i + 1][..i] == data[..i];
  }

  /** The low octet of a word as a table index. */
  function LowOctet(w: Word): (b: byte)
    ensures Bits(b, 8) == w[..8]
  {
    BitsOfValue(w[..8]);
    OctetRange();
    Value(w[..8])
  }

  lemma LookupStep(table: array<Word>, reg: Word, b: byte)
    requires IsTable(table)
    ensures FeedBits(reg, Bits(b, 8)) == Xor(table[LowOctet(Xor(reg, Padded(Bits(b, 8))))], Shr(reg, 8))
  {
    TableDriven(reg, Bits(b, 8));
  }

  /** crc32_update: the loop over a table computes the CRC of the definition. */
  method Update(table: array<Word>, crc: Word, data: Bytes) returns (r: Word)
    requires IsTable(table)
    ensures r == Crc32(crc, data)
  {
    r := Not(crc);
    for i := 0 to |data|
      invariant r == Register(Not(crc), data[..i])
    {
      LookupStep(table, r, data[i]);
      RegisterSnoc(Not(crc), data, i);
      r := Xor(table[LowOctet(Xor(r, Padded(Bits(data[i], 8))))], Shr(r, 8));
    }
    assert data[..|data|] == data;
    r := Not(r);
  }

  // ---- Piecewise computation ----

  lemma {:induction false} RegisterConcat(reg: Word, a: Bytes, b: Bytes)
    ensures Register(reg, a + b) == Register(Register(reg, a), b)
    decreases |b|
  {
    if b == [] {
      assert a + b == a;
    } else {
      RegisterConcat(reg, a, b[..|b| - 1]);
      assert (a + b)[..|a + b| - 1] == a + b[..|b| - 1];
    }
  }

  /** Updating over pieces is one pass over their concatenation. */
  lemma Piecewise(crc: Word, a: Bytes, b: Bytes)
    ensures Crc32(Crc32(crc, a), b) == Crc32(crc, a + b)
  {
    RegisterConcat(Not(crc), a, b);
    assert Not(Not(Register(Not(crc), a))) == Register(Not(crc), a);
  }

  // ---- Damage is detected ----

  lemma PolyTopBit()
    ensures Poly()[31]
  {
    LastMask();
  }

  lemma ShiftBitInjective(x: Word, y: Word)
    requires ShiftBit(x) == ShiftBit(y)
    ensures x == y
  {
    PolyTopBit();
    assert ShiftBit(x)[31] == x[0] && ShiftBit(y)[31] == y[0];
    forall i | 0 <= i < 32 ensures x[i] == y[i] {
      if i > 0 {
        assert Shr(x, 1)[i - 1] == x[i] && Shr(y, 1)[i - 1] == y[i];
        assert ShiftBit(x)[i - 1] == ShiftBit(y)[i - 1];
      }
    }
  }

  lemma {:induction false} ShiftInjective(x: Word, y: Word, n: nat)
    requires Shift(x, n) == Shift(y, n)
    ensures x == y
  {
    if n > 0 {
      ShiftBitInjective(Shift(x, n - 1), Shift(y, n - 1));
      ShiftInjective(x, y, n - 1);
    }
  }

  lemma XorCancels(a: Word, b: Word, c: Word)
    requires Xor(a, c) == Xor(b, c)
    ensures a == b
  {
    forall i | 0 <= i < 32 ensures a[i] == b[i] {
      assert Xor(a, c)[i] == Xor(b, c)[i];
    }
  }

  /** The step is injective in the register and in the octet. */
  lemma StepInjective(r: Word, s: Word, a: seq<bool>, b: seq<bool>)
    requires |a| == |b| <= 32 && FeedBits(r, a) == FeedBits(s, b) && (r == s || a == b)
    ensures r == s && a == b
  {
    FeedBitsIsShift(r, a);
    FeedBitsIsShift(s, b);
    ShiftInjective(Xor(r, Padded(a)), Xor(s, Padded(b)), |a|);
    if r == s {
      XorSymmetric(r, Padded(a));
      XorSymmetric(r, Padded(b));
      XorCancels(Padded(a), Padded(b), r);
      assert a == Padded(a)[..|a|] && b == Padded(b)[..|b|];
    } else {
      XorCancels(r, s, Padded(a));
    }
  }

  lemma {:induction false} RegisterInjective(r: Word, s: Word, data: Bytes)
    requires r != s
    ensures Register(r, data) != Register(s, data)
  {
    if data != [] {
      var n := |data| - 1;
      RegisterInjective(r, s, data[..n]);
      if Register(r, data) == Register(s, data) {
        StepInjective(Register(r, data[..n]), Register(s, data[..n]), Bits(data[n], 8), Bits(data[n], 8));
      }
    }
  }

  lemma OctetInjective(a: byte, b: byte)
    requires Bits(a, 8) == Bits(b, 8)
    ensures a == b
  {
    OctetRange();
    ValueOfBits(a, b, 8);
  }

  /** Changing one octet of a message always changes its CRC. */
  lemma OneByteDetected(crc: Word, data: Bytes, i: nat, b: byte)
    requires i < |data| && b != data[i]
    ensures Crc32(crc, data[i := b]) != Crc32(crc, data)
  {
    var reg, damaged := Not(crc), data[i := b];
    var tail := data[i + 1..];
    assert data == data[..i + 1] + tail && damaged == damaged[..i + 1] + tail;
    RegisterConcat(reg, data[..i + 1], tail);
    RegisterConcat(reg, damaged[..i + 1], tail);
    RegisterSnoc(reg, data, i);
    RegisterSnoc(reg, damaged, i);
    assert damaged[..i] == data[..i];
    var r := Register(reg, data[..i]);
    if FeedBits(r, Bits(data[i], 8)) == FeedBits(r, Bits(b, 8)) {
      StepInjective(r, r, Bits(data[i], 8), Bits(b, 8));
      OctetInjective(data[i], b);
    }
    RegisterInjective(FeedBits(r, Bits(data[i], 8)), FeedBits(r, Bits(b, 8)), tail);
    NotInjective(Register(reg, data), Register(reg, damaged));
  }

  lemma NotInjective(a: Word, b: Word)
    ensures Not(a) == Not(b) ==> a == b
  {
    if Not(a) == Not(b) {
      assert Not(Not(a)) == a && Not(Not(b)) == b;
    }
  }

  // ---- On numbers ----

  lemma LastMask()
    ensures Mask(31) == 0x8000_0000 && Mask(32) == 0
  {
    assert Mask(8) == 0x100;
    assert Mask(16) == 0x1_0000;
    assert Mask(24) == 0x100_0000;
  }

  lemma OneBitDoubled(m: bv32)
    requires m & (m - 1) == 0
    ensures (m << 1) & ((m << 1) - 1) == 0
  {
  }

  lemma {:induction false} MaskIsOneBit(i: nat)
    ensures Mask(i) & (Mask(i) - 1) == 0
  {
    if i > 0 {
      MaskIsOneBit(i - 1);
      OneBitDoubled(Mask(i - 1));
    }
  }

  lemma {:induction false} MaskNotZero(i: nat)
    requires i < 32
    ensures Mask(i) != 0
    decreases 31 - i
  {
    if i == 31 {
      LastMask();
    } else {
      MaskNotZero(i + 1);
    }
  }

  lemma XorMask(a: bv32, b: bv32, m: bv32)
    requires m & (m - 1) == 0
    ensures Has(a ^ b, m) == (Has(a, m) != Has(b, m))
  {
  }

  lemma NotMask(a: bv32, m: bv32)
    requires m & (m - 1) == 0 && m != 0
    ensures Has(!a, m) == !Has(a, m)
  {
  }

  lemma ShrMask(a: bv32, m: bv32)
    ensures Has(a >> 1, m) == Has(a, m << 1)
  {
  }

  lemma XorNumber(a: bv32, b: bv32)
    ensures Xor(Word32(a), Word32(b)) == Word32(a ^ b)
  {
    hide Has, Mask;
    forall i | 0 <= i < 32 ensures Word32(a ^ b)[i] == (Word32(a)[i] != Word32(b)[i]) {
      MaskIsOneBit(i);
      XorMask(a, b, Mask(i));
    }
  }

  lemma NotNumber(a: bv32)
    ensures Not(Word32(a)) == Word32(!a)
  {
    hide Has, Mask;
    forall i | 0 <= i < 32 ensures Word32(!a)[i] == !Word32(a)[i] {
      MaskIsOneBit(i);
      MaskNotZero(i);
      NotMask(a, Mask(i));
    }
  }

  lemma ShrNumber(a: bv32)
    ensures Shr(Word32(a), 1) == Word32(a >> 1)
  {
    hide Has, Mask;
    LastMask();
    NoBit(a);
    forall i | 0 <= i < 32 ensures Word32(a >> 1)[i] == Shr(Word32(a), 1)[i] {
      ShrAt(a, i);
    }
  }

  lemma ShrAt(a: bv32, i: nat)
    ensures Has(a >> 1, Mask(i)) == Has(a, Mask(i + 1))
  {
    hide Has;
    ShrMask(a, Mask(i));
  }

  lemma NoBit(a: bv32)
    ensures !Has(a, 0)
  {
  }

  /** One message bit, on numbers: shift, and subtract the polynomial if a one fell out. */
  function Feed32(reg: bv32, bit: bool): bv32 {
    if (reg & 1 != 0) != bit then 0xEDB8_8320 ^ (reg >> 1) else reg >> 1
  }

  /** The `k` low bits of an octet. */
  function Octet32(reg: bv32, b: nat, k: nat): bv32
    decreases k
  {
    if k == 0 then reg else Octet32(Feed32(reg, b % 2 == 1), b / 2, k - 1)
  }

  function Register32(reg: bv32, data: Bytes): bv32 {
    if data == [] then reg else Octet32(Register32(reg, data[..|data| - 1]), data[|data| - 1], 8)
  }

  lemma FeedNumber(reg: bv32, bit: bool)
    ensures FeedBit(Word32(reg), bit) == Word32(Feed32(reg, bit))
  {
    hide Xor, Shr, Mask;
    ShrNumber(reg);
    XorNumber(0xEDB8_8320, reg >> 1);
    FirstMask();
  }

  lemma FirstMask()
    ensures Mask(0) == 1
  {
  }

  lemma {:induction false} OctetNumber(reg: bv32, b: nat, k: nat)
    ensures FeedBits(Word32(reg), Bits(b, k)) == Word32(Octet32(reg, b, k))
    decreases k
  {
    hide FeedBit, Feed32, Word32;
    if k > 0 {
      FeedNumber(reg, b % 2 == 1);
      assert Bits(b, k)[1..] == Bits(b / 2, k - 1);
      OctetNumber(Feed32(reg, b % 2 == 1), b / 2, k - 1);
    }
  }

  lemma {:induction false} RegisterNumber(reg: bv32, data: Bytes)
    ensures Register(Word32(reg), data) == Word32(Register32(reg, data))
  {
    hide FeedBits, Octet32, Word32, Bits;
    if data != [] {
      var n := |data| - 1;
      RegisterNumber(reg, data[..n]);
      OctetNumber(Register32(reg, data[..n]), data[n], 8);
    }
  }

  /** The CRC is the one computed with 32-bit numbers. */
  lemma CrcNumber(crc: bv32, data: Bytes)
    ensures Crc32(Word32(crc), data) == Word32(!Register32(!crc, data))
  {
    hide Register, Register32, Word32;
    NotNumber(crc);
    RegisterNumber(!crc, data);
    NotNumber(Register32(!crc, data));
  }

  lemma Register32At(reg: bv32, data: Bytes, i: nat)
    requires i < |data|
    ensures Register32(reg, data[..i + 1]) == Octet32(Register32(reg, data[..i]), data[i], 8)
  {
    hide Octet32;
    assert data[..i + 1][..i] == data[..i];
  }

  /** The published check value: the CRC of the nine octets "123456789" is 0xCBF43926. */
  lemma CheckValue()
    ensures Crc32(Zeros(32), [0x31, 0x32, 0x33, 0x34, 0x35, 0x36, 0x37, 0x38, 0x39]) == Word32(0xCBF4_3926)
  {
    hide Octet32, Register32, Crc32, Word32;
    ZeroNumber();
    CrcNumber(0, [0x31, 0x32, 0x33, 0x34, 0x35, 0x36, 0x37, 0x38, 0x39]);
    CheckRegister();
  }

  lemma ZeroNumber()
    ensures Word32(0) == Zeros(32)
  {
  }

  lemma CheckRegister()
    ensures Register32(0xFFFF_FFFF, [0x31, 0x32, 0x33, 0x34, 0x35, 0x36, 0x37, 0x38, 0x39]) == 0x340B_C6D9
  {
    hide Octet32, Register32;
    var data: Bytes := [0x31, 0x32, 0x33, 0x34, 0x35, 0x36, 0x37, 0x38, 0x39];
    Digits1();
    Digits2();
    Digits3();
    NoOctets(0xFFFF_FFFF);
    assert data[..0] == [] && data[..9] == data;
    Register32At(0xFFFF_FFFF, data, 0);
    Register32At(0xFFFF_FFFF, data, 1);
    Register32At(0xFFFF_FFFF, data, 2);
    Register32At(0xFFFF_FFFF, data, 3);
    Register32At(0xFFFF_FFFF, data, 4);
    Register32At(0xFFFF_FFFF, data, 5);
    Register32At(0xFFFF_FFFF, data, 6);
    Register32At(0xFFFF_FFFF, data, 7);
    Register32At(0xFFFF_FFFF, data, 8);
  }

  lemma NoOctets(reg: bv32)
    ensures Register32(reg, []) == reg
  {
  }

  /** Eight message bits. */
  function Eight32(reg: bv32, a: bool, b: bool, c: bool, d: bool, e: bool, f: bool, g: bool, h: bool): bv32 {
    Feed32(Feed32(Feed32(Feed32(Feed32(Feed32(Feed32(Feed32(reg, a), b), c), d), e), f), g), h)
  }

  lemma OctetIs(reg: bv32, b: nat)
    ensures Octet32(reg, b, 8) ==
            Eight32(reg, b % 2 == 1, b / 2 % 2 == 1, b / 2 / 2 % 2 == 1, b / 2 / 2 / 2 % 2 == 1,
                    b / 2 / 2 / 2 / 2 % 2 == 1, b / 2 / 2 / 2 / 2 / 2 % 2 == 1, b / 2 / 2 / 2 / 2 / 2 / 2 % 2 == 1,
                    b / 2 / 2 / 2 / 2 / 2 / 2 / 2 % 2 == 1)
  {
    hide Feed32;
  }

  /** The octet of a decimal digit, whose four low bits are given. */
  lemma DigitIs(reg: bv32, d: nat, p: bool, q: bool, r: bool, s: bool)
    requires d < 16 && p == (d % 2 == 1) && q == (d / 2 % 2 == 1) && r == (d / 4 % 2 == 1) && s == (d / 8 == 1)
    ensures Octet32(reg, 0x30 + d, 8) == Eight32(reg, p, q, r, s, true, true, false, false)
  {
    hide Octet32, Eight32;
    OctetIs(reg, 0x30 + d);
  }

  lemma Digits1()
    ensures Octet32(0xFFFF_FFFF, 0x31, 8) == 0x7C23_1048
    ensures Octet32(0x7C23_1048, 0x32, 8) == 0xB0AC_BB32
    ensures Octet32(0xB0AC_BB32, 0x33, 8) == 0x77B7_9C2D
  {
    hide Octet32;
    DigitIs(0xFFFF_FFFF, 1, true, false, false, false);
    DigitIs(0x7C23_1048, 2, false, true, false, false);
    DigitIs(0xB0AC_BB32, 3, true, true, false, false);
  }

  lemma Digits2()
    ensures Octet32(0x77B7_9C2D, 0x34, 8) == 0x641C_1F5C
    ensures Octet32(0x641C_1F5C, 0x35, 8) == 0x340A_C5E3
    ensures Octet32(0x340A_C5E3, 0x36, 8) == 0xF68D_2C9E
  {
    hide Octet32;
    DigitIs(0x77B7_9C2D, 4, false, false, true, false);
    DigitIs(0x641C_1F5C, 5, true, false, true, false);
    DigitIs(0x340A_C5E3, 6, false, true, true, false);
  }

  lemma Digits3()
    ensures Octet32(0xF68D_2C9E, 0x37, 8) == 0xAFFC_9660
    ensures Octet32(0xAFFC_9660, 0x38, 8) == 0x651F_2550
    ensures Octet32(0x651F_2550, 0x39, 8) == 0x340B_C6D9
  {
    hide Octet32;
    DigitIs(0xF68D_2C9E, 7, true, true, true, false);
    DigitIs(0xAFFC_9660, 8, false, false, false, true);
    DigitIs(0x651F_2550, 9, true, false, false, true);
  }

  // ---- The stored form ----

  /** A CRC as four octets, least significant first. */
  function Stored(crc: Word): (b: Bytes)
    ensures |b| == 4
  {
    [LowOctet(crc), LowOctet(Shr(crc, 8)), LowOctet(Shr(crc, 16)), LowOctet(Shr(crc, 24))]
  }

  /** Different CRCs are stored as different octets, so comparing what is stored compares CRCs. */
  lemma StoredInjective(x: Word, y: Word)
    requires Stored(x) == Stored(y)
    ensures x == y
  {
    hide Stored, Bits;
    StoredBits(x);
    StoredBits(y);
  }

  /** The bits of the stored octets, one octet after the other, are those of the CRC. */
  lemma StoredBits(crc: Word)
    ensures var s := Stored(crc); Bits(s[0], 8) + Bits(s[1], 8) + Bits(s[2], 8) + Bits(s[3], 8) == crc
  {
    hide Bits, LowOctet;
    assert Shr(crc, 8)[..8] == crc[8..16];
    assert Shr(crc, 16)[..8] == crc[16..24];
    assert Shr(crc, 24)[..8] == crc[24..];
  }
}
