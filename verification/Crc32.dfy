/**
 The CRC-32 of the icon generator's PNG chunks (scripts/generate-icon-pack.ts).

 The generator computes the checksum one byte at a time through a 256-entry table that it
 fills once and keeps. RFC 2083 defines the same checksum one bit at a time. This module
 proves the two equal, and proves the property a CRC is chosen for: no error burst of up to
 32 bits, at any bit offset of a message of any length, leaves the checksum unchanged.
 */
module Crc32 {
  import opened Bytes
  import opened Registers

  const POLYNOMIAL: bv32 := 0xedb8_8320
  const ALL_ONES: bv32 := 0xffff_ffff

  // ---------------------------------------------------------------- the register

  // The word operations carry names so that proofs can rewrite with the identities below
  // instead of reasoning about 32 separate bits.

  function Xor(a: bv32, b: bv32): bv32 {
    a ^ b
  }

  function Bit(b: bool): bv32 {
    if b then 1 else 0
  }

  function Twice(w: bv32): bv32 {
    w << 1
  }

  function Join(b: bool, w: bv32): bv32 {
    Bit(b) | (w << 1)
  }

  /** One step of the shift register: drop the low bit, feeding it back through the polynomial. */
  function Shift(c: bv32): bv32 {
    if (c & 1) == 1 then POLYNOMIAL ^ (c >> 1) else c >> 1
  }

  /** Sections 3.4 and 15 of RFC 2083: a data bit enters at the low end, then the register shifts. */
  function TakeBit(c: bv32, b: bool): bv32 {
    Shift(Xor(c, Bit(b)))
  }

  /** The k lowest binary digits of a number, least significant first. */
  function BinaryDigits(n: nat, k: nat): (bits: Bits)
    ensures |bits| == k
    decreases k
  {
    if k == 0 then [] else [n % 2 == 1] + BinaryDigits(n / 2, k - 1)
  }

  /** The bits of a byte, least significant first. */
  function BitsOf(b: Byte): (bits: Bits)
    ensures |bits| == 8
  {
    BinaryDigits(b, 8)
  }

  function MessageBits(message: Bytes): (bits: Bits)
    ensures |bits| == 8 * |message|
  {
    if message == [] then [] else BitsOf(message[0]) + MessageBits(message[1..])
  }

  /** The checksum RFC 2083 defines: register preset to ones, bits shifted in, complemented. */
  function BitSerialCrc(message: Bytes): bv32 {
    Xor(Absorb(TakeBit, ALL_ONES, MessageBits(message)), ALL_ONES)
  }

  // ---------------------------------------------------------------- algebra of one step

  function Unshift(c: bv32): bv32 {
    if (c & 0x8000_0000) != 0 then ((c ^ POLYNOMIAL) << 1) | 1 else c << 1
  }

  /** A shift loses nothing: the polynomial's top bit records which bit fell off. */
  lemma ShiftInvertible(c: bv32)
    ensures Unshift(Shift(c)) == c
  {
  }

  lemma XorCancels(x: bv32, a: bv32, b: bv32)
    ensures Xor(x, a) == Xor(x, b) ==> a == b
    ensures Xor(a, x) == Xor(b, x) ==> a == b
  {
  }

  lemma ShiftLinear(a: bv32, b: bv32)
    ensures Shift(Xor(a, b)) == Xor(Shift(a), Shift(b))
  {
    ShiftOfXor(a, b, Xor(a, b));
  }

  lemma ShiftOfXor(a: bv32, b: bv32, c: bv32)
    requires c == a ^ b
    ensures Shift(c) == Shift(a) ^ Shift(b)
  {
    if (a & 1) == 1 {
      if (b & 1) == 1 { assert c & 1 == 0; } else { assert c & 1 == 1; }
    } else {
      if (b & 1) == 1 { assert c & 1 == 1; } else { assert c & 1 == 0; }
    }
  }

  lemma ShiftInjective()
    ensures forall a, b :: Shift(a) == Shift(b) ==> a == b
  {
    forall a, b | Shift(a) == Shift(b)
      ensures a == b
    {
      ShiftInvertible(a);
      ShiftInvertible(b);
    }
  }

  lemma TakeBitInjective()
    ensures forall a, b, bit :: TakeBit(a, bit) == TakeBit(b, bit) ==> a == b
  {
    forall a, b, bit | TakeBit(a, bit) == TakeBit(b, bit)
      ensures a == b
    {
      ShiftInvertible(Xor(a, Bit(bit)));
      ShiftInvertible(Xor(b, Bit(bit)));
      XorCancels(Bit(bit), a, b);
    }
  }

  lemma ShiftsLinear(n: nat, a: bv32, b: bv32)
    ensures Iterate(Shift, n, Xor(a, b)) == Xor(Iterate(Shift, n, a), Iterate(Shift, n, b))
  {
    forall x, y
      ensures Shift(Xor(x, y)) == Xor(Shift(x), Shift(y))
    {
      ShiftLinear(x, y);
    }
    IterateHomomorphic(Shift, Xor, n, a, b);
  }

  // ---------------------------------------------------------------- words of up to 32 bits

  /** Bits gathered into a word, first bit lowest. */
  function Pack(bits: Bits): bv32 {
    if bits == [] then 0 else Join(bits[0], Pack(bits[1..]))
  }

  /** The lowest n bits set. */
  function Mask(n: nat): bv32 {
    if n == 0 then 0 else Join(true, Mask(n - 1))
  }

  predicate Within(w: bv32, mask: bv32) {
    w & mask == w
  }

  lemma JoinWithin(b: bool, w: bv32, mask: bv32)
    requires Within(w, mask)
    ensures Within(Join(b, w), Join(true, mask))
  {
    if b {
      DoubledWithin(w, mask, 1);
    } else {
      DoubledWithin(w, mask, 0);
    }
  }

  lemma DoubledWithin(w: bv32, mask: bv32, low: bv32)
    requires w & mask == w
    requires low == 0 || low == 1
    ensures (low | (w << 1)) & (1 | (mask << 1)) == low | (w << 1)
  {
  }

  lemma {:induction false} MaskGrows(n: nat, m: nat)
    requires n <= m
    ensures Within(Mask(n), Mask(m))
  {
    if n > 0 {
      MaskGrows(n - 1, m - 1);
      JoinWithin(true, Mask(n - 1), Mask(m - 1));
    }
  }

  lemma {:induction false} PackWithinMask(bits: Bits)
    ensures Within(Pack(bits), Mask(|bits|))
  {
    if bits != [] {
      PackWithinMask(bits[1..]);
      JoinWithin(bits[0], Pack(bits[1..]), Mask(|bits| - 1));
    }
  }

  lemma MaskOf31()
    ensures Mask(31) == 0x7fff_ffff
  {
    assert Mask(8) == 0xff;
    assert Mask(16) == 0xffff;
    assert Mask(24) == 0xff_ffff;
  }

  predicate TopClear(w: bv32) {
    w & 0x8000_0000 == 0
  }

  lemma WithinTopClear(w: bv32, mask: bv32)
    requires Within(w, mask) && Within(mask, 0x7fff_ffff)
    ensures TopClear(w)
  {
  }

  lemma PackTopClear(bits: Bits)
    requires |bits| <= 31
    ensures TopClear(Pack(bits))
  {
    PackWithinMask(bits);
    MaskGrows(|bits|, 31);
    MaskOf31();
    WithinTopClear(Pack(bits), Mask(|bits|));
  }

  lemma JoinInjective(b: bool, w: bv32, b': bool, w': bv32)
    requires TopClear(w) && TopClear(w')
    requires Join(b, w) == Join(b', w')
    ensures b == b' && w == w'
  {
    JoinParts(b, w);
    JoinParts(b', w');
  }

  lemma JoinParts(b: bool, w: bv32)
    requires TopClear(w)
    ensures Join(b, w) & 1 == Bit(b) && Join(b, w) >> 1 == w
  {
  }

  lemma {:induction false} PackInjective(u: Bits, v: Bits)
    requires |u| == |v| <= 32 && Pack(u) == Pack(v)
    ensures u == v
    decreases |u|
  {
    if u != [] {
      PackTopClear(u[1..]);
      PackTopClear(v[1..]);
      JoinInjective(u[0], Pack(u[1..]), v[0], Pack(v[1..]));
      PackInjective(u[1..], v[1..]);
      assert u == [u[0]] + u[1..] && v == [v[0]] + v[1..];
    }
  }

  lemma JoinIsXor(c: bv32, b: bool, w: bv32)
    ensures Xor(c, Join(b, w)) == Xor(Xor(c, Bit(b)), Twice(w))
  {
    if b {
      assert c ^ (1 | (w << 1)) == (c ^ 1) ^ (w << 1);
    } else {
      assert c ^ (0 | (w << 1)) == (c ^ 0) ^ (w << 1);
    }
  }

  lemma ShiftOfTwice(w: bv32)
    requires TopClear(w)
    ensures Shift(Twice(w)) == w
  {
  }

  lemma ShiftCarriesWord(c: bv32, b: bool, w: bv32)
    requires TopClear(w)
    ensures Shift(Xor(c, Join(b, w))) == Xor(TakeBit(c, b), w)
  {
    calc {
      Shift(Xor(c, Join(b, w)));
      { JoinIsXor(c, b, w); }
      Shift(Xor(Xor(c, Bit(b)), Twice(w)));
      { ShiftLinear(Xor(c, Bit(b)), Twice(w)); }
      Xor(TakeBit(c, b), Shift(Twice(w)));
      { ShiftOfTwice(w); }
      Xor(TakeBit(c, b), w);
    }
  }

  /** Up to 32 bits taken in one at a time are one xored word followed by as many shifts. */
  lemma FeedIsXorThenShift(c: bv32, bits: Bits)
    requires |bits| <= 32
    ensures Absorb(TakeBit, c, bits) == Iterate(Shift, |bits|, Xor(c, Pack(bits)))
  {
    forall a
      ensures Xor(a, Pack([])) == a
    {
    }
    forall a, s: Bits | 0 < |s| <= 32
      ensures Shift(Xor(a, Pack(s))) == Xor(TakeBit(a, s[0]), Pack(s[1..]))
    {
      PackTopClear(s[1..]);
      ShiftCarriesWord(a, s[0], Pack(s[1..]));
    }
    AbsorbIsIterate(TakeBit, Shift, Xor, Pack, 32, c, bits);
  }

  // ---------------------------------------------------------------- the table

  /** A byte as an operand of the word operations. */
  function ByteWord(b: Byte): bv32 {
    Pack(BitsOf(b))
  }

  function Low(x: bv32): bv32 {
    x & 0xff
  }

  function High(x: bv32): bv32 {
    x & 0xffff_ff00
  }

  /** What the generator's table holds at index i. */
  function TableEntry(i: bv32): bv32 {
    Iterate(Shift, 8, i)
  }

  lemma ShiftOfEven(x: bv32)
    requires x & 1 == 0
    ensures Shift(x) == x >> 1
  {
  }

  /** A word whose low bits are clear is merely moved down by shifts. */
  lemma ShiftsOfHigh(c: bv32)
    ensures Iterate(Shift, 8, High(c)) == c >> 8
  {
    var x0 := High(c);
    var x1, x2, x3, x4, x5, x6, x7 := x0 >> 1, x0 >> 2, x0 >> 3, x0 >> 4, x0 >> 5, x0 >> 6, x0 >> 7;
    HighHalves(c);
    ShiftOfEven(x0);
    ShiftOfEven(x1);
    ShiftOfEven(x2);
    ShiftOfEven(x3);
    ShiftOfEven(x4);
    ShiftOfEven(x5);
    ShiftOfEven(x6);
    ShiftOfEven(x7);
    IterateAlong(Shift, [x0, x1, x2, x3, x4, x5, x6, x7, c >> 8]);
  }

  lemma HighHalves(c: bv32)
    ensures var x := High(c);
            && x & 1 == 0 && (x >> 1) & 1 == 0 && (x >> 2) & 1 == 0 && (x >> 3) & 1 == 0
            && (x >> 4) & 1 == 0 && (x >> 5) & 1 == 0 && (x >> 6) & 1 == 0 && (x >> 7) & 1 == 0
            && (x >> 1) >> 1 == x >> 2 && (x >> 2) >> 1 == x >> 3 && (x >> 3) >> 1 == x >> 4
            && (x >> 4) >> 1 == x >> 5 && (x >> 5) >> 1 == x >> 6 && (x >> 6) >> 1 == x >> 7
            && (x >> 7) >> 1 == c >> 8
  {
  }

  lemma ByteWordIsLow(b: Byte)
    ensures Within(ByteWord(b), 0xff)
  {
    PackWithinMask(BitsOf(b));
    assert Mask(8) == 0xff;
  }

  lemma HighAndLow(x: bv32)
    ensures Xor(High(x), Low(x)) == x
  {
  }

  lemma LowShiftedOut(c: bv32, w: bv32)
    requires Within(w, 0xff)
    ensures Xor(c, w) >> 8 == c >> 8
  {
    assert w >> 8 == 0;
  }

  lemma ByteSplit(c: bv32, w: bv32)
    requires Within(w, 0xff)
    ensures Xor(High(Xor(c, w)), Low(Xor(c, w))) == Xor(c, w)
    ensures Xor(c, w) >> 8 == c >> 8
  {
    HighAndLow(Xor(c, w));
    LowShiftedOut(c, w);
  }

  /** One table look-up does the work of eight bit steps. */
  lemma TableStep(c: bv32, b: Byte)
    ensures Absorb(TakeBit, c, BitsOf(b)) == Xor(c >> 8, TableEntry(Low(Xor(c, ByteWord(b)))))
  {
    var w := ByteWord(b);
    var x := Xor(c, w);
    FeedIsXorThenShift(c, BitsOf(b));
    ByteWordIsLow(b);
    ByteSplit(c, w);
    ShiftsLinear(8, High(x), Low(x));
    ShiftsOfHigh(x);
  }

  // ---------------------------------------------------------------- the generator's loop

  /** The register after the first n bytes of a message. */
  function Register(message: Bytes, n: nat): bv32
    requires n <= |message|
  {
    Absorb(TakeBit, ALL_ONES, MessageBits(message[..n]))
  }

  lemma {:induction false} MessageBitsConcat(u: Bytes, v: Bytes)
    ensures MessageBits(u + v) == MessageBits(u) + MessageBits(v)
  {
    if u == [] {
      assert u + v == v;
    } else {
      assert (u + v)[1..] == u[1..] + v;
      MessageBitsConcat(u[1..], v);
    }
  }

  lemma RegisterStep(message: Bytes, n: nat)
    requires n < |message|
    ensures Register(message, n + 1) == Absorb(TakeBit, Register(message, n), BitsOf(message[n]))
  {
    var b := message[n];
    assert message[..n + 1] == message[..n] + [b];
    MessageBitsConcat(message[..n], [b]);
    assert MessageBits([b]) == BitsOf(b) + MessageBits([]) == BitsOf(b);
    AbsorbConcat(TakeBit, ALL_ONES, MessageBits(message[..n]), BitsOf(b));
  }

  /** A table index as the word it stands for. */
  function IndexWord(i: nat): bv32
    requires i < 256
  {
    i as bv32
  }

  lemma IndexOfLow(x: bv32)
    ensures 0 <= Low(x) as int < 256 && IndexWord(Low(x) as int) == Low(x)
  {
    LowIsSmall(x);
    IndexOfWord(Low(x));
  }

  lemma LowIsSmall(x: bv32)
    ensures Low(x) < 256
  {
  }

  lemma IndexOfWord(x: bv32)
    requires x < 256
    ensures 0 <= x as int < 256 && (x as int) as bv32 == x
  {
  }

  ghost predicate FilledTo(table: seq<bv32>, n: nat) {
    n <= |table| && n <= 256 && forall j :: 0 <= j < n ==> table[j] == TableEntry(IndexWord(j))
  }

  ghost predicate Filled(table: seq<bv32>) {
    |table| == 256 && FilledTo(table, 256)
  }

  lemma FillNext(table: seq<bv32>, n: nat, entry: bv32)
    requires n < |table| && n < 256 && FilledTo(table, n) && entry == TableEntry(IndexWord(n))
    ensures FilledTo(table[n := entry], n + 1)
  {
  }

  /** The checksum code together with the table it leaves on the global object. */
  class TableCrc {
    var table: array?<bv32>

    ghost predicate Valid()
      reads this, table
    {
      table != null ==> Filled(table[..])
    }

    constructor ()
      ensures Valid() && table == null
    {
      table := null;
    }

    static method MakeEntry(i: nat) returns (c: bv32)
      requires i < 256
      ensures c == TableEntry(IndexWord(i))
    {
      c := IndexWord(i);
      var k := 0;
      while k < 8
        invariant 0 <= k <= 8
        invariant Iterate(Shift, 8 - k, c) == TableEntry(IndexWord(i))
      {
        c := Shift(c);
        k := k + 1;
      }
    }

    method FillTable()
      modifies this
      ensures table != null && fresh(table) && Valid()
    {
      var entries := new bv32[256];
      var i := 0;
      while i < 256
        invariant 0 <= i <= 256
        invariant FilledTo(entries[..], i)
      {
        var entry := MakeEntry(i);
        FillNext(entries[..], i, entry);
        entries[i] := entry;
        i := i + 1;
      }
      table := entries;
    }

    /** The byte-at-a-time computation yields the checksum RFC 2083 defines bit by bit. */
    method Crc32(message: Bytes) returns (checksum: bv32)
      requires Valid()
      modifies this
      ensures Valid() && table != null
      ensures old(table) != null ==> table == old(table)
      ensures checksum == BitSerialCrc(message)
    {
      if table == null {
        FillTable();
      }
      var entries := table[..];
      var crc := ALL_ONES;
      var i := 0;
      while i < |message|
        invariant 0 <= i <= |message|
        invariant Valid() && table != null
        invariant old(table) != null ==> table == old(table)
        invariant crc == Register(message, i)
      {
        crc := StepByTable(entries, crc, message[i]);
        RegisterStep(message, i);
        i := i + 1;
      }
      assert message[..|message|] == message;
      checksum := Xor(crc, ALL_ONES);
    }
  }

  function StepByTable(table: seq<bv32>, crc: bv32, b: Byte): (next: bv32)
    requires Filled(table)
    ensures next == Absorb(TakeBit, crc, BitsOf(b))
  {
    var x := Xor(crc, ByteWord(b));
    IndexOfLow(x);
    TableStep(crc, b);
    Xor(crc >> 8, table[Low(x) as int])
  }

  // ---------------------------------------------------------------- error detection

  lemma BurstChangesRegister(s: bv32, u: Bits, v: Bits)
    requires |u| == |v| <= 32
    requires Absorb(TakeBit, s, u) == Absorb(TakeBit, s, v)
    ensures u == v
  {
    FeedIsXorThenShift(s, u);
    FeedIsXorThenShift(s, v);
    ShiftInjective();
    IterateInjective(Shift, |u|, Xor(s, Pack(u)), Xor(s, Pack(v)));
    XorCancels(s, Pack(u), Pack(v));
    PackInjective(u, v);
  }

  lemma RegisterKeepsDifference(x: bv32, y: bv32, suffix: Bits)
    requires Absorb(TakeBit, x, suffix) == Absorb(TakeBit, y, suffix)
    ensures x == y
  {
    TakeBitInjective();
    AbsorbInjective(TakeBit, x, y, suffix);
  }

  lemma BitCrcBurst(prefix: Bits, u: Bits, v: Bits, suffix: Bits)
    requires |u| == |v| <= 32 && u != v
    ensures Absorb(TakeBit, ALL_ONES, prefix + u + suffix) != Absorb(TakeBit, ALL_ONES, prefix + v + suffix)
  {
    var s := Absorb(TakeBit, ALL_ONES, prefix);
    AbsorbConcat(TakeBit, ALL_ONES, prefix + u, suffix);
    AbsorbConcat(TakeBit, ALL_ONES, prefix + v, suffix);
    AbsorbConcat(TakeBit, ALL_ONES, prefix, u);
    AbsorbConcat(TakeBit, ALL_ONES, prefix, v);
    if Absorb(TakeBit, ALL_ONES, prefix + u + suffix) == Absorb(TakeBit, ALL_ONES, prefix + v + suffix) {
      RegisterKeepsDifference(Absorb(TakeBit, s, u), Absorb(TakeBit, s, v), suffix);
      BurstChangesRegister(s, u, v);
    }
  }

  lemma WindowChangesRegister(s: Bits, t: Bits, start: nat)
    requires |s| == |t| && s != t && start <= |s|
    requires forall i :: 0 <= i < |s| && !(start <= i < start + 32) ==> s[i] == t[i]
    ensures Absorb(TakeBit, ALL_ONES, s) != Absorb(TakeBit, ALL_ONES, t)
  {
    var end := if start + 32 <= |s| then start + 32 else |s|;
    SplitAtWindow(s, t, start, end);
    BitCrcBurst(s[..start], s[start..end], t[start..end], s[end..]);
  }

  lemma SameCrcSameRegister(a: Bytes, b: Bytes)
    requires BitSerialCrc(a) == BitSerialCrc(b)
    ensures Absorb(TakeBit, ALL_ONES, MessageBits(a)) == Absorb(TakeBit, ALL_ONES, MessageBits(b))
  {
    XorCancels(ALL_ONES, Absorb(TakeBit, ALL_ONES, MessageBits(a)), Absorb(TakeBit, ALL_ONES, MessageBits(b)));
  }

  /**
   Burst detection: two different messages of the same length whose bits differ only inside
   some window of 32 consecutive bits never share a checksum. The window may start anywhere
   and may reach past the end.
   */
  lemma BurstDetected(a: Bytes, b: Bytes, start: nat)
    requires |a| == |b| && a != b
    requires start <= 8 * |a|
    requires forall i :: 0 <= i < 8 * |a| && !(start <= i < start + 32) ==> MessageBits(a)[i] == MessageBits(b)[i]
    ensures BitSerialCrc(a) != BitSerialCrc(b)
  {
    if BitSerialCrc(a) == BitSerialCrc(b) {
      SameCrcSameRegister(a, b);
      if MessageBits(a) == MessageBits(b) {
        MessageBitsInjective(a, b);
      }
      WindowChangesRegister(MessageBits(a), MessageBits(b), start);
    }
  }

  lemma {:induction false} MessageBitsInjective(a: Bytes, b: Bytes)
    requires MessageBits(a) == MessageBits(b)
    ensures a == b
  {
    if a != [] && b != [] {
      assert MessageBits(a)[..8] == BitsOf(a[0]) && MessageBits(b)[..8] == BitsOf(b[0]);
      assert MessageBits(a)[8..] == MessageBits(a[1..]) && MessageBits(b)[8..] == MessageBits(b[1..]);
      BitsOfInjective(a[0], b[0]);
      MessageBitsInjective(a[1..], b[1..]);
      assert a == [a[0]] + a[1..] && b == [b[0]] + b[1..];
    } else {
      assert |MessageBits(a)| == |MessageBits(b)|;
    }
  }

  lemma BitsOfInjective(a: Byte, b: Byte)
    requires BitsOf(a) == BitsOf(b)
    ensures a == b
  {
    assert Pow2(8) == 256;
    BinaryDigitsInjective(a, b, 8);
  }

  function Pow2(k: nat): nat {
    if k == 0 then 1 else 2 * Pow2(k - 1)
  }

  lemma {:induction false} BinaryDigitsInjective(m: nat, n: nat, k: nat)
    requires m < Pow2(k) && n < Pow2(k)
    requires BinaryDigits(m, k) == BinaryDigits(n, k)
    ensures m == n
  {
    if k > 0 {
      assert BinaryDigits(m, k)[0] == (m % 2 == 1) && BinaryDigits(n, k)[0] == (n % 2 == 1);
      assert BinaryDigits(m, k)[1..] == BinaryDigits(m / 2, k - 1);
      assert BinaryDigits(n, k)[1..] == BinaryDigits(n / 2, k - 1);
      BinaryDigitsInjective(m / 2, n / 2, k - 1);
    }
  }

  lemma {:induction false} MessageBitsAt(a: Bytes, i: nat, k: nat)
    requires i < |a| && k < 8
    ensures MessageBits(a)[8 * i + k] == BitsOf(a[i])[k]
  {
    var rest := MessageBits(a[1..]);
    assert MessageBits(a) == BitsOf(a[0]) + rest;
    if i > 0 {
      MessageBitsAt(a[1..], i - 1, k);
      assert MessageBits(a)[8 * i + k] == rest[8 * (i - 1) + k];
    }
  }

  lemma EqualBytesEqualBits(a: Bytes, b: Bytes, i: nat)
    requires i < 8 * |a| && i < 8 * |b| && a[i / 8] == b[i / 8]
    ensures MessageBits(a)[i] == MessageBits(b)[i]
  {
    var q, r := i / 8, i % 8;
    assert i == 8 * q + r;
    MessageBitsAt(a, q, r);
    MessageBitsAt(b, q, r);
  }

  /** In bytes: changes confined to four consecutive bytes always change the checksum. */
  lemma FourByteBurstDetected(a: Bytes, b: Bytes, at: nat)
    requires |a| == |b| && a != b && at <= |a|
    requires forall i :: 0 <= i < |a| && !(at <= i < at + 4) ==> a[i] == b[i]
    ensures BitSerialCrc(a) != BitSerialCrc(b)
  {
    forall i | 0 <= i < 8 * |a| && !(8 * at <= i < 8 * at + 32)
      ensures MessageBits(a)[i] == MessageBits(b)[i]
    {
      EqualBytesEqualBits(a, b, i);
    }
    BurstDetected(a, b, 8 * at);
  }
}
