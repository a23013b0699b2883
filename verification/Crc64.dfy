/**
 CRC-64 as computed by crc64.c and crcspeed.c.

 The bit-serial routine keeps the register with its most significant bit first
 and reflects it at the end.  The table routines keep the reflected register and
 consume one or eight bytes per step.  Everything below is built on one linear
 map, `Shift`, which divides the reflected register by x modulo the polynomial.
 */
module Crc64 {

  const POLY: bv64 := 0xad93d23594c935a9
  const REFLECTED_POLY: bv64 := 0x95ac9329ac4bc9b5

  // ----------------------------------------------------------- Word operations

  // The word operations the algebra is about.  Proofs hide their bodies once the
  // few facts they need have been established bit by bit.
  function Xor(a: bv64, b: bv64): bv64 { a ^ b }
  function Half(x: bv64): bv64 { x >> 1 }
  predicate Odd(x: bv64) { x & 1 == 1 }
  function LowByte(x: bv64): bv64 { x & 0xff }
  function DropByte(x: bv64): bv64 { x >> 8 }
  function ClearByte(x: bv64): bv64 { x & 0xffffffffffffff00 }

  // ---------------------------------------------------------------- Reflection

  /** The 64 bits of `x` in opposite order. */
  function Reflect(x: bv64): bv64 {
    var a := ((x >> 1) & 0x5555555555555555) | ((x & 0x5555555555555555) << 1);
    var b := ((a >> 2) & 0x3333333333333333) | ((a & 0x3333333333333333) << 2);
    var c := ((b >> 4) & 0x0f0f0f0f0f0f0f0f) | ((b & 0x0f0f0f0f0f0f0f0f) << 4);
    var d := ((c >> 8) & 0x00ff00ff00ff00ff) | ((c & 0x00ff00ff00ff00ff) << 8);
    var e := ((d >> 16) & 0x0000ffff0000ffff) | ((d & 0x0000ffff0000ffff) << 16);
    (e >> 32) | (e << 32)
  }

  lemma ReflectInvolution(x: bv64)
    ensures Reflect(Reflect(x)) == x
  {}

  /** `ret` with bit 1 of `data` appended. */
  function TakeBit(ret: bv64, data: bv64): bv64 { (ret << 1) | ((data >> 1) & 1) }

  /** What `n` iterations of the reflection loop do to the pair (ret, data). */
  function ReflectLoop(ret: bv64, data: bv64, n: nat): bv64
    decreases n
  {
    if n == 0 then ret else ReflectLoop(TakeBit(ret, data), Half(data), n - 1)
  }

  function DropNine(x: bv64): bv64 { x >> 9 }

  /** `ret` with bits 1 to 9 of `data` appended, lowest first. */
  function TakeNine(ret: bv64, data: bv64): bv64 {
    (ret << 9) | ((data & 2) << 7) | ((data & 4) << 5) | ((data & 8) << 3) | ((data & 16) << 1) |
    ((data & 32) >> 1) | ((data & 64) >> 3) | ((data & 128) >> 5) | ((data & 256) >> 7) | ((data & 512) >> 9)
  }

  lemma ReflectLoopThree(r: bv64, d: bv64, n: nat)
    ensures ReflectLoop(r, d, n + 3) ==
            ReflectLoop(TakeBit(TakeBit(TakeBit(r, d), Half(d)), Half(Half(d))), Half(Half(Half(d))), n)
  {
    hide TakeBit, Half;
    var r1, r2 := TakeBit(r, d), TakeBit(TakeBit(r, d), Half(d));
    assert ReflectLoop(r, d, n + 3) == ReflectLoop(r1, Half(d), n + 2);
    assert ReflectLoop(r1, Half(d), n + 2) == ReflectLoop(r2, Half(Half(d)), n + 1);
  }

  lemma TakeThreeThrice(r: bv64, d: bv64)
    ensures var d3 := Half(Half(Half(d))); var d6 := Half(Half(Half(d3)));
            var r3 := TakeBit(TakeBit(TakeBit(r, d), Half(d)), Half(Half(d)));
            var r6 := TakeBit(TakeBit(TakeBit(r3, d3), Half(d3)), Half(Half(d3)));
            TakeBit(TakeBit(TakeBit(r6, d6), Half(d6)), Half(Half(d6))) == TakeNine(r, d) &&
            Half(Half(Half(d6))) == DropNine(d)
  {}

  lemma ReflectLoopNine(r: bv64, d: bv64, n: nat)
    ensures ReflectLoop(r, d, n + 9) == ReflectLoop(TakeNine(r, d), DropNine(d), n)
  {
    hide TakeBit, TakeNine, Half, DropNine;
    var d3 := Half(Half(Half(d)));
    var d6 := Half(Half(Half(d3)));
    var r3 := TakeBit(TakeBit(TakeBit(r, d), Half(d)), Half(Half(d)));
    var r6 := TakeBit(TakeBit(TakeBit(r3, d3), Half(d3)), Half(Half(d3)));
    ReflectLoopThree(r, d, n + 6);
    ReflectLoopThree(r3, d3, n + 3);
    ReflectLoopThree(r6, d6, n);
    TakeThreeThrice(r, d);
  }

  /** Seven groups of nine bits after the first bit: the whole word reversed. */
  function SevenNines(d: bv64): bv64 {
    var d1 := DropNine(d); var d2 := DropNine(d1); var d3 := DropNine(d2);
    var d4 := DropNine(d3); var d5 := DropNine(d4); var d6 := DropNine(d5);
    TakeNine(TakeNine(TakeNine(TakeNine(TakeNine(TakeNine(TakeNine(
      d & 1, d), d1), d2), d3), d4), d5), d6)
  }

  lemma SevenNinesReflects(d: bv64)
    ensures SevenNines(d) == Reflect(d)
  {}

  /** Sixty-three iterations of the loop reverse the word. */
  lemma ReflectLoopReverses(d: bv64)
    ensures ReflectLoop(d & 1, d, 63) == Reflect(d)
  {
    hide TakeNine, DropNine, Reflect, ReflectLoop;
    SevenNinesReflects(d);
    var d1 := DropNine(d); var d2 := DropNine(d1); var d3 := DropNine(d2);
    var d4 := DropNine(d3); var d5 := DropNine(d4); var d6 := DropNine(d5);
    var r1 := TakeNine(d & 1, d);
    var r2 := TakeNine(r1, d1);
    var r3 := TakeNine(r2, d2);
    var r4 := TakeNine(r3, d3);
    var r5 := TakeNine(r4, d4);
    var r6 := TakeNine(r5, d5);
    ReflectLoopNine(d & 1, d, 54);
    ReflectLoopNine(r1, d1, 45);
    ReflectLoopNine(r2, d2, 36);
    ReflectLoopNine(r3, d3, 27);
    ReflectLoopNine(r4, d4, 18);
    ReflectLoopNine(r5, d5, 9);
    ReflectLoopNine(r6, d6, 0);
    ReflectLoopDone(TakeNine(r6, d6), DropNine(d6));
  }

  lemma ReflectLoopDone(r: bv64, d: bv64)
    ensures ReflectLoop(r, d, 0) == r
  {}

  method CrcReflect(data: bv64, dataLen: nat) returns (ret: bv64)
    ensures dataLen == 64 ==> ret == Reflect(data)
    ensures ret == ReflectLoop(data & 1, data, if dataLen == 0 then 0 else dataLen - 1)
  {
    var d := data;
    ret := d & 1;
    var i := 1;
    while i < dataLen
      invariant i <= dataLen || i == 1
      invariant ReflectLoop(ret, d, if dataLen < i then 0 else dataLen - i) ==
                ReflectLoop(data & 1, data, if dataLen == 0 then 0 else dataLen - 1)
    {
      d := d >> 1;
      ret := (ret << 1) | (d & 1);
      i := i + 1;
    }
    ReflectLoopReverses(data);
  }

  // ------------------------------------------------------ Bit-serial definition

  /** One bit of input pushed through the unreflected register. */
  function BitStep(crc: bv64, input: bool): bv64 {
    var top := crc & 0x8000000000000000 != 0;
    if top != input then (crc << 1) ^ POLY else crc << 1
  }

  /** Number of shifts after which the mask `i` has left the byte. */
  function MaskRank(i: bv8): nat {
    if i == 0 then 0 else if i & 0x01 != 0 then 8 else if i & 0x02 != 0 then 7
    else if i & 0x04 != 0 then 6 else if i & 0x08 != 0 then 5 else if i & 0x10 != 0 then 4
    else if i & 0x20 != 0 then 3 else if i & 0x40 != 0 then 2 else 1
  }

  /** The bits of `c` from mask `i` upwards, least significant first. */
  function SerialBits(crc: bv64, c: bv8, i: bv8): bv64
    decreases MaskRank(i)
  {
    if i == 0 then crc else SerialBits(BitStep(crc, c & i != 0), c, i << 1)
  }

  /** The unreflected register after a whole buffer. */
  function Serial(crc: bv64, data: seq<bv8>): bv64 {
    if data == [] then crc
    else SerialBits(Serial(crc, data[..|data| - 1]), data[|data| - 1], 1)
  }

  lemma BitStepIs(before: bv64, c: bv8, i: bv8, bit: bool)
    requires bit == ((before & 0x8000000000000000 != 0) != (c & i != 0))
    ensures (if bit then (before << 1) ^ POLY else before << 1) == BitStep(before, c & i != 0)
  {
  }

  lemma SerialStep(crc: bv64, c: bv8, i: bv8)
    requires i != 0
    ensures SerialBits(crc, c, i) == SerialBits(BitStep(crc, c & i != 0), c, i << 1)
    ensures MaskRank(i << 1) < MaskRank(i)
  {
    hide BitStep;
  }

  lemma SerialDone(crc: bv64, c: bv8)
    ensures SerialBits(crc, c, 0) == crc
  {
  }

  method BitSerialByte(crc: bv64, c: bv8) returns (reg: bv64)
    ensures reg == SerialBits(crc, c, 1)
  {
    hide SerialBits, MaskRank, BitStep;
    reg := crc;
    var i: bv8 := 1;
    while i != 0
      invariant SerialBits(reg, c, i) == SerialBits(crc, c, 1)
      decreases MaskRank(i)
    {
      SerialStep(reg, c, i);
      var bit := reg & 0x8000000000000000 != 0;
      if c & i != 0 { bit := !bit; }
      BitStepIs(reg, c, i, bit);
      reg := reg << 1;
      if bit { reg := reg ^ POLY; }
      i := i << 1;
    }
    SerialDone(reg, c);
  }

  method BitSerialCrc(crc: bv64, data: seq<bv8>) returns (r: bv64)
    ensures r == Reflect(Serial(crc, data))
  {
    var reg := crc;
    for offset := 0 to |data|
      invariant reg == Serial(crc, data[..offset])
    {
      reg := BitSerialByte(reg, data[offset]);
      assert data[..offset + 1][..offset] == data[..offset];
    }
    assert data[..|data|] == data;
    r := CrcReflect(reg, 64);
  }

  // ----------------------------------------------------------- The shift algebra

  lemma XorComm(a: bv64, b: bv64)
    ensures Xor(a, b) == Xor(b, a)
  {}

  lemma XorAssoc(a: bv64, b: bv64, p: bv64)
    ensures Xor(a, Xor(b, p)) == Xor(Xor(a, b), p)
  {}

  lemma XorZero(a: bv64)
    ensures Xor(a, 0) == a && Xor(0, a) == a && Xor(a, a) == 0
  {}

  lemma XorSwap(a: bv64, b: bv64, p: bv64)
    ensures Xor(Xor(a, p), b) == Xor(Xor(a, b), p)
    ensures Xor(Xor(a, p), Xor(b, p)) == Xor(a, b)
  {
    hide Xor;
    XorAssoc(a, p, b);
    XorAssoc(a, b, p);
    XorComm(p, b);
    XorAssoc(Xor(a, p), b, p);
    XorAssoc(Xor(a, b), p, p);
    XorZero(p);
    XorZero(Xor(a, b));
  }

  lemma XorRightCancel(a: bv64, b: bv64, c: bv64)
    requires Xor(a, c) == Xor(b, c)
    ensures a == b
  {}

  lemma HalfXor(a: bv64, b: bv64)
    ensures Half(Xor(a, b)) == Xor(Half(a), Half(b))
    ensures Odd(Xor(a, b)) <==> (Odd(a) != Odd(b))
  {}

  /** One zero bit of input pushed through the reflected register. */
  function Shift(r: bv64): bv64 {
    if Odd(r) then Xor(Half(r), REFLECTED_POLY) else Half(r)
  }

  function Shifts(r: bv64, n: nat): bv64
    decreases n
  {
    if n == 0 then r else Shifts(Shift(r), n - 1)
  }

  lemma ShiftLinear(a: bv64, b: bv64)
    ensures Shift(Xor(a, b)) == Xor(Shift(a), Shift(b))
  {
    HalfXor(a, b);
    XorSwap(Half(a), Half(b), REFLECTED_POLY);
    XorAssoc(Half(a), Half(b), REFLECTED_POLY);
    hide Xor, Half, Odd;
  }

  lemma {:induction false} ShiftsLinear(a: bv64, b: bv64, n: nat)
    ensures Shifts(Xor(a, b), n) == Xor(Shifts(a, n), Shifts(b, n))
    decreases n
  {
    hide Xor, Shift;
    if n > 0 {
      ShiftLinear(a, b);
      ShiftsLinear(Shift(a), Shift(b), n - 1);
    }
  }

  lemma {:induction false} ShiftsAdd(r: bv64, m: nat, n: nat)
    ensures Shifts(r, m + n) == Shifts(Shifts(r, m), n)
    decreases m
  {
    hide Shift;
    if m > 0 { ShiftsAdd(Shift(r), m - 1, n); }
  }

  /** The polynomial is odd, so the bit shifted out can be read off the result. */
  lemma ShiftInjective(a: bv64, b: bv64)
    requires Shift(a) == Shift(b)
    ensures a == b
  {}

  lemma {:induction false} ShiftsInjective(a: bv64, b: bv64, n: nat)
    requires Shifts(a, n) == Shifts(b, n)
    ensures a == b
    decreases n
  {
    hide Shift;
    if n > 0 {
      ShiftsInjective(Shift(a), Shift(b), n - 1);
      ShiftInjective(a, b);
    }
  }

  /** A register whose low byte is clear just moves down a byte. */
  lemma {:induction false} ShiftsClearByte(x: bv64)
    requires LowByte(x) == 0
    ensures Shifts(x, 8) == DropByte(x)
  {
    assert Shift(Shift(Shift(Shift(Shift(Shift(Shift(Shift(x)))))))) == DropByte(x);
    EightShifts(x);
  }

  lemma EightShifts(x: bv64)
    ensures Shifts(x, 8) == Shift(Shift(Shift(Shift(Shift(Shift(Shift(Shift(x))))))))
  {
  }

  lemma SplitLowByte(x: bv64)
    ensures x == Xor(LowByte(x), ClearByte(x))
    ensures LowByte(ClearByte(x)) == 0 && DropByte(ClearByte(x)) == DropByte(x)
  {}

  /** Only the low byte of `x` interacts with the register during the next eight shifts. */
  lemma FeedLowByte(r: bv64, x: bv64, n: nat)
    ensures Shifts(Xor(r, x), 8 + n) == Shifts(Xor(Shifts(Xor(r, LowByte(x)), 8), DropByte(x)), n)
  {
    hide Xor, LowByte, ClearByte, DropByte, Shift;
    SplitLowByte(x);
    XorAssoc(r, LowByte(x), ClearByte(x));
    ShiftsLinear(Xor(r, LowByte(x)), ClearByte(x), 8);
    ShiftsClearByte(ClearByte(x));
    ShiftsAdd(Xor(r, x), 8, n);
  }

  /** A register splits into its low byte and the rest, which is eight shifts behind. */
  lemma PeelLowByte(x: bv64, n: nat)
    ensures Shifts(x, 8 + n) == Xor(Shifts(LowByte(x), 8 + n), Shifts(DropByte(x), n))
  {
    hide Xor, LowByte, DropByte, Shift;
    FeedLowByte(0, x, n);
    XorZero(x);
    XorZero(LowByte(x));
    ShiftsAdd(LowByte(x), 8, n);
    ShiftsLinear(Shifts(LowByte(x), 8), DropByte(x), n);
  }

  // ------------------------------------------------- The reflected byte register

  /** The reflected register after one byte. */
  function UpdateByte(r: bv64, b: bv8): bv64 {
    Shifts(Xor(r, b as bv64), 8)
  }

  /** The reflected register after a whole buffer. */
  function Update(r: bv64, s: seq<bv8>): bv64 {
    if s == [] then r else UpdateByte(Update(r, s[..|s| - 1]), s[|s| - 1])
  }

  /** Checksumming a concatenation is chaining. */
  lemma {:induction false} UpdateConcat(r: bv64, a: seq<bv8>, b: seq<bv8>)
    ensures Update(r, a + b) == Update(Update(r, a), b)
    decreases |b|
  {
    hide UpdateByte;
    if b == [] {
      assert a + b == a;
    } else {
      assert (a + b)[..|a + b| - 1] == a + b[..|b| - 1];
      UpdateConcat(r, a, b[..|b| - 1]);
    }
  }

  lemma UpdateFirst(r: bv64, s: seq<bv8>)
    requires s != []
    ensures Update(r, s) == Update(UpdateByte(r, s[0]), s[1..])
  {
    hide UpdateByte;
    assert s == s[..1] + s[1..];
    UpdateConcat(r, s[..1], s[1..]);
    assert s[..1][..0] == [];
  }

  /** Every byte is absorbed injectively in the register. */
  lemma {:induction false} UpdateInjective(a: bv64, b: bv64, s: seq<bv8>)
    requires Update(a, s) == Update(b, s)
    ensures a == b
    decreases |s|
  {
    if s != [] {
      var t, c := s[..|s| - 1], s[|s| - 1] as bv64;
      ShiftsInjective(Xor(Update(a, t), c), Xor(Update(b, t), c), 8);
      XorRightCancel(Update(a, t), Update(b, t), c);
      UpdateInjective(a, b, t);
    }
  }

  // ------------------------------------------- Bit-serial and reflected agree

  function BitOf(d: bool): bv64 { if d then 1 else 0 }

  predicate TopBit(c: bv64) { c & 0x8000000000000000 != 0 }

  lemma ReflectShl(c: bv64)
    ensures Reflect(c << 1) == Half(Reflect(c))
    ensures TopBit(c) <==> Odd(Reflect(c))
  {}

  lemma ReflectXor(a: bv64, b: bv64)
    ensures Reflect(Xor(a, b)) == Xor(Reflect(a), Reflect(b))
  {}

  lemma ReflectPoly()
    ensures Reflect(POLY) == REFLECTED_POLY
  {}

  lemma FlipLowBit(r: bv64)
    ensures Odd(Xor(r, 1)) <==> !Odd(r)
    ensures Half(Xor(r, 1)) == Half(r)
  {}

  lemma BitStepCases(c: bv64, d: bool)
    ensures BitStep(c, d) == if TopBit(c) != d then Xor(c << 1, POLY) else c << 1
  {}

  lemma BitStepReflected(c: bv64, d: bool)
    ensures Reflect(BitStep(c, d)) == Shift(Xor(Reflect(c), BitOf(d)))
  {
    hide Reflect, Xor, Half, Odd, TopBit, BitStep;
    BitStepCases(c, d);
    ReflectShl(c);
    ReflectXor(c << 1, POLY);
    ReflectPoly();
    FlipLowBit(Reflect(c));
    XorZero(Reflect(c));
  }

  /** `n` input bits, taken from the low end of `w`, pushed through the reflected register. */
  function InputBits(r: bv64, w: bv64, n: nat): bv64
    decreases n
  {
    if n == 0 then r else InputBits(Shift(Xor(r, BitOf(Odd(w)))), Half(w), n - 1)
  }

  function Halves(w: bv64, n: nat): bv64
    decreases n
  {
    if n == 0 then w else Halves(Half(w), n - 1)
  }

  lemma EvenPart(w: bv64)
    ensures var high := Xor(BitOf(Odd(w)), w);
            w == Xor(BitOf(Odd(w)), high) && Shift(high) == Half(w)
  {}

  lemma ShiftSplitsOdd(r: bv64, w: bv64)
    ensures Shift(Xor(r, w)) == Xor(Shift(Xor(r, BitOf(Odd(w)))), Half(w))
  {
    hide Xor, Half, Odd, Shift, BitOf;
    var low := BitOf(Odd(w));
    EvenPart(w);
    XorAssoc(r, low, Xor(low, w));
    ShiftLinear(Xor(r, low), Xor(low, w));
  }

  /** Xoring a word in at once or bit by bit differs only in what is left of the word. */
  lemma {:induction false} InputBitsAreShifts(r: bv64, w: bv64, n: nat)
    ensures Shifts(Xor(r, w), n) == Xor(InputBits(r, w, n), Halves(w, n))
    decreases n
  {
    hide Xor, Half, Odd, Shift, BitOf;
    if n > 0 {
      ShiftSplitsOdd(r, w);
      InputBitsAreShifts(Shift(Xor(r, BitOf(Odd(w)))), Half(w), n - 1);
    }
  }

  predicate ByteBit(c: bv8, i: bv8) { c & i != 0 }

  function NextMask(i: bv8): bv8 { i << 1 }

  /** The `n` bits of `c` from mask `i` upwards are the low `n` bits of `w`, and end the byte. */
  predicate SameBits(c: bv8, i: bv8, w: bv64, n: nat)
    decreases n
  {
    if n == 0 then i == 0
    else i != 0 && Odd(w) == ByteBit(c, i) && SameBits(c, NextMask(i), Half(w), n - 1)
  }

  lemma ByteHalves(c: bv8)
    ensures var w := c as bv64;
            var h1 := Half(w); var h2 := Half(h1); var h3 := Half(h2); var h4 := Half(h3);
            var h5 := Half(h4); var h6 := Half(h5); var h7 := Half(h6);
            Odd(w) == ByteBit(c, 0x01) && Odd(h1) == ByteBit(c, 0x02) && Odd(h2) == ByteBit(c, 0x04) &&
            Odd(h3) == ByteBit(c, 0x08) && Odd(h4) == ByteBit(c, 0x10) && Odd(h5) == ByteBit(c, 0x20) &&
            Odd(h6) == ByteBit(c, 0x40) && Odd(h7) == ByteBit(c, 0x80) && Half(h7) == 0
  {}

  lemma ByteSameBits(c: bv8)
    ensures SameBits(c, 1, c as bv64, 8) && Halves(c as bv64, 8) == 0
  {
    ByteHalves(c);
    assert NextMask(0x01) == 0x02 && NextMask(0x02) == 0x04 && NextMask(0x04) == 0x08 && NextMask(0x08) == 0x10;
    assert NextMask(0x10) == 0x20 && NextMask(0x20) == 0x40 && NextMask(0x40) == 0x80 && NextMask(0x80) == 0;
    hide Odd, Half, ByteBit, NextMask;
    var h2 := Half(Half(c as bv64)); var h4 := Half(Half(h2)); var h6 := Half(Half(h4));
    assert SameBits(c, 0x40, h6, 2) && Halves(h6, 2) == 0;
    assert SameBits(c, 0x10, h4, 4) && Halves(h4, 4) == 0;
    assert SameBits(c, 0x04, h2, 6) && Halves(h2, 6) == 0;
  }

  lemma SerialBitsNext(crc: bv64, c: bv8, i: bv8)
    requires i != 0
    ensures SerialBits(crc, c, i) == SerialBits(BitStep(crc, ByteBit(c, i)), c, NextMask(i))
  {}

  lemma {:induction false} SerialBitsAreInputBits(crc: bv64, c: bv8, i: bv8, w: bv64, n: nat)
    requires SameBits(c, i, w, n)
    ensures Reflect(SerialBits(crc, c, i)) == InputBits(Reflect(crc), w, n)
    decreases n
  {
    hide Reflect, Xor, Half, Odd, Shift, BitStep, ByteBit, NextMask, BitOf;
    if n > 0 {
      BitStepReflected(crc, ByteBit(c, i));
      SerialBitsNext(crc, c, i);
      SerialBitsAreInputBits(BitStep(crc, ByteBit(c, i)), c, NextMask(i), Half(w), n - 1);
    }
  }

  lemma SerialByteReflected(crc: bv64, c: bv8)
    ensures Reflect(SerialBits(crc, c, 1)) == UpdateByte(Reflect(crc), c)
  {
    hide Reflect, Xor;
    ByteSameBits(c);
    SerialBitsAreInputBits(crc, c, 1, c as bv64, 8);
    InputBitsAreShifts(Reflect(crc), c as bv64, 8);
    XorZero(InputBits(Reflect(crc), c as bv64, 8));
  }

  /** The reflected register follows the bit-serial one through every buffer. */
  lemma {:induction false} UpdateIsBitSerial(c: bv64, s: seq<bv8>)
    ensures Update(c, s) == Reflect(Serial(Reflect(c), s))
    decreases |s|
  {
    if s == [] {
      ReflectInvolution(c);
    } else {
      hide Reflect, UpdateByte, SerialBits;
      UpdateIsBitSerial(c, s[..|s| - 1]);
      SerialByteReflected(Serial(Reflect(c), s[..|s| - 1]), s[|s| - 1]);
    }
  }

  // ------------------------------------------------------------- The check value

  lemma ByteGives(r: bv64, b: bv8, next: bv64)
    requires Shift(Shift(Shift(Shift(Shift(Shift(Shift(Shift(Xor(r, b as bv64))))))))) == next
    ensures UpdateByte(r, b) == next
  {
    hide Shift;
    EightShifts(Xor(r, b as bv64));
  }

  const CHECK_INPUT: seq<bv8> := [0x31, 0x32, 0x33, 0x34, 0x35, 0x36, 0x37, 0x38, 0x39]

  lemma CheckBytes123()
    ensures UpdateByte(0x0, 0x31) == 0xfdc17184a9f739fa
    ensures UpdateByte(0xfdc17184a9f739fa, 0x32) == 0xe10364513a98ed96
    ensures UpdateByte(0xe10364513a98ed96, 0x33) == 0xd5bcfb814479b1ac
  {
    ByteGives(0x0, 0x31, 0xfdc17184a9f739fa);
    ByteGives(0xfdc17184a9f739fa, 0x32, 0xe10364513a98ed96);
    ByteGives(0xe10364513a98ed96, 0x33, 0xd5bcfb814479b1ac);
  }

  lemma CheckBytes456()
    ensures UpdateByte(0xd5bcfb814479b1ac, 0x34) == 0x43593c5dcda521f0
    ensures UpdateByte(0x43593c5dcda521f0, 0x35) == 0xf0758513239c7e0d
    ensures UpdateByte(0xf0758513239c7e0d, 0x36) == 0xa3a90925b2ab4903
  {
    ByteGives(0xd5bcfb814479b1ac, 0x34, 0x43593c5dcda521f0);
    ByteGives(0x43593c5dcda521f0, 0x35, 0xf0758513239c7e0d);
    ByteGives(0xf0758513239c7e0d, 0x36, 0xa3a90925b2ab4903);
  }

  lemma CheckBytes789()
    ensures UpdateByte(0xa3a90925b2ab4903, 0x37) == 0x47824d362431ad45
    ensures UpdateByte(0x47824d362431ad45, 0x38) == 0x49ec20b315e86dc2
    ensures UpdateByte(0x49ec20b315e86dc2, 0x39) == 0xe9c6d914c4b8d9ca
  {
    ByteGives(0xa3a90925b2ab4903, 0x37, 0x47824d362431ad45);
    ByteGives(0x47824d362431ad45, 0x38, 0x49ec20b315e86dc2);
    ByteGives(0x49ec20b315e86dc2, 0x39, 0xe9c6d914c4b8d9ca);
  }

  lemma UpdateEnd(r: bv64, s: seq<bv8>, b: bv8)
    ensures Update(r, s + [b]) == UpdateByte(Update(r, s), b)
  {
    hide UpdateByte;
    assert (s + [b])[..|s|] == s;
  }

  lemma UpdatePrefix(r: bv64, s: seq<bv8>, k: nat)
    requires k < |s|
    ensures Update(r, s[..k + 1]) == UpdateByte(Update(r, s[..k]), s[k])
  {
    hide UpdateByte, Update;
    assert s[..k + 1] == s[..k] + [s[k]];
    UpdateEnd(r, s[..k], s[k]);
  }

  lemma NoBytes(r: bv64, s: seq<bv8>)
    ensures Update(r, s[..0]) == r
  {
  }

  lemma ReflectZero()
    ensures Reflect(0) == 0
  {
  }

  /** The check value of this checksum, that of the nine bytes `123456789`. */
  lemma CheckValue()
    ensures Update(0, CHECK_INPUT) == 0xe9c6d914c4b8d9ca
    ensures Reflect(Serial(0, CHECK_INPUT)) == 0xe9c6d914c4b8d9ca
  {
    hide UpdateByte, Update, Reflect, Serial;
    var s := CHECK_INPUT;
    CheckBytes123();
    CheckBytes456();
    CheckBytes789();
    NoBytes(0, s);
    UpdatePrefix(0, s, 0);
    UpdatePrefix(0, s, 1);
    UpdatePrefix(0, s, 2);
    UpdatePrefix(0, s, 3);
    UpdatePrefix(0, s, 4);
    UpdatePrefix(0, s, 5);
    UpdatePrefix(0, s, 6);
    UpdatePrefix(0, s, 7);
    UpdatePrefix(0, s, 8);
    assert s[..9] == s;
    UpdateIsBitSerial(0, s);
    ReflectZero();
  }

  // ------------------------------------------------------------------ The tables

  /** The entry for byte `n` in table `k`: the byte followed by `k` zero bytes. */
  function Entry(k: nat, n: bv8): bv64 { Shifts(n as bv64, 8 * (k + 1)) }

  function IndexByte(n: nat): bv8
    requires n < 256
  { n as bv8 }

  ghost predicate LittleTable(table: array2<bv64>)
    reads table
  {
    table.Length0 == 8 && table.Length1 == 256 &&
    forall k, n :: 0 <= k < 8 && 0 <= n < 256 ==> table[k, n] == Entry(k, IndexByte(n))
  }

  lemma SerialByteIsEntry(n: bv8)
    ensures Reflect(Serial(0, [n])) == Entry(0, n)
  {
    assert [n][..0] == [];
    assert Reflect(0) == 0;
    hide Reflect, Xor, SerialBits;
    SerialByteReflected(0, n);
    XorZero(n as bv64);
  }

  lemma EntryNext(k: nat, n: bv8)
    ensures var crc := Entry(k, n);
            Entry(k + 1, n) == Xor(Entry(0, Byte(crc, 0)), DropByte(crc))
  {
    hide Xor, LowByte, DropByte, Byte, Shift;
    var crc := Entry(k, n);
    ShiftsAdd(n as bv64, 8 * (k + 1), 8);
    PeelLowByte(crc, 0);
    LowByteIsByte(crc);
  }

  /** Byte `i` of a word, counted from the least significant. */
  function Byte(x: bv64, i: nat): bv8
    requires i < 8
  {
    match i
    case 0 => (x & 0xff) as bv8
    case 1 => ((x >> 8) & 0xff) as bv8
    case 2 => ((x >> 16) & 0xff) as bv8
    case 3 => ((x >> 24) & 0xff) as bv8
    case 4 => ((x >> 32) & 0xff) as bv8
    case 5 => ((x >> 40) & 0xff) as bv8
    case 6 => ((x >> 48) & 0xff) as bv8
    case 7 => (x >> 56) as bv8
  }

  lemma LowByteIsByte(x: bv64)
    ensures Byte(x, 0) as bv64 == LowByte(x)
  {}

  lemma DropByteMovesBytes(x: bv64)
    ensures forall i | 0 <= i < 7 :: Byte(DropByte(x), i) == Byte(x, i + 1)
    ensures Byte(x, 7) as bv64 == DropByte(DropByte(DropByte(DropByte(DropByte(DropByte(DropByte(x)))))))
  {
    forall i | 0 <= i < 7 ensures Byte(DropByte(x), i) == Byte(x, i + 1) {
      if i == 0 {} else if i == 1 {} else if i == 2 {} else if i == 3 {} else if i == 4 {} else if i == 5 {}
    }
  }

  /** Looking up all eight bytes of a word at once is sixty-four shifts. */
  function SliceBy8(x: bv64): bv64 {
    Xor(Entry(7, Byte(x, 0)), Xor(Entry(6, Byte(x, 1)), Xor(Entry(5, Byte(x, 2)), Xor(Entry(4, Byte(x, 3)),
    Xor(Entry(3, Byte(x, 4)), Xor(Entry(2, Byte(x, 5)), Xor(Entry(1, Byte(x, 6)), Entry(0, Byte(x, 7)))))))))
  }

  lemma PeelEntry(x: bv64, k: nat)
    ensures Shifts(x, 8 * (k + 2)) == Xor(Entry(k + 1, Byte(x, 0)), Shifts(DropByte(x), 8 * (k + 1)))
  {
    PeelLowByte(x, 8 * (k + 1));
    LowByteIsByte(x);
    hide Xor, LowByte, DropByte, Byte, Shift;
  }

  lemma EntryZero(n: bv8)
    ensures Entry(0, n) == Shifts(n as bv64, 8)
  {}

  lemma SliceBy8IsShifts(x: bv64)
    ensures SliceBy8(x) == Shifts(x, 64)
  {
    hide Xor, DropByte, Byte, Shift, Shifts, Entry;
    var x1 := DropByte(x); var x2 := DropByte(x1); var x3 := DropByte(x2);
    var x4 := DropByte(x3); var x5 := DropByte(x4); var x6 := DropByte(x5); var x7 := DropByte(x6);
    PeelEntry(x, 6); PeelEntry(x1, 5); PeelEntry(x2, 4); PeelEntry(x3, 3);
    PeelEntry(x4, 2); PeelEntry(x5, 1); PeelEntry(x6, 0);
    DropByteMovesBytes(x); DropByteMovesBytes(x1); DropByteMovesBytes(x2);
    DropByteMovesBytes(x3); DropByteMovesBytes(x4); DropByteMovesBytes(x5);
    EntryZero(Byte(x, 7));
  }

  // ---------------------------------------------------------------- Word loads

  /** The 64-bit value a little-endian machine loads from eight bytes. */
  function LoadLittle(s: seq<bv8>): bv64
    requires |s| == 8
  {
    (s[0] as bv64) | ((s[1] as bv64) << 8) | ((s[2] as bv64) << 16) | ((s[3] as bv64) << 24) |
    ((s[4] as bv64) << 32) | ((s[5] as bv64) << 40) | ((s[6] as bv64) << 48) | ((s[7] as bv64) << 56)
  }

  /** The 64-bit value a big-endian machine loads from eight bytes. */
  function LoadBig(s: seq<bv8>): bv64
    requires |s| == 8
  {
    (s[7] as bv64) | ((s[6] as bv64) << 8) | ((s[5] as bv64) << 16) | ((s[4] as bv64) << 24) |
    ((s[3] as bv64) << 32) | ((s[2] as bv64) << 40) | ((s[1] as bv64) << 48) | ((s[0] as bv64) << 56)
  }

  lemma LoadLittleLow(s: seq<bv8>)
    requires |s| == 8
    ensures Byte(LoadLittle(s), 0) == s[0] && Byte(LoadLittle(s), 1) == s[1]
    ensures Byte(LoadLittle(s), 2) == s[2] && Byte(LoadLittle(s), 3) == s[3]
  {
  }

  lemma LoadLittleHigh(s: seq<bv8>)
    requires |s| == 8
    ensures Byte(LoadLittle(s), 4) == s[4] && Byte(LoadLittle(s), 5) == s[5]
    ensures Byte(LoadLittle(s), 6) == s[6] && Byte(LoadLittle(s), 7) == s[7]
  {
  }

  lemma LoadLittleBytes(s: seq<bv8>)
    requires |s| == 8
    ensures forall i | 0 <= i < 8 :: Byte(LoadLittle(s), i) == s[i]
  {
    hide Byte, LoadLittle;
    LoadLittleLow(s);
    LoadLittleHigh(s);
  }

  lemma FeedByte(r: bv64, w: bv64, b: bv8, n: nat)
    requires Byte(w, 0) == b
    ensures Shifts(Xor(r, w), 8 + n) == Shifts(Xor(UpdateByte(r, b), DropByte(w)), n)
  {
    hide Xor, LowByte, DropByte, Shift, Byte;
    LowByteIsByte(w);
    FeedLowByte(r, w, n);
  }

  function Drops(w: bv64, n: nat): bv64
    decreases n
  {
    if n == 0 then w else Drops(DropByte(w), n - 1)
  }

  lemma EightDrops(w: bv64)
    ensures Drops(w, 8) == 0
  {
  }

  /** The bytes of a word one by one, or the whole word at once. */
  lemma {:induction false} UpdateBytesOfWord(r: bv64, w: bv64, s: seq<bv8>)
    requires |s| <= 8 && Drops(w, |s|) == 0
    requires forall j | 0 <= j < |s| :: Byte(w, j) == s[j]
    ensures Update(r, s) == Shifts(Xor(r, w), 8 * |s|)
    decreases |s|
  {
    hide Xor, DropByte, Shift, Byte, UpdateByte;
    if s == [] {
      XorZero(r);
    } else {
      UpdateFirst(r, s);
      FeedByte(r, w, s[0], 8 * (|s| - 1));
      DropByteMovesBytes(w);
      UpdateBytesOfWord(UpdateByte(r, s[0]), DropByte(w), s[1..]);
    }
  }

  lemma UpdateEight(r: bv64, s: seq<bv8>)
    requires |s| == 8
    ensures Update(r, s) == Shifts(Xor(r, LoadLittle(s)), 64)
  {
    hide Xor, Byte, LoadLittle, UpdateByte;
    LoadLittleBytes(s);
    EightDrops(LoadLittle(s));
    UpdateBytesOfWord(r, LoadLittle(s), s);
  }

  // ------------------------------------------------- The little-endian routine

  /** Row 0 holds the checksums of single bytes. */
  ghost predicate FirstRow(table: array2<bv64>)
    reads table
  {
    table.Length0 == 8 && table.Length1 == 256 &&
    forall n :: 0 <= n < 256 ==> table[0, n] == Entry(0, IndexByte(n))
  }

  method LittleInitColumn(table: array2<bv64>, n: nat)
    requires FirstRow(table) && n < 256
    modifies table
    ensures FirstRow(table)
    ensures forall k :: 0 <= k < 8 ==> table[k, n] == Entry(k, IndexByte(n))
    ensures forall k, m :: 0 <= k < 8 && 0 <= m < 256 && m != n ==> table[k, m] == old(table[k, m])
  {
    hide Xor, DropByte, Byte, Entry, IndexByte;
    var crc := table[0, n];
    for k := 1 to 8
      invariant FirstRow(table)
      invariant forall j, m :: 0 <= j < 8 && 0 <= m < 256 && m != n ==> table[j, m] == old(table[j, m])
      invariant forall j :: 0 <= j < k ==> table[j, n] == Entry(j, IndexByte(n))
      invariant crc == Entry(k - 1, IndexByte(n))
    {
      IndexRoundTrip(Byte(crc, 0));
      EntryNext(k - 1, IndexByte(n));
      crc := Xor(table[0, Byte(crc, 0) as int], DropByte(crc));
      table[k, n] := crc;
    }
  }

  method LittleInit(table: array2<bv64>)
    requires table.Length0 == 8 && table.Length1 == 256
    modifies table
    ensures LittleTable(table)
  {
    hide Entry, Reflect, Serial, IndexByte;
    for n := 0 to 256
      invariant forall m :: 0 <= m < n ==> table[0, m] == Entry(0, IndexByte(m))
    {
      var v := IndexByte(n);
      var crc := BitSerialCrc(0, [v]);
      SerialByteIsEntry(v);
      table[0, n] := crc;
    }
    for n := 0 to 256
      invariant FirstRow(table)
      invariant forall k, m :: 0 <= k < 8 && 0 <= m < n ==> table[k, m] == Entry(k, IndexByte(m))
    {
      LittleInitColumn(table, n);
    }
  }

  lemma IndexRoundTrip(b: bv8)
    ensures 0 <= b as int < 256 && IndexByte(b as int) == b
  {}

  /** The entry of a correct table at a byte index. */
  lemma TableAt(table: array2<bv64>, k: nat, b: bv8)
    requires LittleTable(table) && k < 8
    ensures 0 <= b as int < 256 && table[k, b as int] == Entry(k, b)
  {
  }

  lemma OneByteLookup(crc: bv64, b: bv8)
    ensures Xor(Entry(0, Byte(Xor(crc, b as bv64), 0)), DropByte(crc)) == UpdateByte(crc, b)
  {
    var x := Xor(crc, b as bv64);
    assert DropByte(x) == DropByte(crc);
    hide Xor, DropByte, Byte, Shift, LowByte;
    PeelLowByte(x, 0);
    LowByteIsByte(x);
  }

  method UpdateOneByte(table: array2<bv64>, crc: bv64, b: bv8) returns (r: bv64)
    requires LittleTable(table)
    ensures r == UpdateByte(crc, b)
  {
    OneByteLookup(crc, b);
    hide Xor, DropByte, Byte, UpdateByte, Entry;
    var index := Byte(Xor(crc, b as bv64), 0);
    TableAt(table, 0, index);
    r := Xor(table[0, index as int], DropByte(crc));
  }

  method UpdateOneWord(table: array2<bv64>, crc: bv64, word: bv64) returns (r: bv64)
    requires LittleTable(table)
    ensures r == Shifts(Xor(crc, word), 64)
  {
    hide Xor, Byte, Entry, Shifts;
    var x := Xor(crc, word);
    TableAt(table, 7, Byte(x, 0)); TableAt(table, 6, Byte(x, 1));
    TableAt(table, 5, Byte(x, 2)); TableAt(table, 4, Byte(x, 3));
    TableAt(table, 3, Byte(x, 4)); TableAt(table, 2, Byte(x, 5));
    TableAt(table, 1, Byte(x, 6)); TableAt(table, 0, Byte(x, 7));
    SliceBy8IsShifts(x);
    r := Xor(table[7, Byte(x, 0) as int], Xor(table[6, Byte(x, 1) as int],
         Xor(table[5, Byte(x, 2) as int], Xor(table[4, Byte(x, 3) as int],
         Xor(table[3, Byte(x, 4) as int], Xor(table[2, Byte(x, 5) as int],
         Xor(table[1, Byte(x, 6) as int], table[0, Byte(x, 7) as int])))))));
  }

  /** `base` is the address of the buffer: it decides how many bytes come before the first aligned word. */
  method Little(table: array2<bv64>, crc: bv64, buf: seq<bv8>, base: nat) returns (r: bv64)
    requires LittleTable(table)
    ensures r == Update(crc, buf)
  {
    hide Xor, UpdateByte, LoadLittle, Entry, Shifts;
    r := crc;
    var next := 0;
    while next < |buf| && (base + next) % 8 != 0
      invariant 0 <= next <= |buf|
      invariant r == Update(crc, buf[..next])
    {
      r := UpdateOneByte(table, r, buf[next]);
      assert buf[..next + 1][..next] == buf[..next];
      next := next + 1;
    }
    while |buf| - next >= 8
      invariant 0 <= next <= |buf|
      invariant r == Update(crc, buf[..next])
    {
      var block := buf[next..next + 8];
      UpdateEight(r, block);
      UpdateConcat(crc, buf[..next], block);
      assert buf[..next + 8] == buf[..next] + block;
      r := UpdateOneWord(table, r, LoadLittle(block));
      next := next + 8;
    }
    while next < |buf|
      invariant 0 <= next <= |buf|
      invariant r == Update(crc, buf[..next])
    {
      r := UpdateOneByte(table, r, buf[next]);
      assert buf[..next + 1][..next] == buf[..next];
      next := next + 1;
    }
    assert buf[..next] == buf;
  }

  // ---------------------------------------------------- The big-endian routine

  /** The bytes of a word in opposite order. */
  function Rev8(a: bv64): bv64 {
    (a << 56) | ((a & 0xff00) << 40) | ((a & 0xff0000) << 24) | ((a & 0xff000000) << 8) |
    ((a >> 8) & 0xff000000) | ((a >> 24) & 0xff0000) | ((a >> 40) & 0xff00) | (a >> 56)
  }

  /** The portable byte swap, for compilers without a built-in one, is the same function. */
  lemma Rev8Portable(a: bv64)
    ensures var b := ((a >> 8) & 0x00ff00ff00ff00ff) | ((a & 0x00ff00ff00ff00ff) << 8);
            var c := ((b >> 16) & 0x0000ffff0000ffff) | ((b & 0x0000ffff0000ffff) << 16);
            (c >> 32) | (c << 32) == Rev8(a)
  {}

  lemma Rev8Involution(x: bv64)
    ensures Rev8(Rev8(x)) == x
  {}

  lemma Rev8Xor(a: bv64, b: bv64)
    ensures Rev8(Xor(a, b)) == Xor(Rev8(a), Rev8(b))
  {}

  function RaiseByte(x: bv64): bv64 { x << 8 }

  lemma Rev8OfShift(x: bv64)
    ensures Rev8(x >> 8) == Rev8(x) << 8
  {}

  lemma Rev8Drop(x: bv64)
    ensures Rev8(DropByte(x)) == RaiseByte(Rev8(x))
  {
    hide Rev8;
    Rev8OfShift(x);
  }

  lemma Rev8LowBytes(x: bv64)
    ensures Byte(Rev8(x), 0) == Byte(x, 7) && Byte(Rev8(x), 1) == Byte(x, 6)
    ensures Byte(Rev8(x), 2) == Byte(x, 5) && Byte(Rev8(x), 3) == Byte(x, 4)
  {}

  lemma Rev8HighBytes(x: bv64)
    ensures Byte(Rev8(x), 4) == Byte(x, 3) && Byte(Rev8(x), 5) == Byte(x, 2)
    ensures Byte(Rev8(x), 6) == Byte(x, 1) && Byte(Rev8(x), 7) == Byte(x, 0)
  {}

  lemma Rev8Byte(x: bv64)
    ensures forall i | 0 <= i < 8 :: Byte(Rev8(x), i) == Byte(x, 7 - i)
  {
    hide Byte, Rev8;
    Rev8LowBytes(x);
    Rev8HighBytes(x);
  }

  lemma LoadBigIsReversed(s: seq<bv8>)
    requires |s| == 8
    ensures LoadBig(s) == Rev8(LoadLittle(s))
  {}

  ghost predicate BigTable(table: array2<bv64>)
    reads table
  {
    table.Length0 == 8 && table.Length1 == 256 &&
    forall k, n :: 0 <= k < 8 && 0 <= n < 256 ==> table[k, n] == Rev8(Entry(k, IndexByte(n)))
  }

  method ReverseRow(table: array2<bv64>, k: nat)
    requires table.Length0 == 8 && table.Length1 == 256 && k < 8
    modifies table
    ensures forall m | 0 <= m < 256 :: table[k, m] == Rev8(old(table[k, m]))
    ensures forall j, m | 0 <= j < 8 && 0 <= m < 256 && j != k :: table[j, m] == old(table[j, m])
  {
    hide Rev8;
    for n := 0 to 256
      invariant forall m | 0 <= m < n :: table[k, m] == Rev8(old(table[k, m]))
      invariant forall m | n <= m < 256 :: table[k, m] == old(table[k, m])
      invariant forall j, m | 0 <= j < 8 && 0 <= m < 256 && j != k :: table[j, m] == old(table[j, m])
    {
      table[k, n] := Rev8(table[k, n]);
    }
  }

  method BigInit(table: array2<bv64>)
    requires table.Length0 == 8 && table.Length1 == 256
    modifies table
    ensures BigTable(table)
  {
    hide Entry, IndexByte, Rev8;
    LittleInit(table);
    for k := 0 to 8
      invariant forall j, n :: 0 <= j < k && 0 <= n < 256 ==> table[j, n] == Rev8(Entry(j, IndexByte(n)))
      invariant forall j, n :: k <= j < 8 && 0 <= n < 256 ==> table[j, n] == Entry(j, IndexByte(n))
    {
      ReverseRow(table, k);
    }
  }

  lemma BigTableAt(table: array2<bv64>, k: nat, b: bv8)
    requires BigTable(table) && k < 8
    ensures 0 <= b as int < 256 && table[k, b as int] == Rev8(Entry(k, b))
  {
  }

  lemma TopByteIndex(r: bv64, b: bv8)
    ensures Byte(Rev8(r), 7) ^ b == Byte(Xor(r, b as bv64), 0)
  {}

  method BigUpdateOneByte(table: array2<bv64>, crc: bv64, b: bv8, ghost r: bv64) returns (crc': bv64)
    requires BigTable(table) && crc == Rev8(r)
    ensures crc' == Rev8(UpdateByte(r, b))
  {
    TopByteIndex(r, b);
    OneByteLookup(r, b);
    hide Xor, DropByte, RaiseByte, Byte, UpdateByte, Entry, Rev8;
    var index := Byte(crc, 7) ^ b;
    BigTableAt(table, 0, index);
    Rev8Drop(r);
    Rev8Xor(Entry(0, index), DropByte(r));
    crc' := Xor(table[0, index as int], RaiseByte(crc));
  }

  /** The eight lookups in the order of the big-endian routine. */
  function BigSliceBy8(x: bv64): bv64 {
    Xor(Rev8(Entry(0, Byte(x, 0))), Xor(Rev8(Entry(1, Byte(x, 1))), Xor(Rev8(Entry(2, Byte(x, 2))),
    Xor(Rev8(Entry(3, Byte(x, 3))), Xor(Rev8(Entry(4, Byte(x, 4))), Xor(Rev8(Entry(5, Byte(x, 5))),
    Xor(Rev8(Entry(6, Byte(x, 6))), Rev8(Entry(7, Byte(x, 7))))))))))
  }

  lemma XorReverse8(a: bv64, b: bv64, c: bv64, d: bv64, e: bv64, f: bv64, g: bv64, h: bv64)
    ensures Xor(a, Xor(b, Xor(c, Xor(d, Xor(e, Xor(f, Xor(g, h))))))) ==
            Xor(h, Xor(g, Xor(f, Xor(e, Xor(d, Xor(c, Xor(b, a)))))))
  {
    hide Xor;
    XorRotate(a, b, Xor(c, Xor(d, Xor(e, Xor(f, Xor(g, h))))));
    XorRotate(Xor(b, a), c, Xor(d, Xor(e, Xor(f, Xor(g, h)))));
    XorRotate(Xor(c, Xor(b, a)), d, Xor(e, Xor(f, Xor(g, h))));
    XorRotate(Xor(d, Xor(c, Xor(b, a))), e, Xor(f, Xor(g, h)));
    XorRotate(Xor(e, Xor(d, Xor(c, Xor(b, a)))), f, Xor(g, h));
    XorRotate(Xor(f, Xor(e, Xor(d, Xor(c, Xor(b, a))))), g, h);
    XorComm(Xor(g, Xor(f, Xor(e, Xor(d, Xor(c, Xor(b, a)))))), h);
  }

  lemma XorRotate(acc: bv64, x: bv64, rest: bv64)
    ensures Xor(acc, Xor(x, rest)) == Xor(Xor(x, acc), rest)
  {
    hide Xor;
    XorAssoc(acc, x, rest);
    XorComm(acc, x);
  }

  lemma BigSliceIsReversed(x: bv64)
    ensures BigSliceBy8(Rev8(x)) == Rev8(SliceBy8(x))
  {
    hide Xor, Byte, Entry, Rev8;
    Rev8Byte(x);
    var e7, e6, e5, e4 := Entry(7, Byte(x, 0)), Entry(6, Byte(x, 1)), Entry(5, Byte(x, 2)), Entry(4, Byte(x, 3));
    var e3, e2, e1, e0 := Entry(3, Byte(x, 4)), Entry(2, Byte(x, 5)), Entry(1, Byte(x, 6)), Entry(0, Byte(x, 7));
    Rev8Xor(e1, e0);
    Rev8Xor(e2, Xor(e1, e0));
    Rev8Xor(e3, Xor(e2, Xor(e1, e0)));
    Rev8Xor(e4, Xor(e3, Xor(e2, Xor(e1, e0))));
    Rev8Xor(e5, Xor(e4, Xor(e3, Xor(e2, Xor(e1, e0)))));
    Rev8Xor(e6, Xor(e5, Xor(e4, Xor(e3, Xor(e2, Xor(e1, e0))))));
    Rev8Xor(e7, Xor(e6, Xor(e5, Xor(e4, Xor(e3, Xor(e2, Xor(e1, e0)))))));
    XorReverse8(Rev8(e7), Rev8(e6), Rev8(e5), Rev8(e4), Rev8(e3), Rev8(e2), Rev8(e1), Rev8(e0));
  }

  method BigUpdateOneWord(table: array2<bv64>, crc: bv64, word: bv64, ghost r: bv64, ghost w: bv64)
    returns (crc': bv64)
    requires BigTable(table) && crc == Rev8(r) && word == Rev8(w)
    ensures crc' == Rev8(Shifts(Xor(r, w), 64))
  {
    hide Xor, Byte, Entry, Shifts, Rev8;
    var x := Xor(crc, word);
    BigTableAt(table, 0, Byte(x, 0)); BigTableAt(table, 1, Byte(x, 1));
    BigTableAt(table, 2, Byte(x, 2)); BigTableAt(table, 3, Byte(x, 3));
    BigTableAt(table, 4, Byte(x, 4)); BigTableAt(table, 5, Byte(x, 5));
    BigTableAt(table, 6, Byte(x, 6)); BigTableAt(table, 7, Byte(x, 7));
    Rev8Xor(r, w);
    BigSliceIsReversed(Xor(r, w));
    SliceBy8IsShifts(Xor(r, w));
    crc' := Xor(table[0, Byte(x, 0) as int], Xor(table[1, Byte(x, 1) as int],
            Xor(table[2, Byte(x, 2) as int], Xor(table[3, Byte(x, 3) as int],
            Xor(table[4, Byte(x, 4) as int], Xor(table[5, Byte(x, 5) as int],
            Xor(table[6, Byte(x, 6) as int], table[7, Byte(x, 7) as int])))))));
  }

  method Big(table: array2<bv64>, crc: bv64, buf: seq<bv8>, base: nat) returns (r: bv64)
    requires BigTable(table)
    ensures r == Update(crc, buf)
  {
    hide Xor, UpdateByte, LoadLittle, LoadBig, Entry, Shifts, Rev8;
    var c := Rev8(crc);
    var next := 0;
    while next < |buf| && (base + next) % 8 != 0
      invariant 0 <= next <= |buf|
      invariant c == Rev8(Update(crc, buf[..next]))
    {
      c := BigUpdateOneByte(table, c, buf[next], Update(crc, buf[..next]));
      assert buf[..next + 1][..next] == buf[..next];
      next := next + 1;
    }
    while |buf| - next >= 8
      invariant 0 <= next <= |buf|
      invariant c == Rev8(Update(crc, buf[..next]))
    {
      var block := buf[next..next + 8];
      UpdateEight(Update(crc, buf[..next]), block);
      UpdateConcat(crc, buf[..next], block);
      assert buf[..next + 8] == buf[..next] + block;
      LoadBigIsReversed(block);
      c := BigUpdateOneWord(table, c, LoadBig(block), Update(crc, buf[..next]), LoadLittle(block));
      next := next + 8;
    }
    while next < |buf|
      invariant 0 <= next <= |buf|
      invariant c == Rev8(Update(crc, buf[..next]))
    {
      c := BigUpdateOneByte(table, c, buf[next], Update(crc, buf[..next]));
      assert buf[..next + 1][..next] == buf[..next];
      next := next + 1;
    }
    assert buf[..next] == buf;
    Rev8Involution(Update(crc, buf));
    r := Rev8(c);
  }

  // ---------------------------------------------------------- The public entry

  /** The table a machine of the given byte order builds at start-up. */
  ghost predicate NativeTable(table: array2<bv64>, littleEndian: bool)
    reads table
  {
    if littleEndian then LittleTable(table) else BigTable(table)
  }

  /** On either byte order and at any address, the checksum is the bit-serial one. */
  method Crc64(table: array2<bv64>, littleEndian: bool, crc: bv64, s: seq<bv8>, base: nat) returns (r: bv64)
    requires NativeTable(table, littleEndian)
    ensures r == Reflect(Serial(Reflect(crc), s))
    ensures r == Update(crc, s)
  {
    hide Reflect, Serial, Update;
    UpdateIsBitSerial(crc, s);
    if littleEndian {
      r := Little(table, crc, s, base);
    } else {
      r := Big(table, crc, s, base);
    }
  }
}
