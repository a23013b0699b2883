/**
 The first bit of a value in a string (bitops.c): bytes up to an aligned address, then whole words, are
 skipped while they hold no such bit; the rest is looked at bit by bit in one word.

 Bit 0 of a string is the most significant bit of its first byte.
 */
module Bitpos {

  type Byte = bv8
  type Word = bv64

  function BitOf(b: Byte, r: nat): bool
    requires r < 8
  {
    (b >> (7 - r)) & 1 == 1
  }

  /** The string, padded with zeroes on the right. */
  function ByteAt(s: seq<Byte>, i: nat): Byte { if i < |s| then s[i] else 0 }

  function BitAt(s: seq<Byte>, i: nat): bool { BitOf(ByteAt(s, i / 8), i % 8) }

  /** `pos` is the first position of the bit in the padded string. */
  ghost predicate IsFirst(s: seq<Byte>, bit: bool, pos: nat) {
    BitAt(s, pos) == bit && NoneBefore(s, bit, pos)
  }

  ghost predicate NoneBefore(s: seq<Byte>, bit: bool, pos: nat) {
    forall i | 0 <= i < pos :: BitAt(s, i) != bit
  }

  function SkipByte(bit: bool): Byte { if bit then 0 else 0xFF }

  lemma SkipOne(s: seq<Byte>, bit: bool, i: nat)
    requires NoneBefore(s, bit, 8 * i) && ByteAt(s, i) == SkipByte(bit)
    ensures NoneBefore(s, bit, 8 * i + 8)
  {
  }

  function Join(b0: Byte, b1: Byte, b2: Byte, b3: Byte, b4: Byte, b5: Byte, b6: Byte, b7: Byte): Word {
    ((b0 as Word) << 56) | ((b1 as Word) << 48) | ((b2 as Word) << 40) | ((b3 as Word) << 32) |
    ((b4 as Word) << 24) | ((b5 as Word) << 16) | ((b6 as Word) << 8) | (b7 as Word)
  }

  function WordAt(s: seq<Byte>, i: nat): Word {
    Join(ByteAt(s, i), ByteAt(s, i + 1), ByteAt(s, i + 2), ByteAt(s, i + 3),
         ByteAt(s, i + 4), ByteAt(s, i + 5), ByteAt(s, i + 6), ByteAt(s, i + 7))
  }

  lemma JoinZero(b0: Byte, b1: Byte, b2: Byte, b3: Byte, b4: Byte, b5: Byte, b6: Byte, b7: Byte)
    ensures Join(b0, b1, b2, b3, b4, b5, b6, b7) == 0
       <==> b0 == 0 && b1 == 0 && b2 == 0 && b3 == 0 && b4 == 0 && b5 == 0 && b6 == 0 && b7 == 0
  {
  }

  lemma JoinOnes(b0: Byte, b1: Byte, b2: Byte, b3: Byte, b4: Byte, b5: Byte, b6: Byte, b7: Byte)
    ensures Join(b0, b1, b2, b3, b4, b5, b6, b7) == 0xFFFF_FFFF_FFFF_FFFF
       <==> b0 == 0xFF && b1 == 0xFF && b2 == 0xFF && b3 == 0xFF && b4 == 0xFF && b5 == 0xFF && b6 == 0xFF && b7 == 0xFF
  {
  }

  function Half(w: Word): Word { w >> 1 }

  /** Whether two words have a set bit in common. */
  predicate Meets(v: Word, w: Word) { v & w != 0 }

  predicate MeetsByte(v: Byte, w: Byte) { v & w != 0 }

  /** The single bit at position `k` from the left, as the scan moves it. */
  function Mask(k: nat): Word
    requires k < 64
  {
    if k == 0 then 0x8000_0000_0000_0000 else Half(Mask(k - 1))
  }

  function ByteMask(r: nat): Byte
    requires r < 8
  {
    0x80 >> r
  }

  function Place(q: nat, m: Byte): Word {
    var w := m as Word;
    if q == 0 then w << 56 else if q == 1 then w << 48 else if q == 2 then w << 40 else if q == 3 then w << 32
    else if q == 4 then w << 24 else if q == 5 then w << 16 else if q == 6 then w << 8 else w
  }

  function Pick(q: nat, b0: Byte, b1: Byte, b2: Byte, b3: Byte, b4: Byte, b5: Byte, b6: Byte, b7: Byte): Byte {
    if q == 0 then b0 else if q == 1 then b1 else if q == 2 then b2 else if q == 3 then b3
    else if q == 4 then b4 else if q == 5 then b5 else if q == 6 then b6 else b7
  }

  lemma ByteMaskNext(r: nat)
    requires r < 7
    ensures ByteMask(r + 1) == ByteMask(r) >> 1 && ByteMask(r) & 1 == 0
  {
    if r == 0 {
    } else if r == 1 {
    } else if r == 2 {
    } else if r == 3 {
    } else if r == 4 {
    } else if r == 5 {
    } else {
    }
  }

  lemma PlaceHalfLow(q: nat, m: Byte)
    requires 4 <= q < 8 && m & 1 == 0
    ensures Half(Place(q, m)) == Place(q, m >> 1)
  {
  }

  lemma PlaceHalfHigh(q: nat, m: Byte)
    requires q < 4 && m & 1 == 0
    ensures Half(Place(q, m)) == Place(q, m >> 1)
  {
  }

  lemma PlaceNext(q: nat, r: nat)
    requires q < 8 && r < 7
    ensures Half(Place(q, ByteMask(r))) == Place(q, ByteMask(r + 1))
  {
    hide Place, Half, ByteMask;
    ByteMaskNext(r);
    if q < 4 { PlaceHalfHigh(q, ByteMask(r)); } else { PlaceHalfLow(q, ByteMask(r)); }
  }

  lemma PlaceCarry(q: nat)
    requires q < 7
    ensures Half(Place(q, ByteMask(7))) == Place(q + 1, ByteMask(0))
  {
  }

  lemma {:induction false} MaskIsPlace(k: nat)
    requires k < 64
    ensures Mask(k) == Place(k / 8, ByteMask(k % 8)) && Mask(k) != 0
    decreases k
  {
    hide Place, ByteMask, Half;
    if k == 0 {
      PlaceFirst();
    } else {
      MaskIsPlace(k - 1);
      if k % 8 == 0 { PlaceCarry(k / 8 - 1); } else { PlaceNext(k / 8, k % 8 - 1); }
    }
    PlaceNonZero(k / 8, k % 8);
  }

  lemma PlaceFirst()
    ensures Place(0, ByteMask(0)) == 0x8000_0000_0000_0000
  {
  }

  lemma PlaceNonZero(q: nat, r: nat)
    requires q < 8 && r < 8
    ensures Place(q, ByteMask(r)) != 0
  {
  }

  lemma PlaceAnd0(m: Byte, b0: Byte, b1: Byte, b2: Byte, b3: Byte, b4: Byte, b5: Byte, b6: Byte, b7: Byte)
    ensures Meets(Place(0, m), Join(b0, b1, b2, b3, b4, b5, b6, b7)) == MeetsByte(m, b0)
  {
  }

  lemma PlaceAnd1(m: Byte, b0: Byte, b1: Byte, b2: Byte, b3: Byte, b4: Byte, b5: Byte, b6: Byte, b7: Byte)
    ensures Meets(Place(1, m), Join(b0, b1, b2, b3, b4, b5, b6, b7)) == MeetsByte(m, b1)
  {
  }

  lemma PlaceAnd2(m: Byte, b0: Byte, b1: Byte, b2: Byte, b3: Byte, b4: Byte, b5: Byte, b6: Byte, b7: Byte)
    ensures Meets(Place(2, m), Join(b0, b1, b2, b3, b4, b5, b6, b7)) == MeetsByte(m, b2)
  {
  }

  lemma PlaceAnd3(m: Byte, b0: Byte, b1: Byte, b2: Byte, b3: Byte, b4: Byte, b5: Byte, b6: Byte, b7: Byte)
    ensures Meets(Place(3, m), Join(b0, b1, b2, b3, b4, b5, b6, b7)) == MeetsByte(m, b3)
  {
  }

  lemma PlaceAnd4(m: Byte, b0: Byte, b1: Byte, b2: Byte, b3: Byte, b4: Byte, b5: Byte, b6: Byte, b7: Byte)
    ensures Meets(Place(4, m), Join(b0, b1, b2, b3, b4, b5, b6, b7)) == MeetsByte(m, b4)
  {
  }

  lemma PlaceAnd5(m: Byte, b0: Byte, b1: Byte, b2: Byte, b3: Byte, b4: Byte, b5: Byte, b6: Byte, b7: Byte)
    ensures Meets(Place(5, m), Join(b0, b1, b2, b3, b4, b5, b6, b7)) == MeetsByte(m, b5)
  {
  }

  lemma PlaceAnd6(m: Byte, b0: Byte, b1: Byte, b2: Byte, b3: Byte, b4: Byte, b5: Byte, b6: Byte, b7: Byte)
    ensures Meets(Place(6, m), Join(b0, b1, b2, b3, b4, b5, b6, b7)) == MeetsByte(m, b6)
  {
  }

  lemma PlaceAnd7(m: Byte, b0: Byte, b1: Byte, b2: Byte, b3: Byte, b4: Byte, b5: Byte, b6: Byte, b7: Byte)
    ensures Meets(Place(7, m), Join(b0, b1, b2, b3, b4, b5, b6, b7)) == MeetsByte(m, b7)
  {
  }

  lemma PlaceAnd(q: nat, m: Byte, b0: Byte, b1: Byte, b2: Byte, b3: Byte, b4: Byte, b5: Byte, b6: Byte, b7: Byte)
    requires q < 8
    ensures Meets(Place(q, m), Join(b0, b1, b2, b3, b4, b5, b6, b7)) ==
            MeetsByte(m, Pick(q, b0, b1, b2, b3, b4, b5, b6, b7))
  {
    hide Join, Place, Meets, MeetsByte;
    if q == 0 { PlaceAnd0(m, b0, b1, b2, b3, b4, b5, b6, b7); }
    else if q == 1 { PlaceAnd1(m, b0, b1, b2, b3, b4, b5, b6, b7); }
    else if q == 2 { PlaceAnd2(m, b0, b1, b2, b3, b4, b5, b6, b7); }
    else if q == 3 { PlaceAnd3(m, b0, b1, b2, b3, b4, b5, b6, b7); }
    else if q == 4 { PlaceAnd4(m, b0, b1, b2, b3, b4, b5, b6, b7); }
    else if q == 5 { PlaceAnd5(m, b0, b1, b2, b3, b4, b5, b6, b7); }
    else if q == 6 { PlaceAnd6(m, b0, b1, b2, b3, b4, b5, b6, b7); }
    else { PlaceAnd7(m, b0, b1, b2, b3, b4, b5, b6, b7); }
  }

  lemma ByteMaskAnd(b: Byte, r: nat)
    requires r < 8
    ensures MeetsByte(ByteMask(r), b) == BitOf(b, r)
  {
  }

  lemma PickAt(s: seq<Byte>, i: nat, q: nat)
    requires q < 8
    ensures Pick(q, ByteAt(s, i), ByteAt(s, i + 1), ByteAt(s, i + 2), ByteAt(s, i + 3),
                 ByteAt(s, i + 4), ByteAt(s, i + 5), ByteAt(s, i + 6), ByteAt(s, i + 7)) == ByteAt(s, i + q)
  {
  }

  /** The `k`-th bit from the left of the word at byte `i` is bit `8i + k` of the string. */
  lemma WordBit(s: seq<Byte>, i: nat, k: nat)
    requires k < 64
    ensures Meets(Mask(k), WordAt(s, i)) == BitAt(s, 8 * i + k)
  {
    hide Mask, Place, ByteMask, Join, Pick, ByteAt, BitOf, Meets, MeetsByte;
    MaskIsPlace(k);
    PlaceAnd(k / 8, ByteMask(k % 8), ByteAt(s, i), ByteAt(s, i + 1), ByteAt(s, i + 2), ByteAt(s, i + 3),
             ByteAt(s, i + 4), ByteAt(s, i + 5), ByteAt(s, i + 6), ByteAt(s, i + 7));
    PickAt(s, i, k / 8);
    ByteMaskAnd(ByteAt(s, i + k / 8), k % 8);
    assert (8 * i + k) / 8 == i + k / 8 && (8 * i + k) % 8 == k % 8;
  }

  function SkipWord(bit: bool): Word { if bit then 0 else 0xFFFF_FFFF_FFFF_FFFF }

  lemma SkipEight(s: seq<Byte>, bit: bool, i: nat)
    requires NoneBefore(s, bit, 8 * i) && WordAt(s, i) == SkipWord(bit)
    ensures NoneBefore(s, bit, 8 * i + 64)
  {
    JoinZero(ByteAt(s, i), ByteAt(s, i + 1), ByteAt(s, i + 2), ByteAt(s, i + 3),
             ByteAt(s, i + 4), ByteAt(s, i + 5), ByteAt(s, i + 6), ByteAt(s, i + 7));
    JoinOnes(ByteAt(s, i), ByteAt(s, i + 1), ByteAt(s, i + 2), ByteAt(s, i + 3),
             ByteAt(s, i + 4), ByteAt(s, i + 5), ByteAt(s, i + 6), ByteAt(s, i + 7));
    hide Join, ByteAt, NoneBefore;
    SkipOne(s, bit, i);
    SkipOne(s, bit, i + 1);
    SkipOne(s, bit, i + 2);
    SkipOne(s, bit, i + 3);
    SkipOne(s, bit, i + 4);
    SkipOne(s, bit, i + 5);
    SkipOne(s, bit, i + 6);
    SkipOne(s, bit, i + 7);
  }

  function Shifted(w: Word, b: Byte): Word { (w << 8) | (b as Word) }

  /** The word built from the bytes that are left, a byte at a time. */
  function Loaded(s: seq<Byte>, i: nat, j: nat): Word {
    if j == 0 then 0 else Shifted(Loaded(s, i, j - 1), ByteAt(s, i + j - 1))
  }

  lemma ShiftJoin(b0: Byte, b1: Byte, b2: Byte, b3: Byte, b4: Byte, b5: Byte, b6: Byte, b7: Byte)
    ensures Shifted(Join(0, b0, b1, b2, b3, b4, b5, b6), b7) == Join(b0, b1, b2, b3, b4, b5, b6, b7)
  {
  }

  lemma LoadedIsWord(s: seq<Byte>, i: nat)
    ensures Loaded(s, i, 8) == WordAt(s, i)
  {
    var b0, b1, b2, b3 := ByteAt(s, i), ByteAt(s, i + 1), ByteAt(s, i + 2), ByteAt(s, i + 3);
    var b4, b5, b6, b7 := ByteAt(s, i + 4), ByteAt(s, i + 5), ByteAt(s, i + 6), ByteAt(s, i + 7);
    assert Join(0, 0, 0, 0, 0, 0, 0, 0) == 0;
    hide Join, ByteAt, Shifted;
    ShiftJoin(0, 0, 0, 0, 0, 0, 0, b0);
    assert Loaded(s, i, 1) == Join(0, 0, 0, 0, 0, 0, 0, b0);
    ShiftJoin(0, 0, 0, 0, 0, 0, b0, b1);
    assert Loaded(s, i, 2) == Join(0, 0, 0, 0, 0, 0, b0, b1);
    ShiftJoin(0, 0, 0, 0, 0, b0, b1, b2);
    assert Loaded(s, i, 3) == Join(0, 0, 0, 0, 0, b0, b1, b2);
    ShiftJoin(0, 0, 0, 0, b0, b1, b2, b3);
    assert Loaded(s, i, 4) == Join(0, 0, 0, 0, b0, b1, b2, b3);
    ShiftJoin(0, 0, 0, b0, b1, b2, b3, b4);
    assert Loaded(s, i, 5) == Join(0, 0, 0, b0, b1, b2, b3, b4);
    ShiftJoin(0, 0, b0, b1, b2, b3, b4, b5);
    assert Loaded(s, i, 6) == Join(0, 0, b0, b1, b2, b3, b4, b5);
    ShiftJoin(0, b0, b1, b2, b3, b4, b5, b6);
    assert Loaded(s, i, 7) == Join(0, b0, b1, b2, b3, b4, b5, b6);
    ShiftJoin(b0, b1, b2, b3, b4, b5, b6, b7);
  }

  lemma ByteOfBits(b: Byte, bit: bool)
    requires forall r | 0 <= r < 8 :: BitOf(b, r) != bit
    ensures b == SkipByte(bit)
  {
    var r0, r1, r2, r3 := BitOf(b, 0), BitOf(b, 1), BitOf(b, 2), BitOf(b, 3);
    var r4, r5, r6, r7 := BitOf(b, 4), BitOf(b, 5), BitOf(b, 6), BitOf(b, 7);
  }

  lemma ByteOfString(s: seq<Byte>, bit: bool, i: nat, from: nat)
    requires from <= 8 * i && forall j | from <= j < 8 * i + 8 :: BitAt(s, j) != bit
    ensures ByteAt(s, i) == SkipByte(bit)
  {
    hide BitOf, SkipByte, ByteAt;
    forall r | 0 <= r < 8 ensures BitOf(ByteAt(s, i), r) != bit {
      assert BitAt(s, 8 * i + r) != bit;
      assert (8 * i + r) / 8 == i && (8 * i + r) % 8 == r;
    }
    ByteOfBits(ByteAt(s, i), bit);
  }

  /** A word without the bit would have been skipped. */
  lemma WordOfBits(s: seq<Byte>, bit: bool, i: nat)
    requires forall j | 8 * i <= j < 8 * i + 64 :: BitAt(s, j) != bit
    ensures WordAt(s, i) == SkipWord(bit)
  {
    hide BitAt, Join, ByteAt;
    ByteOfString(s, bit, i, 8 * i);
    ByteOfString(s, bit, i + 1, 8 * i);
    ByteOfString(s, bit, i + 2, 8 * i);
    ByteOfString(s, bit, i + 3, 8 * i);
    ByteOfString(s, bit, i + 4, 8 * i);
    ByteOfString(s, bit, i + 5, 8 * i);
    ByteOfString(s, bit, i + 6, 8 * i);
    ByteOfString(s, bit, i + 7, 8 * i);
    JoinZero(ByteAt(s, i), ByteAt(s, i + 1), ByteAt(s, i + 2), ByteAt(s, i + 3),
             ByteAt(s, i + 4), ByteAt(s, i + 5), ByteAt(s, i + 6), ByteAt(s, i + 7));
    JoinOnes(ByteAt(s, i), ByteAt(s, i + 1), ByteAt(s, i + 2), ByteAt(s, i + 3),
             ByteAt(s, i + 4), ByteAt(s, i + 5), ByteAt(s, i + 6), ByteAt(s, i + 7));
  }

  lemma SkippedWordBytes(s: seq<Byte>, bit: bool, i: nat)
    requires WordAt(s, i) == SkipWord(bit)
    ensures ByteAt(s, i) == SkipByte(bit) && ByteAt(s, i + 7) == SkipByte(bit)
  {
  }

  lemma PaddingIsZero(s: seq<Byte>, i: nat)
    requires i >= 8 * |s|
    ensures !BitAt(s, i)
  {
  }

  // ------------------------------------------------------------------ The loops

  /** Skips bytes, then words; if it stops inside the string, it stops at a word that holds the bit. */
  method SkipAhead(s: array<Byte>, address: nat, bit: bool) returns (c: nat)
    ensures c <= s.Length && NoneBefore(s[..], bit, 8 * c)
    ensures c + 8 <= s.Length ==> WordAt(s[..], c) != SkipWord(bit)
  {
    hide BitAt, WordAt, SkipWord, SkipByte, NoneBefore;
    ghost var t := s[..];
    var found := false;
    c := 0;
    assert NoneBefore(t, bit, 0) by { NoneAtAll(t, bit); }
    while (address + c) % 8 != 0 && c < s.Length
      invariant c <= s.Length && NoneBefore(t, bit, 8 * c) && !found
      decreases s.Length - c
    {
      if s[c] != SkipByte(bit) {
        found := true;
        break;
      }
      SkipOne(t, bit, c);
      c := c + 1;
    }
    if found {
      if WordAt(t, c) == SkipWord(bit) {
        SkippedWordBytes(t, bit, c);
      }
      return;
    }
    while s.Length - c >= 8
      invariant c <= s.Length && NoneBefore(t, bit, 8 * c)
    {
      if WordAt(s[..], c) != SkipWord(bit) {
        break;
      }
      SkipEight(t, bit, c);
      c := c + 8;
    }
  }

  lemma NoneAtAll(s: seq<Byte>, bit: bool)
    ensures NoneBefore(s, bit, 0)
  {
  }

  method LoadWord(s: array<Byte>, c: nat) returns (word: Word)
    ensures word == WordAt(s[..], c)
  {
    hide Shifted, WordAt;
    word := 0;
    for j := 0 to 8
      invariant word == Loaded(s[..], c, j)
    {
      word := Shifted(word, if c + j < s.Length then s[c + j] else 0);
    }
    LoadedIsWord(s[..], c);
  }

  /** Looks for the bit in the word at byte `c`; it is there. */
  method ScanWord(word: Word, bit: bool, ghost s: seq<Byte>, c: nat) returns (pos: nat)
    requires word == WordAt(s, c) && word != SkipWord(bit) && NoneBefore(s, bit, 8 * c)
    ensures IsFirst(s, bit, pos)
  {
    hide Mask, Meets, BitAt, WordAt, Half, SkipWord;
    pos := 8 * c;
    ghost var k := 0;
    var one: Word := 0x8000_0000_0000_0000;
    assert one == Mask(0) by { MaskIsPlace(0); MaskFirst(); }
    while one != 0
      invariant k <= 64 && pos == 8 * c + k && one == (if k < 64 then Mask(k) else 0)
      invariant NoneBefore(s, bit, pos)
      decreases 64 - k
    {
      if k < 64 {
        WordBit(s, c, k);
        MaskStep(k);
      }
      if Meets(one, word) == bit {
        return;
      }
      pos := pos + 1;
      k := k + 1;
      one := Half(one);
    }
    assert k == 64 by { if k < 64 { MaskIsPlace(k); } }
    WordOfBits(s, bit, c);
    assert false;
  }

  lemma MaskFirst()
    ensures Mask(0) == 0x8000_0000_0000_0000
  {
  }

  lemma MaskStep(k: nat)
    requires k < 64
    ensures Half(Mask(k)) == if k < 63 then Mask(k + 1) else 0
  {
    if k == 63 {
      MaskIsPlace(63);
      LastPlace();
    }
  }

  lemma LastPlace()
    ensures Half(Place(7, ByteMask(7))) == 0
  {
  }

  /** Where a zero is sought, the padding provides it. */
  lemma HoldsBit(s: seq<Byte>, bit: bool, c: nat)
    requires c <= |s| && (c + 8 <= |s| ==> WordAt(s, c) != SkipWord(bit)) && !(bit && WordAt(s, c) == 0)
    ensures WordAt(s, c) != SkipWord(bit)
  {
  }

  /** The first position of the bit in the zero-padded string, or -1 if a one is sought in vain. */
  method RedisBitpos(s: array<Byte>, address: nat, bit: bool) returns (pos: int)
    ensures pos == -1 <==> bit && forall i | 0 <= i < 8 * s.Length :: !BitAt(s[..], i)
    ensures pos != -1 ==> pos >= 0 && IsFirst(s[..], bit, pos)
  {
    ghost var t := s[..];
    var c := SkipAhead(s, address, bit);
    var word := LoadWord(s, c);
    hide BitAt, WordAt;
    if bit && word == 0 {
      SkipEight(t, bit, c);
      return -1;
    }
    HoldsBit(t, bit, c);
    var p := ScanWord(word, bit, t, c);
    if bit {
      if p >= 8 * s.Length { PaddingIsZero(t, p); }
      assert p < 8 * s.Length && BitAt(s[..], p);
    }
    pos := p;
  }
}
