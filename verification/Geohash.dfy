/**
 Cells of the geohash grid (geohash.c).

 A cell of a grid of 2^step by 2^step cells is a word that holds the bits of the latitude index at
 even positions and those of the longitude index at odd ones.  Moving to a neighbour is done inside
 that word, by carries that run through the bits of the other index.
 */
module Geohash {

  type Word = bv64

  const EVEN: Word := 0x5555_5555_5555_5555
  const ODD: Word := 0xAAAA_AAAA_AAAA_AAAA

  // ---------------------------------------------------------------- Interleaving

  /** The lower 32 bits, each moved to twice its position. */
  function Spread(v: Word): Word {
    var v4 := (v | (v << 16)) & 0x0000_FFFF_0000_FFFF;
    var v3 := (v4 | (v4 << 8)) & 0x00FF_00FF_00FF_00FF;
    var v2 := (v3 | (v3 << 4)) & 0x0F0F_0F0F_0F0F_0F0F;
    var v1 := (v2 | (v2 << 2)) & 0x3333_3333_3333_3333;
    (v1 | (v1 << 1)) & EVEN
  }

  /** The bits at even positions, moved together. */
  function Gather(v: Word): Word {
    var v0 := v & EVEN;
    var v1 := (v0 | (v0 >> 1)) & 0x3333_3333_3333_3333;
    var v2 := (v1 | (v1 >> 2)) & 0x0F0F_0F0F_0F0F_0F0F;
    var v3 := (v2 | (v2 >> 4)) & 0x00FF_00FF_00FF_00FF;
    var v4 := (v3 | (v3 >> 8)) & 0x0000_FFFF_0000_FFFF;
    (v4 | (v4 >> 16)) & 0xFFFF_FFFF
  }

  function Interleave(x: Word, y: Word): Word { Spread(x) | (Spread(y) << 1) }

  function Deinterleave(w: Word): Word { Gather(w) | (Gather(w >> 1) << 32) }

  function Bit(v: Word, i: Word): Word
    requires i < 64
  {
    (v >> i) & 1
  }

  /** Bit `i` of `x` goes to position `2i` ... */
  lemma EvenBits(x: Word, y: Word, i: Word)
    requires x <= 0xFFFF_FFFF && i < 32
    ensures Bit(Interleave(x, y), 2 * i) == Bit(x, i)
  {
  }

  /** ... and bit `i` of `y` to position `2i + 1`. */
  lemma OddBits(x: Word, y: Word, i: Word)
    requires y <= 0xFFFF_FFFF && i < 32
    ensures Bit(Interleave(x, y), 2 * i + 1) == Bit(y, i)
  {
  }

  /** Taking apart what was put together gives both parts back ... */
  lemma DeinterleaveOfInterleave(x: Word, y: Word)
    requires x <= 0xFFFF_FFFF && y <= 0xFFFF_FFFF
    ensures Deinterleave(Interleave(x, y)) == x | (y << 32)
  {
  }

  /** ... and putting together what was taken apart gives the word back. */
  lemma InterleaveOfDeinterleave(w: Word)
    ensures Interleave(Deinterleave(w) & 0xFFFF_FFFF, Deinterleave(w) >> 32) == w
  {
  }

  // ----------------------------------------------------------------------- Moves

  /** The greatest index of a grid. */
  function Last(step: Word): Word
    requires 1 <= step <= 32
  {
    (1 << step) - 1
  }

  predicate InGrid(v: Word, step: Word)
    requires 1 <= step <= 32
  {
    v <= Last(step)
  }

  function After(v: Word, last: Word): Word { if v == last then 0 else v + 1 }

  function Ahead(v: Word, last: Word): Word { if v == 0 then last else v - 1 }

  /** The cell after the last one of 2^step is the first. */
  function Next(v: Word, step: Word): Word
    requires 1 <= step <= 32
  {
    After(v, Last(step))
  }

  function Previous(v: Word, step: Word): Word
    requires 1 <= step <= 32
  {
    Ahead(v, Last(step))
  }

  /** The bits of an index that lie in the grid. */
  function Within(v: Word, step: Word): Word
    requires 1 <= step <= 32
  {
    v & ((1 << step) - 1)
  }

  /** A move around the grid; it drops bits above it. */
  function Moved(v: Word, step: Word, d: int): Word
    requires 1 <= step <= 32
  {
    if d == 0 then v else if d > 0 then Next(Within(v, step), step) else Previous(Within(v, step), step)
  }

  // One index moved up or down within the word, the carry or borrow running through the other's bits.

  function UpX(x: Word, step: Word): Word
    requires 1 <= step <= 32
  {
    (x + ((EVEN >> (64 - 2 * step)) + 1)) & (ODD >> (64 - 2 * step))
  }

  function BelowX(x: Word, step: Word): Word
    requires 1 <= step <= 32
  {
    (x | (EVEN >> (64 - 2 * step))) - ((EVEN >> (64 - 2 * step)) + 1)
  }

  function DownX(x: Word, step: Word): Word
    requires 1 <= step <= 32
  {
    BelowX(x, step) & (ODD >> (64 - 2 * step))
  }

  function UpY(y: Word, step: Word): Word
    requires 1 <= step <= 32
  {
    (y + ((ODD >> (64 - 2 * step)) + 1)) & (EVEN >> (64 - 2 * step))
  }

  function BelowY(y: Word, step: Word): Word
    requires 1 <= step <= 32
  {
    (y | (ODD >> (64 - 2 * step))) - ((ODD >> (64 - 2 * step)) + 1)
  }

  function DownY(y: Word, step: Word): Word
    requires 1 <= step <= 32
  {
    BelowY(y, step) & (EVEN >> (64 - 2 * step))
  }

  function OddOf(w: Word): Word { w & ODD }

  function EvenOf(w: Word): Word { w & EVEN }

  function Join(x: Word, y: Word): Word { x | y }

  function MoveX(bits: Word, step: Word, d: int): Word
    requires 1 <= step <= 32
  {
    var x, y := OddOf(bits), EvenOf(bits);
    if d == 0 then bits else Join(if d > 0 then UpX(x, step) else DownX(x, step), y)
  }

  function MoveY(bits: Word, step: Word, d: int): Word
    requires 1 <= step <= 32
  {
    var x, y := OddOf(bits), EvenOf(bits);
    if d == 0 then bits else Join(x, if d > 0 then UpY(y, step) else DownY(y, step))
  }

  function AtOdd(v: Word): Word { Spread(v) << 1 }

  function PlusOne(v: Word): Word { (v + 1) & 0xFFFF_FFFF }

  function MinusOne(v: Word): Word { (v - 1) & 0xFFFF_FFFF }

  /** The bits that a grid of 2^step by 2^step cells uses. */
  function Low(w: Word, step: Word): Word
    requires 1 <= step <= 32
  {
    w & (0xFFFF_FFFF_FFFF_FFFF >> (64 - 2 * step))
  }

  predicate Meets(p: Word, a: Word, b: Word) { p == a & b }

  predicate OddOnly(x: Word) { x & EVEN == 0 }

  predicate EvenOnly(y: Word) { y & ODD == 0 }

  // The same over the whole word ...

  function UpXAll(x: Word): Word { (x + (EVEN + 1)) & ODD }

  function OneLess(v: Word): Word { v - 1 }

  function DownXAll(x: Word): Word { OneLess(x) & ODD }

  function UpYAll(y: Word): Word { (y + (ODD + 1)) & EVEN }

  function DownYAll(y: Word): Word { OneLess(y) & EVEN }

  lemma UpXWhole(v: Word)
    requires v <= 0xFFFF_FFFF
    ensures UpXAll(AtOdd(v)) == AtOdd(PlusOne(v))
  {
  }

  lemma DownXWhole(v: Word)
    requires v <= 0xFFFF_FFFF
    ensures DownXAll(AtOdd(v)) == AtOdd(MinusOne(v))
  {
  }

  lemma UpYWhole(v: Word)
    requires v <= 0xFFFF_FFFF
    ensures UpYAll(Spread(v)) == Spread(PlusOne(v))
  {
  }

  lemma DownYWhole(v: Word)
    requires v <= 0xFFFF_FFFF
    ensures DownYAll(Spread(v)) == Spread(MinusOne(v))
  {
  }

  // ... whose lower part takes no notice of the rest.

  function Mask(step: Word): Word
    requires 1 <= step <= 32
  {
    0xFFFF_FFFF_FFFF_FFFF >> (64 - 2 * step)
  }

  lemma MaskMeets(step: Word)
    requires 1 <= step <= 32
    ensures Meets(ODD >> (64 - 2 * step), ODD, Mask(step)) && Meets(EVEN >> (64 - 2 * step), EVEN, Mask(step))
  {
  }

  lemma LowMeets(w: Word, step: Word)
    requires 1 <= step <= 32
    ensures Meets(Low(w, step), w, Mask(step))
  {
  }

  lemma MeetsTwice(d: Word, o: Word, m: Word, om: Word, r: Word, t: Word, u: Word)
    requires Meets(om, o, m) && Meets(r, d, om) && Meets(t, d, o) && Meets(u, t, m)
    ensures r == u
  {
  }

  /** A mask of the lowest bits cuts the constants off as the shift does. */
  lemma MaskFacts(step: Word)
    requires 1 <= step <= 32
    ensures var m: Word := 0xFFFF_FFFF_FFFF_FFFF >> (64 - 2 * step);
            (m >> 1) | m == m && EVEN >> (64 - 2 * step) == EVEN & m && ODD >> (64 - 2 * step) == ODD & m
  {
  }

  lemma UpXPart(x: Word, m: Word, e: Word, o: Word)
    requires (m >> 1) | m == m && x & EVEN == 0 && e == EVEN & m && o == ODD & m
    ensures (x + (e + 1)) & o == ((x + (EVEN + 1)) & ODD) & m
  {
  }

  lemma UpXLowWord(x: Word, step: Word)
    requires 1 <= step <= 32 && x & EVEN == 0
    ensures (x + ((EVEN >> (64 - 2 * step)) + 1)) & (ODD >> (64 - 2 * step)) ==
            ((x + (EVEN + 1)) & ODD) & (0xFFFF_FFFF_FFFF_FFFF >> (64 - 2 * step))
  {
    MaskFacts(step);
    UpXPart(x, 0xFFFF_FFFF_FFFF_FFFF >> (64 - 2 * step), EVEN >> (64 - 2 * step), ODD >> (64 - 2 * step));
  }

  lemma UpXLow(x: Word, step: Word)
    requires 1 <= step <= 32 && OddOnly(x)
    ensures UpX(x, step) == Low(UpXAll(x), step)
  {
    UpXLowWord(x, step);
  }

  /** Ones in the other index's places, and one more subtracted: that is one less. */
  lemma BelowXIs(x: Word, step: Word)
    requires 1 <= step <= 32 && OddOnly(x)
    ensures BelowX(x, step) == OneLess(x)
  {
  }

  lemma DownXMeets(x: Word, step: Word)
    requires 1 <= step <= 32
    ensures Meets(DownX(x, step), BelowX(x, step), ODD >> (64 - 2 * step))
    ensures Meets(DownXAll(x), OneLess(x), ODD)
  {
    hide BelowX, OneLess;
  }

  lemma DownXLow(x: Word, step: Word)
    requires 1 <= step <= 32 && OddOnly(x)
    ensures DownX(x, step) == Low(DownXAll(x), step)
  {
    hide Meets, BelowX, OneLess, DownX, DownXAll, Low, OddOnly;
    BelowXIs(x, step);
    DownXMeets(x, step);
    MaskMeets(step);
    LowMeets(DownXAll(x), step);
    MeetsTwice(OneLess(x), ODD, Mask(step), ODD >> (64 - 2 * step), DownX(x, step), DownXAll(x),
               Low(DownXAll(x), step));
  }

  lemma UpYPart(y: Word, m: Word, e: Word, o: Word)
    requires (m >> 1) | m == m && y & ODD == 0 && e == ODD & m && o == EVEN & m
    ensures (y + (e + 1)) & o == ((y + (ODD + 1)) & EVEN) & m
  {
  }

  lemma UpYLowWord(y: Word, step: Word)
    requires 1 <= step <= 32 && y & ODD == 0
    ensures (y + ((ODD >> (64 - 2 * step)) + 1)) & (EVEN >> (64 - 2 * step)) ==
            ((y + (ODD + 1)) & EVEN) & (0xFFFF_FFFF_FFFF_FFFF >> (64 - 2 * step))
  {
    MaskFacts(step);
    UpYPart(y, 0xFFFF_FFFF_FFFF_FFFF >> (64 - 2 * step), ODD >> (64 - 2 * step), EVEN >> (64 - 2 * step));
  }

  lemma UpYLow(y: Word, step: Word)
    requires 1 <= step <= 32 && EvenOnly(y)
    ensures UpY(y, step) == Low(UpYAll(y), step)
  {
    UpYLowWord(y, step);
  }

  /** Ones in the other index's places, and one more subtracted: that is one less. */
  lemma BelowYIs(y: Word, step: Word)
    requires 1 <= step <= 32 && EvenOnly(y)
    ensures BelowY(y, step) == OneLess(y)
  {
  }

  lemma DownYMeets(y: Word, step: Word)
    requires 1 <= step <= 32
    ensures Meets(DownY(y, step), BelowY(y, step), EVEN >> (64 - 2 * step))
    ensures Meets(DownYAll(y), OneLess(y), EVEN)
  {
    hide BelowY, OneLess;
  }

  lemma DownYLow(y: Word, step: Word)
    requires 1 <= step <= 32 && EvenOnly(y)
    ensures DownY(y, step) == Low(DownYAll(y), step)
  {
    hide Meets, BelowY, OneLess, DownY, DownYAll, Low, EvenOnly;
    BelowYIs(y, step);
    DownYMeets(y, step);
    MaskMeets(step);
    LowMeets(DownYAll(y), step);
    MeetsTwice(OneLess(y), EVEN, Mask(step), EVEN >> (64 - 2 * step), DownY(y, step), DownYAll(y),
               Low(DownYAll(y), step));
  }

  lemma SpreadLowWord(v: Word, step: Word)
    requires 1 <= step <= 32 && v <= 0xFFFF_FFFF
    ensures Spread(v) & (0xFFFF_FFFF_FFFF_FFFF >> (64 - 2 * step)) == Spread(v & ((1 << step) - 1))
  {
  }

  lemma SpreadLow(v: Word, step: Word)
    requires 1 <= step <= 32 && v <= 0xFFFF_FFFF
    ensures Low(Spread(v), step) == Spread(Within(v, step))
  {
    hide Spread;
    SpreadLowWord(v, step);
    assert Within(v, step) == v & ((1 << step) - 1);
    assert Low(Spread(v), step) == Spread(v) & (0xFFFF_FFFF_FFFF_FFFF >> (64 - 2 * step));
  }

  lemma AtOddLowWord(v: Word, step: Word)
    requires 1 <= step <= 32 && v <= 0xFFFF_FFFF
    ensures AtOdd(v) & (0xFFFF_FFFF_FFFF_FFFF >> (64 - 2 * step)) == AtOdd(v & ((1 << step) - 1))
  {
  }

  lemma AtOddLow(v: Word, step: Word)
    requires 1 <= step <= 32 && v <= 0xFFFF_FFFF
    ensures Low(AtOdd(v), step) == AtOdd(Within(v, step))
  {
    hide AtOdd;
    AtOddLowWord(v, step);
    assert Within(v, step) == v & ((1 << step) - 1);
    assert Low(AtOdd(v), step) == AtOdd(v) & (0xFFFF_FFFF_FFFF_FFFF >> (64 - 2 * step));
  }

  predicate LowOnes(m: Word) { (m >> 1) | m == m && m & 0xFFFF_FFFF == m }

  lemma LastIsOnes(step: Word)
    requires 1 <= step <= 32
    ensures LowOnes(Last(step))
  {
  }

  lemma WithinMeets(v: Word, step: Word)
    requires 1 <= step <= 32
    ensures Meets(Within(v, step), v, Last(step))
  {
  }

  lemma NextPart(v: Word, m: Word, p: Word, w: Word)
    requires LowOnes(m) && Meets(p, v, m) && Meets(w, PlusOne(v), m)
    ensures w == After(p, m)
  {
  }

  lemma PreviousPart(v: Word, m: Word, p: Word, w: Word)
    requires LowOnes(m) && Meets(p, v, m) && Meets(w, MinusOne(v), m)
    ensures w == Ahead(p, m)
  {
  }

  lemma NextIs(v: Word, step: Word)
    requires 1 <= step <= 32
    ensures Within(PlusOne(v), step) == Next(Within(v, step), step)
  {
    hide LowOnes, Meets, Within, PlusOne, Last, After;
    LastIsOnes(step);
    WithinMeets(v, step);
    WithinMeets(PlusOne(v), step);
    NextPart(v, Last(step), Within(v, step), Within(PlusOne(v), step));
  }

  lemma PreviousIs(v: Word, step: Word)
    requires 1 <= step <= 32
    ensures Within(MinusOne(v), step) == Previous(Within(v, step), step)
  {
    hide LowOnes, Meets, Within, MinusOne, Last, Ahead;
    LastIsOnes(step);
    WithinMeets(v, step);
    WithinMeets(MinusOne(v), step);
    PreviousPart(v, Last(step), Within(v, step), Within(MinusOne(v), step));
  }

  /** In the grid, a move is to the next cell or the one before, around the edge. */
  lemma MovedInGrid(v: Word, step: Word, d: int)
    requires 1 <= step <= 32 && InGrid(v, step)
    ensures Moved(v, step, d) == if d == 0 then v else if d > 0 then Next(v, step) else Previous(v, step)
    ensures InGrid(Moved(v, step, d), step)
  {
    hide Next, Previous, InGrid, Within;
    InGridWithin(v, step);
    AroundInGrid(v, step);
  }

  lemma InGridWithin(v: Word, step: Word)
    requires 1 <= step <= 32 && InGrid(v, step)
    ensures Within(v, step) == v
  {
  }

  lemma AroundInGrid(v: Word, step: Word)
    requires 1 <= step <= 32 && InGrid(v, step)
    ensures InGrid(Next(v, step), step) && InGrid(Previous(v, step), step)
  {
  }

  lemma OddPlaces(v: Word)
    ensures OddOnly(AtOdd(v))
  {
  }

  lemma EvenPlaces(v: Word)
    ensures EvenOnly(Spread(v))
  {
  }

  lemma HalfWords(v: Word)
    ensures PlusOne(v) <= 0xFFFF_FFFF && MinusOne(v) <= 0xFFFF_FFFF
  {
  }

  lemma OddPart(lat: Word, long: Word)
    ensures OddOf(Interleave(lat, long)) == AtOdd(long)
  {
  }

  lemma EvenPart(lat: Word, long: Word)
    ensures EvenOf(Interleave(lat, long)) == Spread(lat)
  {
  }

  lemma Rejoin(x: Word, y: Word)
    ensures Join(AtOdd(y), Spread(x)) == Interleave(x, y)
  {
    hide Spread;
    assert AtOdd(y) == Spread(y) << 1;
    OrSwap(Spread(x), Spread(y) << 1);
  }

  lemma OrSwap(x: Word, y: Word)
    ensures x | y == Join(y, x)
  {
  }

  lemma UpXIs(v: Word, step: Word)
    requires 1 <= step <= 32 && v <= 0xFFFF_FFFF
    ensures UpX(AtOdd(v), step) == AtOdd(Next(Within(v, step), step))
  {
    hide OddOnly, AtOdd, Low, Within, UpX, UpXAll, PlusOne, Next;
    HalfWords(v);
    OddPlaces(v);
    UpXLow(AtOdd(v), step);
    UpXWhole(v);
    AtOddLow(PlusOne(v), step);
    NextIs(v, step);
  }

  lemma DownXIs(v: Word, step: Word)
    requires 1 <= step <= 32 && v <= 0xFFFF_FFFF
    ensures DownX(AtOdd(v), step) == AtOdd(Previous(Within(v, step), step))
  {
    hide OddOnly, AtOdd, Low, Within, DownX, DownXAll, MinusOne, Previous;
    HalfWords(v);
    OddPlaces(v);
    DownXLow(AtOdd(v), step);
    DownXWhole(v);
    AtOddLow(MinusOne(v), step);
    PreviousIs(v, step);
  }

  lemma UpYIs(v: Word, step: Word)
    requires 1 <= step <= 32 && v <= 0xFFFF_FFFF
    ensures UpY(Spread(v), step) == Spread(Next(Within(v, step), step))
  {
    hide EvenOnly, Spread, Low, Within, UpY, UpYAll, PlusOne, Next;
    HalfWords(v);
    EvenPlaces(v);
    UpYLow(Spread(v), step);
    UpYWhole(v);
    SpreadLow(PlusOne(v), step);
    NextIs(v, step);
  }

  lemma DownYIs(v: Word, step: Word)
    requires 1 <= step <= 32 && v <= 0xFFFF_FFFF
    ensures DownY(Spread(v), step) == Spread(Previous(Within(v, step), step))
  {
    hide EvenOnly, Spread, Low, Within, DownY, DownYAll, MinusOne, Previous;
    HalfWords(v);
    EvenPlaces(v);
    DownYLow(Spread(v), step);
    DownYWhole(v);
    SpreadLow(MinusOne(v), step);
    PreviousIs(v, step);
  }

  /** A move along x is a move of the longitude index around the grid. */
  lemma MoveXIs(lat: Word, long: Word, step: Word, d: int)
    requires 1 <= step <= 32 && long <= 0xFFFF_FFFF
    ensures MoveX(Interleave(lat, long), step, d) == Interleave(lat, Moved(long, step, d))
  {
    hide AtOdd, Interleave, UpX, DownX, Spread, OddOf, EvenOf, Next, Previous, Within, Join;
    if d != 0 {
      OddPart(lat, long);
      EvenPart(lat, long);
      if d > 0 { UpXIs(long, step); } else { DownXIs(long, step); }
      Rejoin(lat, Moved(long, step, d));
    }
  }

  /** A move along y is a move of the latitude index around the grid. */
  lemma MoveYIs(lat: Word, long: Word, step: Word, d: int)
    requires 1 <= step <= 32 && lat <= 0xFFFF_FFFF
    ensures MoveY(Interleave(lat, long), step, d) == Interleave(Moved(lat, step, d), long)
  {
    hide AtOdd, Interleave, UpY, DownY, Spread, OddOf, EvenOf, Next, Previous, Within, Join;
    if d != 0 {
      OddPart(lat, long);
      EvenPart(lat, long);
      if d > 0 { UpYIs(lat, step); } else { DownYIs(lat, step); }
      Rejoin(Moved(lat, step, d), long);
    }
  }

  /** A cell, moved in place. */
  class Cell {
    var bits: Word
    var step: Word

    constructor Copy(c: Cell)
      ensures bits == c.bits && step == c.step
    {
      bits, step := c.bits, c.step;
    }

    method GoX(d: int)
      requires 1 <= step <= 32
      modifies this`bits
      ensures bits == MoveX(old(bits), step, d)
    {
      hide OddOf, EvenOf, Join, UpX, DownX;
      if d == 0 {
        return;
      }
      var x, y := OddOf(bits), EvenOf(bits);
      if d > 0 {
        x := UpX(x, step);
      } else {
        x := DownX(x, step);
      }
      bits := Join(x, y);
    }

    method GoY(d: int)
      requires 1 <= step <= 32
      modifies this`bits
      ensures bits == MoveY(old(bits), step, d)
    {
      hide OddOf, EvenOf, Join, UpY, DownY;
      if d == 0 {
        return;
      }
      var x, y := OddOf(bits), EvenOf(bits);
      if d > 0 {
        y := UpY(y, step);
      } else {
        y := DownY(y, step);
      }
      bits := Join(x, y);
    }
  }

  function Lat(bits: Word): Word { Deinterleave(bits) & 0xFFFF_FFFF }

  function Long(bits: Word): Word { Deinterleave(bits) >> 32 }

  lemma Halves(bits: Word)
    ensures Lat(bits) <= 0xFFFF_FFFF && Long(bits) <= 0xFFFF_FFFF && Interleave(Lat(bits), Long(bits)) == bits
  {
    InterleaveOfDeinterleave(bits);
    hide Interleave, Deinterleave;
    HalfBounds(Deinterleave(bits));
  }

  lemma HalfBounds(w: Word)
    ensures w & 0xFFFF_FFFF <= 0xFFFF_FFFF && w >> 32 <= 0xFFFF_FFFF
  {
  }

  /** The word of the cell `dx` to the east and `dy` to the north. */
  function At(bits: Word, step: Word, dx: int, dy: int): Word
    requires 1 <= step <= 32
  {
    Interleave(Moved(Lat(bits), step, dy), Moved(Long(bits), step, dx))
  }

  lemma BothMoves(bits: Word, step: Word, dx: int, dy: int)
    requires 1 <= step <= 32
    ensures MoveY(MoveX(bits, step, dx), step, dy) == At(bits, step, dx, dy)
  {
    hide MoveX, MoveY, Interleave, Moved, Lat, Long;
    Halves(bits);
    MoveXIs(Lat(bits), Long(bits), step, dx);
    MoveYIs(Lat(bits), Moved(Long(bits), step, dx), step, dy);
  }

  method Neighbour(hash: Cell, dx: int, dy: int) returns (c: Cell)
    requires 1 <= hash.step <= 32
    ensures fresh(c) && c.step == hash.step && c.bits == At(hash.bits, hash.step, dx, dy)
  {
    hide MoveX, MoveY, At;
    c := new Cell.Copy(hash);
    BothMoves(hash.bits, hash.step, dx, dy);
    c.GoX(dx);
    c.GoY(dy);
  }

  /** Each of the eight is one cell away in its direction, for every word. */
  method Neighbours(hash: Cell)
    returns (east: Cell, west: Cell, south: Cell, north: Cell,
             northWest: Cell, northEast: Cell, southEast: Cell, southWest: Cell)
    requires 1 <= hash.step <= 32
    ensures east.bits == At(hash.bits, hash.step, 1, 0) && west.bits == At(hash.bits, hash.step, -1, 0)
    ensures south.bits == At(hash.bits, hash.step, 0, -1) && north.bits == At(hash.bits, hash.step, 0, 1)
    ensures northWest.bits == At(hash.bits, hash.step, -1, 1) && northEast.bits == At(hash.bits, hash.step, 1, 1)
    ensures southEast.bits == At(hash.bits, hash.step, 1, -1) && southWest.bits == At(hash.bits, hash.step, -1, -1)
  {
    hide At;
    east := Neighbour(hash, 1, 0);
    west := Neighbour(hash, -1, 0);
    south := Neighbour(hash, 0, -1);
    north := Neighbour(hash, 0, 1);
    northWest := Neighbour(hash, -1, 1);
    northEast := Neighbour(hash, 1, 1);
    southEast := Neighbour(hash, 1, -1);
    southWest := Neighbour(hash, -1, -1);
  }
}
