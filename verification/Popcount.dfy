/**
 Counting the set bits of a string (bitops.c): up to three bytes to reach an aligned address, then
 groups of seven 32-bit words added lane by lane, then the bytes that are left.
 */
module Popcount {

  type Byte = bv8
  type Word = bv32

  // ------------------------------------------------------------- What is counted

  function Bit(b: Byte, k: nat): nat
    requires k < 8
  {
    if (b >> k) & 1 == 1 then 1 else 0
  }

  function BitsIn(b: Byte): nat {
    Bit(b, 0) + Bit(b, 1) + Bit(b, 2) + Bit(b, 3) + Bit(b, 4) + Bit(b, 5) + Bit(b, 6) + Bit(b, 7)
  }

  /** How many bits of the string are set. */
  function CountBits(s: seq<Byte>): nat {
    if s == [] then 0 else CountBits(s[..|s| - 1]) + BitsIn(s[|s| - 1])
  }

  lemma {:induction false} CountConcat(s: seq<Byte>, t: seq<Byte>)
    ensures CountBits(s + t) == CountBits(s) + CountBits(t)
    decreases |t|
  {
    if t == [] {
      assert s + t == s;
    } else {
      var u := t[..|t| - 1];
      CountConcat(s, u);
      assert (s + t)[..|s + t| - 1] == s + u;
    }
  }

  // ------------------------------------------------------------------- One word

  /** Four bytes side by side in a word. */
  function Lanes(a: Byte, b: Byte, c: Byte, d: Byte): Word {
    (a as Word) | ((b as Word) << 8) | ((c as Word) << 16) | ((d as Word) << 24)
  }

  // The three stages of the count, on all lanes of a word and on one byte.

  function Pairs(w: Word): Word { w - ((w >> 1) & 0x5555_5555) }

  function Fours(w: Word): Word { (w & 0x3333_3333) + ((w >> 2) & 0x3333_3333) }

  function Eights(w: Word): Word { (w + (w >> 4)) & 0x0F0F_0F0F }

  function Pairs1(b: Byte): Byte { b - ((b >> 1) & 0x55) }

  function Fours1(b: Byte): Byte { (b & 0x33) + ((b >> 2) & 0x33) }

  function Eights1(b: Byte): Byte { (b + (b >> 4)) & 0x0F }

  function AddPairs(w: Word): Word { (w & 0x5555_5555) + ((w >> 1) & 0x5555_5555) }

  function AddPairs1(b: Byte): Byte { (b & 0x55) + ((b >> 1) & 0x55) }

  /** The subtraction of the odd bits is an addition of neighbours. */
  lemma PairsAdd(w: Word)
    ensures Pairs(w) == AddPairs(w)
  {
  }

  lemma Pairs1Add(b: Byte)
    ensures Pairs1(b) == AddPairs1(b)
  {
  }

  lemma AddPairsLanes(a: Byte, b: Byte, c: Byte, d: Byte)
    ensures AddPairs(Lanes(a, b, c, d)) == Lanes(AddPairs1(a), AddPairs1(b), AddPairs1(c), AddPairs1(d))
  {
  }

  lemma PairsLanes(a: Byte, b: Byte, c: Byte, d: Byte)
    ensures Pairs(Lanes(a, b, c, d)) == Lanes(Pairs1(a), Pairs1(b), Pairs1(c), Pairs1(d))
  {
    hide *;
    PairsAdd(Lanes(a, b, c, d));
    Pairs1Add(a);
    Pairs1Add(b);
    Pairs1Add(c);
    Pairs1Add(d);
    AddPairsLanes(a, b, c, d);
  }

  lemma FoursLanes(a: Byte, b: Byte, c: Byte, d: Byte)
    ensures Fours(Lanes(a, b, c, d)) == Lanes(Fours1(a), Fours1(b), Fours1(c), Fours1(d))
  {
  }

  lemma EightsLanes(a: Byte, b: Byte, c: Byte, d: Byte)
    requires a & 0x88 == 0 && b & 0x88 == 0 && c & 0x88 == 0 && d & 0x88 == 0
    ensures Eights(Lanes(a, b, c, d)) == Lanes(Eights1(a), Eights1(b), Eights1(c), Eights1(d))
  {
  }

  /** What the three stages make of one byte. */
  function Pop(b: Byte): Byte { Eights1(Fours1(Pairs1(b))) }

  lemma PopIs(b: Byte)
    ensures Pop(b) <= 8 && Pop(b) as int == BitsIn(b)
  {
  }

  lemma EightsReady(b: Byte)
    ensures Fours1(Pairs1(b)) & 0x88 == 0
  {
  }

  function Swar(w: Word): Word { Eights(Fours(Pairs(w))) }

  /** Each lane holds the count of its byte. */
  lemma SwarIsLanes(a: Byte, b: Byte, c: Byte, d: Byte)
    ensures Swar(Lanes(a, b, c, d)) == Lanes(Pop(a), Pop(b), Pop(c), Pop(d))
  {
    hide Lanes, Pairs, Fours, Eights, Pairs1, Fours1, Eights1;
    PairsLanes(a, b, c, d);
    FoursLanes(Pairs1(a), Pairs1(b), Pairs1(c), Pairs1(d));
    EightsReady(a);
    EightsReady(b);
    EightsReady(c);
    EightsReady(d);
    EightsLanes(Fours1(Pairs1(a)), Fours1(Pairs1(b)), Fours1(Pairs1(c)), Fours1(Pairs1(d)));
  }

  // --------------------------------------------------------------- Seven words

  function Plus(v: Word, w: Word): Word { v + w }

  function Plus1(x: Byte, y: Byte): Byte { x + y }

  /** Lanes are added without a carry from one to the next. */
  lemma LanesAdd(a: Byte, b: Byte, c: Byte, d: Byte, e: Byte, f: Byte, g: Byte, h: Byte)
    requires a <= 48 && b <= 48 && c <= 48 && d <= 48 && e <= 8 && f <= 8 && g <= 8 && h <= 8
    ensures Plus(Lanes(a, b, c, d), Lanes(e, f, g, h)) == Lanes(Plus1(a, e), Plus1(b, f), Plus1(c, g), Plus1(d, h))
  {
  }

  /** The product puts the sum of the lanes in the top one. */
  function LaneTotal(w: Word): Word { (w * 0x0101_0101) >> 24 }

  function Four(a: Word, b: Word, c: Word, d: Word): Word { a + b + c + d }

  /** Lanes of six bits each hold what seven words can add up to. */
  function Flat(a: bv6, b: bv6, c: bv6, d: bv6): Word {
    (a as Word) + (b as Word) * 0x100 + (c as Word) * 0x1_0000 + (d as Word) * 0x100_0000
  }

  lemma FlatTotal(a: bv6, b: bv6, c: bv6, d: bv6)
    ensures LaneTotal((a as Word) + (b as Word) * 0x100 + (c as Word) * 0x1_0000 + (d as Word) * 0x100_0000)
         == (a as Word) + (b as Word) + (c as Word) + (d as Word)
  {
  }

  lemma FlatTotalIs(a: bv6, b: bv6, c: bv6, d: bv6)
    ensures LaneTotal(Flat(a, b, c, d)) == Four(a as Word, b as Word, c as Word, d as Word)
  {
    hide LaneTotal;
    FlatTotal(a, b, c, d);
  }

  lemma LanesFlat(a: Byte, b: Byte, c: Byte, d: Byte)
    requires a <= 56 && b <= 56 && c <= 56 && d <= 56
    ensures Lanes(a, b, c, d) == Flat(a as bv6, b as bv6, c as bv6, d as bv6)
  {
  }

  lemma SixBits(a: Byte)
    requires a <= 56
    ensures (a as bv6) as Word == a as Word
  {
  }

  lemma LaneTotalIs(a: Byte, b: Byte, c: Byte, d: Byte)
    requires a <= 56 && b <= 56 && c <= 56 && d <= 56
    ensures LaneTotal(Lanes(a, b, c, d)) == Four(a as Word, b as Word, c as Word, d as Word)
  {
    hide LaneTotal, Lanes, Flat, Four;
    LanesFlat(a, b, c, d);
    FlatTotalIs(a as bv6, b as bv6, c as bv6, d as bv6);
    SixBits(a);
    SixBits(b);
    SixBits(c);
    SixBits(d);
  }

  lemma AddAsInt(x: Byte, y: Byte)
    requires x <= 48 && y <= 8
    ensures (x + y) as int == x as int + y as int && x + y <= 56
  {
  }

  /** The total of the lanes fits in one of them: it is at most 224. */
  lemma FourAsInt(a: Byte, b: Byte, c: Byte, d: Byte)
    requires a <= 56 && b <= 56 && c <= 56 && d <= 56
    ensures (a as Word) + (b as Word) + (c as Word) + (d as Word) <= 224
    ensures ((a as Word) + (b as Word) + (c as Word) + (d as Word)) as int == a as int + b as int + c as int + d as int
  {
  }

  lemma FourIs(a: Byte, b: Byte, c: Byte, d: Byte)
    ensures Four(a as Word, b as Word, c as Word, d as Word)
         == (a as Word) + (b as Word) + (c as Word) + (d as Word)
  {
  }

  lemma TotalAsInt(a: Byte, b: Byte, c: Byte, d: Byte)
    requires a <= 56 && b <= 56 && c <= 56 && d <= 56
    ensures LaneTotal(Lanes(a, b, c, d)) as int == a as int + b as int + c as int + d as int
  {
    hide LaneTotal, Lanes, Four;
    LaneTotalIs(a, b, c, d);
    FourIs(a, b, c, d);
    FourAsInt(a, b, c, d);
  }

  /** The sum of the counts of the first `n` words of a group. */
  function SwarSum(t: seq<Byte>, n: nat): Word
    requires 4 * n <= |t|
  {
    if n == 0 then 0
    else
      var i := 4 * n - 4;
      Plus(SwarSum(t, n - 1), Swar(Lanes(t[i], t[i + 1], t[i + 2], t[i + 3])))
  }

  /** The same of one lane. */
  function LaneSum(t: seq<Byte>, n: nat, lane: nat): Byte
    requires 4 * n <= |t| && lane < 4
  {
    if n == 0 then 0 else Plus1(LaneSum(t, n - 1, lane), Pop(t[4 * n - 4 + lane]))
  }

  lemma {:induction false} LaneSumBound(t: seq<Byte>, n: nat, lane: nat)
    requires 4 * n <= |t| && n <= 7 && lane < 4
    ensures LaneSum(t, n, lane) as int <= 8 * n && LaneSum(t, n, lane) <= 56
    ensures n < 7 ==> LaneSum(t, n, lane) <= 48
    decreases n
  {
    hide Pop;
    if n > 0 {
      LaneSumBound(t, n - 1, lane);
      PopIs(t[4 * n - 4 + lane]);
      AddAsInt(LaneSum(t, n - 1, lane), Pop(t[4 * n - 4 + lane]));
    }
  }

  lemma ZeroLanes()
    ensures Lanes(0, 0, 0, 0) == 0
  {
  }

  lemma PopSmall(b: Byte)
    ensures Pop(b) <= 8
  {
  }

  lemma LaneSumSmall(t: seq<Byte>, n: nat, lane: nat)
    requires 4 * n <= |t| && n < 7 && lane < 4
    ensures LaneSum(t, n, lane) <= 48
  {
    hide LaneSum;
    LaneSumBound(t, n, lane);
  }

  /** No lane of the sum runs over into the next. */
  lemma {:induction false} SwarSumIsLanes(t: seq<Byte>, n: nat)
    requires 4 * n <= |t| && n <= 7
    ensures SwarSum(t, n) == Lanes(LaneSum(t, n, 0), LaneSum(t, n, 1), LaneSum(t, n, 2), LaneSum(t, n, 3))
    decreases n
  {
    hide Pop, Lanes, Swar, Plus, Plus1;
    if n == 0 {
      ZeroLanes();
    } else {
      SwarSumIsLanes(t, n - 1);
      var i := 4 * n - 4;
      SwarIsLanes(t[i], t[i + 1], t[i + 2], t[i + 3]);
      LaneSumSmall(t, n - 1, 0);
      LaneSumSmall(t, n - 1, 1);
      LaneSumSmall(t, n - 1, 2);
      LaneSumSmall(t, n - 1, 3);
      PopSmall(t[i]);
      PopSmall(t[i + 1]);
      PopSmall(t[i + 2]);
      PopSmall(t[i + 3]);
      LanesAdd(LaneSum(t, n - 1, 0), LaneSum(t, n - 1, 1), LaneSum(t, n - 1, 2), LaneSum(t, n - 1, 3),
               Pop(t[i]), Pop(t[i + 1]), Pop(t[i + 2]), Pop(t[i + 3]));
    }
  }

  lemma LaneSumNext(t: seq<Byte>, n: nat, lane: nat)
    requires 0 < n <= 7 && 4 * n <= |t| && lane < 4
    ensures LaneSum(t, n, lane) as int == LaneSum(t, n - 1, lane) as int + BitsIn(t[4 * n - 4 + lane])
  {
    hide Pop, BitsIn;
    LaneSumBound(t, n - 1, lane);
    PopIs(t[4 * n - 4 + lane]);
    AddAsInt(LaneSum(t, n - 1, lane), Pop(t[4 * n - 4 + lane]));
  }

  lemma OneMore(t: seq<Byte>, i: nat)
    requires i < |t|
    ensures CountBits(t[..i + 1]) == CountBits(t[..i]) + BitsIn(t[i])
  {
    hide BitsIn;
    assert t[..i + 1][..i] == t[..i];
  }

  lemma FourMore(t: seq<Byte>, i: nat)
    requires i + 4 <= |t|
    ensures CountBits(t[..i + 4])
         == CountBits(t[..i]) + BitsIn(t[i]) + BitsIn(t[i + 1]) + BitsIn(t[i + 2]) + BitsIn(t[i + 3])
  {
    hide BitsIn;
    OneMore(t, i);
    OneMore(t, i + 1);
    OneMore(t, i + 2);
    OneMore(t, i + 3);
  }

  lemma {:induction false} LaneSumsCount(t: seq<Byte>, n: nat)
    requires 4 * n <= |t| && n <= 7
    ensures LaneSum(t, n, 0) as int + LaneSum(t, n, 1) as int + LaneSum(t, n, 2) as int + LaneSum(t, n, 3) as int
         == CountBits(t[..4 * n])
    decreases n
  {
    hide LaneSum, BitsIn, Pop;
    if n == 0 {
      LaneSumZero(t);
    } else {
      LaneSumsCount(t, n - 1);
      LaneSumNext(t, n, 0);
      LaneSumNext(t, n, 1);
      LaneSumNext(t, n, 2);
      LaneSumNext(t, n, 3);
      FourMore(t, 4 * n - 4);
    }
  }

  lemma LaneSumZero(t: seq<Byte>)
    ensures LaneSum(t, 0, 0) as int + LaneSum(t, 0, 1) as int + LaneSum(t, 0, 2) as int + LaneSum(t, 0, 3) as int == 0
    ensures CountBits(t[..0]) == 0
  {
  }

  /** The count of a group of 28 bytes. */
  function GroupBits(t: seq<Byte>): Word
    requires |t| == 28
  {
    LaneTotal(SwarSum(t, 7))
  }

  lemma GroupBitsIs(t: seq<Byte>)
    requires |t| == 28
    ensures GroupBits(t) as int == CountBits(t)
  {
    hide Lanes, LaneTotal, LaneSum, SwarSum;
    SwarSumIsLanes(t, 7);
    LaneSumBound(t, 7, 0);
    LaneSumBound(t, 7, 1);
    LaneSumBound(t, 7, 2);
    LaneSumBound(t, 7, 3);
    TotalAsInt(LaneSum(t, 7, 0), LaneSum(t, 7, 1), LaneSum(t, 7, 2), LaneSum(t, 7, 3));
    LaneSumsCount(t, 7);
    assert t[..28] == t;
  }

  // ------------------------------------------------------------------ The loops

  lemma GroupMore(t: seq<Byte>, i: nat)
    requires i + 28 <= |t|
    ensures CountBits(t[..i + 28]) == CountBits(t[..i]) + GroupBits(t[i..i + 28]) as int
  {
    hide GroupBits, CountBits;
    GroupBitsIs(t[i..i + 28]);
    CountConcat(t[..i], t[i..i + 28]);
    assert t[..i] + t[i..i + 28] == t[..i + 28];
  }

  /** The count, whatever the alignment of the string's address. */
  method RedisPopcount(s: array<Byte>, address: nat) returns (bits: nat)
    ensures bits == CountBits(s[..])
  {
    hide BitsIn, GroupBits, CountBits;
    ghost var t := s[..];
    assert CountBits(t[..0]) == 0 by { LaneSumZero(t); }
    bits := 0;
    var p := 0;
    while (address + p) % 4 != 0 && p < s.Length
      invariant p <= s.Length && bits == CountBits(t[..p])
      decreases s.Length - p
    {
      OneMore(t, p);
      bits := bits + BitsIn(s[p]);
      p := p + 1;
    }
    while s.Length - p >= 28
      invariant p <= s.Length && bits == CountBits(t[..p])
    {
      GroupMore(t, p);
      assert s[p..p + 28] == t[p..p + 28];
      bits := bits + GroupBits(s[p..p + 28]) as nat;
      p := p + 28;
    }
    while p < s.Length
      invariant p <= s.Length && bits == CountBits(t[..p])
    {
      OneMore(t, p);
      bits := bits + BitsIn(s[p]);
      p := p + 1;
    }
    assert t[..p] == t;
  }
}
