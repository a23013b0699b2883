/**
 Integers of any width from 1 to 64 bits at any bit of a string (bitops.c).

 Unsigned 64-bit words are naturals below 2^64 and signed ones integers from -2^63 up to 2^63; shifts,
 masks and wrap-around are written as division and remainder by powers of two.
 */
module Bitfield {

  import opened Options
  import opened Bitpos

  const TWO63: int := 0x8000_0000_0000_0000
  const TWO64: int := 0x1_0000_0000_0000_0000

  // -------------------------------------------------------------------- Numbers

  function Pow2(n: nat): (r: nat)
    ensures r >= 1
  {
    if n == 0 then 1 else 2 * Pow2(n - 1)
  }

  lemma Pow2Next(n: nat)
    requires n >= 1
    ensures Pow2(n) == 2 * Pow2(n - 1)
  {
  }

  lemma {:induction false} Pow2Monotone(m: nat, n: nat)
    requires m <= n
    ensures Pow2(m) <= Pow2(n)
    decreases n
  {
    if m < n { Pow2Monotone(m, n - 1); }
  }

  lemma Pow2Of63()
    ensures Pow2(63) == TWO63 && Pow2(64) == TWO64
  {
    assert Pow2(8) == 0x100;
    assert Pow2(16) == 0x1_0000;
    assert Pow2(24) == 0x100_0000;
    assert Pow2(32) == 0x1_0000_0000;
    assert Pow2(40) == 0x100_0000_0000;
    assert Pow2(48) == 0x1_0000_0000_0000;
    assert Pow2(56) == 0x100_0000_0000_0000;
  }

  /** The number that a row of bits stands for, most significant first. */
  function ValueOf(b: seq<bool>): nat {
    if b == [] then 0 else 2 * ValueOf(b[..|b| - 1]) + (if b[|b| - 1] then 1 else 0)
  }

  /** The lower `n` bits of a number. */
  function Digits(v: nat, n: nat): (d: seq<bool>)
    ensures |d| == n
  {
    if n == 0 then [] else Digits(v / 2, n - 1) + [v % 2 == 1]
  }

  lemma {:induction false} ValueBound(b: seq<bool>)
    ensures ValueOf(b) < Pow2(|b|)
    decreases |b|
  {
    if b != [] { ValueBound(b[..|b| - 1]); }
  }

  lemma HalfOfMod(v: nat, p: nat)
    requires p >= 1
    ensures v % (2 * p) == 2 * ((v / 2) % p) + v % 2
  {
    var q, r := (v / 2) / p, (v / 2) % p;
    assert v / 2 == q * p + r;
    assert v == (2 * p) * q + (2 * r + v % 2);
    ModUnique(v, 2 * p, q, 2 * r + v % 2);
  }

  lemma ModUnique(v: int, p: nat, q: int, r: int)
    requires p >= 1 && v == p * q + r && 0 <= r < p
    ensures v % p == r && v / p == q
  {
    var q1, r1 := v / p, v % p;
    assert v == p * q1 + r1;
    NoMultipleBetween(p, q - q1, r1 - r);
  }

  lemma NoMultipleBetween(p: int, d: int, e: int)
    requires -p < e < p && p * d == e
    ensures d == 0
  {
  }

  /** Writing the lower bits and reading them gives the number modulo 2^n. */
  lemma {:induction false} ValueOfDigits(v: nat, n: nat)
    ensures ValueOf(Digits(v, n)) == v % Pow2(n)
    decreases n
  {
    if n > 0 {
      ValueOfDigits(v / 2, n - 1);
      HalfOfMod(v, Pow2(n - 1));
      assert Digits(v, n)[..n - 1] == Digits(v / 2, n - 1);
    }
  }

  lemma {:induction false} DigitAt(v: nat, n: nat, j: nat)
    requires j < n
    ensures Digits(v, n)[j] == ((v / Pow2(n - 1 - j)) % 2 == 1)
    decreases n
  {
    if j < n - 1 {
      DigitAt(v / 2, n - 1, j);
      DivDiv(v, Pow2(n - 2 - j));
    }
  }

  lemma DivDiv(v: nat, p: nat)
    requires p >= 1
    ensures (v / 2) / p == v / (2 * p)
  {
    var q, r := (v / 2) / p, (v / 2) % p;
    assert v / 2 == p * q + r;
    assert v == (2 * p) * q + (2 * r + v % 2);
    ModUnique(v, 2 * p, q, 2 * r + v % 2);
  }

  /** Digits are those of the number modulo 2^n. */
  lemma {:induction false} DigitsOfValue(b: seq<bool>)
    ensures Digits(ValueOf(b), |b|) == b
    decreases |b|
  {
    if b != [] {
      DigitsOfValue(b[..|b| - 1]);
    }
  }

  // --------------------------------------------------------------- Single bits

  /** The bits from `offset` on, of the string padded with zeroes. */
  function Field(s: seq<Byte>, offset: nat, bits: nat): seq<bool> {
    seq(bits, j requires 0 <= j < bits => BitAt(s, offset + j))
  }

  function WithBit(b: Byte, r: nat, v: bool): Byte
    requires r < 8
  {
    Replace(b, ByteMask(r), if v then ByteMask(r) else 0)
  }

  function Replace(b: Byte, mask: Byte, x: Byte): Byte { (b & !mask) | x }

  lemma MasksApart(r: nat, q: nat)
    requires r < 8 && q < 8 && r != q
    ensures !MeetsByte(ByteMask(r), ByteMask(q))
  {
  }

  lemma KeptByte(b: Byte, m: Byte, x: Byte, n: Byte)
    requires !MeetsByte(m, n) && (x == m || x == 0)
    ensures MeetsByte(n, Replace(b, m, x)) == MeetsByte(n, b)
  {
  }

  lemma BitWritten(b: Byte, r: nat, v: bool)
    requires r < 8
    ensures BitOf(WithBit(b, r, v), r) == v
  {
  }

  lemma BitKept(b: Byte, r: nat, v: bool, q: nat)
    requires r < 8 && q < 8 && q != r
    ensures BitOf(WithBit(b, r, v), q) == BitOf(b, q)
  {
    hide ByteMask, MeetsByte, BitOf, Replace;
    MasksApart(r, q);
    KeptByte(b, ByteMask(r), if v then ByteMask(r) else 0, ByteMask(q));
    ByteMaskAnd(WithBit(b, r, v), q);
    ByteMaskAnd(b, q);
  }

  /** Writing one bit of a string leaves all others as they are. */
  lemma OneBitWritten(s: seq<Byte>, t: seq<Byte>, offset: nat, v: bool, i: nat)
    requires offset < 8 * |s| && t == s[offset / 8 := WithBit(s[offset / 8], offset % 8, v)]
    ensures BitAt(t, i) == if i == offset then v else BitAt(s, i)
  {
    hide WithBit, BitOf;
    if i / 8 == offset / 8 {
      if i % 8 == offset % 8 {
        BitWritten(s[i / 8], i % 8, v);
      } else {
        BitKept(s[i / 8], offset % 8, v, i % 8);
      }
    }
  }

  // ------------------------------------------------------------ Reading and writing

  /** The bits of `t` are those of `s`, but from `offset` on the given ones. */
  ghost predicate Written(s: seq<Byte>, t: seq<Byte>, offset: nat, row: seq<bool>) {
    |t| == |s| &&
    forall i: nat :: BitAt(t, i) == if offset <= i < offset + |row| then row[i - offset] else BitAt(s, i)
  }

  lemma FieldWritten(s: seq<Byte>, t: seq<Byte>, offset: nat, row: seq<bool>)
    requires Written(s, t, offset, row)
    ensures Field(t, offset, |row|) == row
  {
  }

  method SetUnsignedBitfield(p: array<Byte>, offset: nat, bits: nat, value: nat)
    requires offset + bits <= 8 * p.Length
    modifies p
    ensures Written(old(p[..]), p[..], offset, Digits(value, bits))
  {
    hide WithBit, BitAt, Pow2;
    ghost var row := Digits(value, bits);
    var at := offset;
    for j := 0 to bits
      invariant at == offset + j
      invariant Written(old(p[..]), p[..], offset, row[..j])
    {
      var bitval := (value / Pow2(bits - 1 - j)) % 2 == 1;
      DigitAt(value, bits, j);
      ghost var before := p[..];
      p[at / 8] := WithBit(p[at / 8], at % 8, bitval);
      WrittenMore(old(p[..]), before, p[..], offset, row, j);
      at := at + 1;
    }
    assert row[..bits] == row;
  }

  lemma WrittenMore(s: seq<Byte>, t: seq<Byte>, u: seq<Byte>, offset: nat, row: seq<bool>, j: nat)
    requires j < |row| && Written(s, t, offset, row[..j]) && offset + j < 8 * |t|
    requires u == t[(offset + j) / 8 := WithBit(t[(offset + j) / 8], (offset + j) % 8, row[j])]
    ensures Written(s, u, offset, row[..j + 1])
  {
    hide WithBit, BitAt;
    forall i: nat
      ensures BitAt(u, i) == if offset <= i < offset + j + 1 then row[..j + 1][i - offset] else BitAt(s, i)
    {
      OneBitWritten(t, u, offset + j, row[j], i);
      assert BitAt(t, i) == if offset <= i < offset + j then row[..j][i - offset] else BitAt(s, i);
    }
  }

  method GetUnsignedBitfield(p: array<Byte>, offset: nat, bits: nat) returns (value: nat)
    requires bits <= 64 && offset + bits <= 8 * p.Length
    ensures value == ValueOf(Field(p[..], offset, bits)) && value < Pow2(bits)
  {
    hide BitAt, Pow2;
    ghost var row := Field(p[..], offset, bits);
    value := 0;
    var at := offset;
    for j := 0 to bits
      invariant at == offset + j && value == ValueOf(row[..j])
    {
      var bitval := BitOf(p[at / 8], at % 8);
      ValueBelow(row[..j]);
      assert row[..j + 1][..j] == row[..j];
      assert bitval == row[j] by { BitAtIs(p[..], at); }
      value := (2 * value) % TWO64 + (if bitval then 1 else 0);
      at := at + 1;
    }
    assert row[..bits] == row;
    ValueBound(row);
  }

  lemma BitAtIs(s: seq<Byte>, i: nat)
    requires i < 8 * |s|
    ensures BitAt(s, i) == BitOf(s[i / 8], i % 8)
  {
  }

  /** The next shift does not lose a bit. */
  lemma ValueBelow(b: seq<bool>)
    requires |b| < 64
    ensures 2 * ValueOf(b) < TWO64
  {
    ValueBound(b);
    Pow2Monotone(|b|, 63);
    Pow2Of63();
    hide Pow2;
  }

  // -------------------------------------------------------------- Machine numbers

  predicate IsInt64(x: int) { -TWO63 <= x < TWO63 }

  /** The conversions between signed and unsigned words, and signed arithmetic that wraps around. */
  function ToUnsigned(x: int): nat { x % TWO64 }

  function ToSigned(u: int): int { if u >= TWO63 then u - TWO64 else u }

  function Wrapped(x: int): int { (x + TWO63) % TWO64 - TWO63 }

  lemma WrappedSame(x: int)
    requires IsInt64(x)
    ensures Wrapped(x) == x
  {
  }

  lemma {:induction false} Pow2Add(m: nat, n: nat)
    ensures Pow2(m) * Pow2(n) == Pow2(m + n)
    decreases n
  {
    if n > 0 {
      Pow2Add(m, n - 1);
      assert Pow2(m) * (2 * Pow2(n - 1)) == 2 * (Pow2(m) * Pow2(n - 1));
    }
  }

  lemma ModOfMod(x: int, a: nat, b: nat)
    requires a >= 1 && b >= 1 && a * b >= 1
    ensures (x % (a * b)) % a == x % a
  {
    var q, r := x / (a * b), x % (a * b);
    assert x == (a * b) * q + r;
    var q2, r2 := r / a, r % a;
    assert x == a * (b * q + q2) + r2 by {
      assert (a * b) * q == a * (b * q);
      assert a * (b * q + q2) == a * (b * q) + a * q2;
    }
    ModUnique(x, a, b * q + q2, r2);
  }

  /** The lower bits of a word are those of the number it stands for. */
  lemma LowOfWord(x: int, bits: nat)
    requires 1 <= bits <= 64
    ensures ToUnsigned(x) % Pow2(bits) == x % Pow2(bits)
  {
    Pow2Add(bits, 64 - bits);
    Pow2Of63();
    ModOfMod(x, Pow2(bits), Pow2(64 - bits));
    hide Pow2;
  }

  /** A row of bits read as a number in two's complement. */
  function SignedOf(u: nat, bits: nat): int
    requires bits >= 1
  {
    if u >= Pow2(bits - 1) then u - Pow2(bits) else u
  }

  lemma TopBitOf(c: nat, h: nat)
    requires h >= 1
    ensures (c / h) % 2 == 1 <==> c % (2 * h) >= h
  {
    var q, r := c / h, c % h;
    assert c == h * q + r;
    var q2, b := q / 2, q % 2;
    assert h * q == h * (2 * q2 + b) == (2 * h) * q2 + h * b;
    ModUnique(c, 2 * h, q2, h * b + r);
  }

  lemma TopBit(c: nat, bits: nat)
    requires bits >= 1
    ensures (c / Pow2(bits - 1)) % 2 == 1 <==> c % Pow2(bits) >= Pow2(bits - 1)
  {
    assert Pow2(bits) == 2 * Pow2(bits - 1);
    hide Pow2;
    TopBitOf(c, Pow2(bits - 1));
  }

  /** The lower bits of a word, with the top one of them copied to all bits above. */
  function Extended(u: nat, bits: nat): int
    requires 1 <= bits < 64
  {
    if (u / Pow2(bits - 1)) % 2 == 1 then ToSigned(u % Pow2(bits) + (TWO64 - Pow2(bits)))
    else ToSigned(u % Pow2(bits))
  }

  lemma ExtendedIs(u: nat, bits: nat)
    requires 1 <= bits < 64
    ensures Extended(u, bits) == SignedOf(u % Pow2(bits), bits)
  {
    TopBit(u, bits);
    Pow2Monotone(bits, 63);
    Pow2Of63();
    var low := u % Pow2(bits);
    assert Pow2(bits) == 2 * Pow2(bits - 1);
    hide Pow2;
  }

  lemma FullWord(u: nat)
    requires u < TWO64
    ensures ToSigned(u) == SignedOf(u % Pow2(64), 64)
  {
    Pow2Of63();
    hide Pow2;
  }

  // ------------------------------------------------------------- What is promised

  datatype Policy = Wrap | Sat | Fail

  function MaxOf(sign: bool, bits: nat): int
    requires bits >= 1
  {
    if sign then Pow2(bits - 1) - 1 else Pow2(bits) - 1
  }

  function MinOf(sign: bool, bits: nat): int
    requires bits >= 1
  {
    if sign then 0 - Pow2(bits - 1) else 0
  }

  function Reduced(sign: bool, bits: nat, x: int): int
    requires bits >= 1
  {
    if sign then SignedOf(x % Pow2(bits), bits) else x % Pow2(bits)
  }

  /** The value to store for an exact result: none if it does not fit and the policy is to fail. */
  function Outcome(sign: bool, bits: nat, exact: int, policy: Policy): Option<int>
    requires bits >= 1
  {
    if MinOf(sign, bits) <= exact <= MaxOf(sign, bits) then Some(exact)
    else
      match policy
      case Wrap => Some(Reduced(sign, bits, exact))
      case Sat => Some(if exact > MaxOf(sign, bits) then MaxOf(sign, bits) else MinOf(sign, bits))
      case Fail => None
  }

  lemma Congruent(x: int, p: nat)
    requires p >= 1
    ensures (x - x % p) % p == 0 && (x - (x % p - p)) % p == 0
  {
    var q, r := x / p, x % p;
    assert x == p * q + r;
    ModUnique(x - r, p, q, 0);
    assert p * (q + 1) == p * q + p;
    ModUnique(x - (r - p), p, q + 1, 0);
  }

  /** The reduced number is the one that can be represented and differs by a multiple of 2^bits. */
  lemma ReducedIs(sign: bool, bits: nat, x: int)
    requires bits >= 1
    ensures MinOf(sign, bits) <= Reduced(sign, bits, x) <= MaxOf(sign, bits)
    ensures (x - Reduced(sign, bits, x)) % Pow2(bits) == 0
  {
    assert Pow2(bits) == 2 * Pow2(bits - 1);
    hide Pow2;
    Congruent(x, Pow2(bits));
  }

  lemma ReducedSame(sign: bool, bits: nat, x: int)
    requires bits >= 1 && MinOf(sign, bits) <= x <= MaxOf(sign, bits)
    ensures Reduced(sign, bits, x) == x
  {
    var p := Pow2(bits);
    assert p == 2 * Pow2(bits - 1);
    if x >= 0 {
      ModUnique(x, p, 0, x);
    } else {
      ModUnique(x, p, -1, x + p);
    }
  }

  // ------------------------------------------------------------------ The checks

  function LowBits(u: int, bits: nat): nat { u % Pow2(bits) }

  function CheckUnsigned(value: nat, incr: int, bits: nat, policy: Policy): (int, nat)
    requires 1 <= bits <= 63
  {
    var max := Pow2(bits) - 1;
    var maxIncr := ToSigned(ToUnsigned(max - value));
    var minIncr := ToSigned(ToUnsigned(0 - value));
    var reduced := LowBits(ToUnsigned(value + incr), bits);
    if value > max || (incr > 0 && incr > maxIncr) then
      if policy == Wrap then (1, reduced) else (1, max)
    else if incr < 0 && incr < minIncr then
      if policy == Wrap then (1, reduced) else (-1, 0)
    else (0, 0)
  }

  function CheckSigned(value: int, incr: int, bits: nat, policy: Policy): (int, int)
    requires 1 <= bits <= 64
  {
    var max := Pow2(bits - 1) - 1;
    var min := -max - 1;
    var maxIncr := Wrapped(max - value);
    var minIncr := Wrapped(min - value);
    var c := (ToUnsigned(value) + ToUnsigned(incr)) % TWO64;
    var reduced := if bits < 64 then Extended(c, bits) else ToSigned(c);
    if value > max || (bits != 64 && incr > maxIncr) || (value >= 0 && incr > 0 && incr > maxIncr) then
      if policy == Wrap then (1, reduced) else (1, max)
    else if value < min || (bits != 64 && incr < minIncr) || (value < 0 && incr < 0 && incr < minIncr) then
      if policy == Wrap then (1, reduced) else (-1, min)
    else (0, 0)
  }

  /** What is stored after a check. */
  function Chosen(check: (int, int), exact: int, policy: Policy): Option<int> {
    if check.0 == 0 then Some(exact) else if policy == Fail then None else Some(check.1)
  }

  lemma UnsignedLimit(value: nat, incr: int, bits: nat)
    requires 1 <= bits <= 63
    ensures LowBits(ToUnsigned(value + incr), bits) == Reduced(false, bits, value + incr)
  {
    LowOfWord(value + incr, bits);
  }

  lemma CheckUnsignedIs(value: nat, incr: int, bits: nat, policy: Policy)
    requires 1 <= bits <= 63 && value < Pow2(bits) && IsInt64(incr)
    ensures Chosen(CheckUnsigned(value, incr, bits, policy), value + incr, policy)
         == Outcome(false, bits, value + incr, policy)
  {
    hide Pow2, ToSigned, ToUnsigned, Reduced, LowBits;
    UnsignedLimit(value, incr, bits);
    Pow2Monotone(bits, 63);
    Pow2Of63();
    UnsignedRoom(value, Pow2(bits) - 1);
  }

  /** The room above and below is computed without wrapping around. */
  lemma UnsignedRoom(value: nat, max: nat)
    requires value <= max < TWO63
    ensures ToSigned(ToUnsigned(max - value)) == max - value && ToSigned(ToUnsigned(0 - value)) == 0 - value
  {
  }

  lemma SumOfWords(x: int, y: int)
    ensures (ToUnsigned(x) + ToUnsigned(y)) % TWO64 == ToUnsigned(x + y)
  {
  }

  lemma SignedLimit(value: int, incr: int, bits: nat)
    requires 1 <= bits <= 64
    ensures var c := (ToUnsigned(value) + ToUnsigned(incr)) % TWO64;
            (if bits < 64 then Extended(c, bits) else ToSigned(c)) == Reduced(true, bits, value + incr)
  {
    SumOfWords(value, incr);
    LowOfWord(value + incr, bits);
    var c := ToUnsigned(value + incr);
    if bits < 64 { ExtendedIs(c, bits); } else { FullWord(c); }
    hide Extended, Pow2, SignedOf;
  }

  lemma CheckSignedIs(value: int, incr: int, bits: nat, policy: Policy)
    requires 1 <= bits <= 64 && MinOf(true, bits) <= value <= MaxOf(true, bits) && IsInt64(incr)
    ensures Chosen(CheckSigned(value, incr, bits, policy), value + incr, policy)
         == Outcome(true, bits, value + incr, policy)
  {
    hide Pow2, Extended, Reduced, ToSigned, ToUnsigned, Wrapped;
    SignedLimit(value, incr, bits);
    Pow2Monotone(bits, 64);
    if bits < 64 { Pow2Monotone(bits, 63); }
    Pow2Of63();
    Pow2Next(bits);
    if bits < 64 || value >= 0 { WrappedSame(MaxOf(true, bits) - value); }
    if bits < 64 || value < 0 { WrappedSame(MinOf(true, bits) - value); }
  }

  /**
   A signed value that is set, and not an old value incremented, may lie so far below the field's
   minimum that the room above it does not fit in a signed word.  Exactly then saturation goes wrong.
   */
  lemma SetSignedExactly(value: int, bits: nat, policy: Policy)
    requires 1 <= bits <= 64 && IsInt64(value)
    ensures Chosen(CheckSigned(value, 0, bits, policy), value, policy) == Outcome(true, bits, value, policy)
       <==> !(policy == Sat && bits < 64 && MaxOf(true, bits) - value >= TWO63)
  {
    hide Pow2, Extended, Reduced, ToSigned, ToUnsigned;
    SignedLimit(value, 0, bits);
    Pow2Monotone(bits, 64);
    if bits < 64 { Pow2Monotone(bits, 63); }
    Pow2Of63();
    Pow2Next(bits);
  }

  /** The least signed word, saturated to eight bits, becomes the greatest value of the field. */
  lemma SaturatedUpwards()
    ensures Chosen(CheckSigned(0 - TWO63, 0, 8, Sat), 0 - TWO63, Sat) == Some(127)
    ensures Outcome(true, 8, 0 - TWO63, Sat) == Some(-128)
  {
    assert Pow2(7) == 128;
  }

  lemma CheckUnsignedSet(value: int, bits: nat, policy: Policy)
    requires 1 <= bits <= 63 && IsInt64(value)
    ensures Chosen(CheckUnsigned(ToUnsigned(value), 0, bits, policy), ToUnsigned(value), policy)
         == Outcome(false, bits, ToUnsigned(value), policy)
  {
    hide Pow2, ToSigned, ToUnsigned, Reduced, LowBits;
    var u := ToUnsigned(value);
    UnsignedLimit(u, 0, bits);
    Pow2Monotone(bits, 63);
    Pow2Of63();
  }

  // ------------------------------------------------------------------ The command

  /** What a field of the padded string reads as. */
  function ReadOf(sign: bool, s: seq<Byte>, offset: nat, bits: nat): int
    requires bits >= 1
  {
    if sign then SignedOf(ValueOf(Field(s, offset, bits)), bits) else ValueOf(Field(s, offset, bits))
  }

  ghost predicate OthersKept(s: seq<Byte>, t: seq<Byte>, offset: nat, bits: nat) {
    |t| == |s| && forall i: nat :: !(offset <= i < offset + bits) ==> BitAt(t, i) == BitAt(s, i)
  }

  lemma ReadInRange(sign: bool, s: seq<Byte>, offset: nat, bits: nat)
    requires bits >= 1
    ensures MinOf(sign, bits) <= ReadOf(sign, s, offset, bits) <= MaxOf(sign, bits)
  {
    ValueBound(Field(s, offset, bits));
    Pow2Next(bits);
    hide Pow2, Field;
  }

  /** A value that fits is read back. */
  lemma ReadBack(sign: bool, s: seq<Byte>, t: seq<Byte>, offset: nat, bits: nat, v: int)
    requires 1 <= bits <= 64 && MinOf(sign, bits) <= v <= MaxOf(sign, bits)
    requires Written(s, t, offset, Digits(ToUnsigned(v), bits))
    ensures ReadOf(sign, t, offset, bits) == v && OthersKept(s, t, offset, bits)
  {
    hide Pow2, Digits, ToUnsigned, BitAt, Field, MinOf, MaxOf;
    FieldWritten(s, t, offset, Digits(ToUnsigned(v), bits));
    ValueOfDigits(ToUnsigned(v), bits);
    LowOfWord(v, bits);
    ReducedSame(sign, bits, v);
  }

  method GetSignedBitfield(p: array<Byte>, offset: nat, bits: nat) returns (value: int)
    requires 1 <= bits <= 64 && offset + bits <= 8 * p.Length
    ensures value == SignedOf(ValueOf(Field(p[..], offset, bits)), bits)
  {
    hide Pow2, Extended, Field, SignedOf, ToSigned;
    var u := GetUnsignedBitfield(p, offset, bits);
    ModSmall(u, Pow2(bits));
    if bits < 64 {
      value := Extended(u, bits);
      ExtendedIs(u, bits);
    } else {
      value := ToSigned(u);
      Pow2Of63();
      FullWord(u);
    }
  }

  lemma ModSmall(u: nat, p: nat)
    requires u < p
    ensures u % p == u
  {
  }

  method SetSignedBitfield(p: array<Byte>, offset: nat, bits: nat, value: int)
    requires offset + bits <= 8 * p.Length
    modifies p
    ensures Written(old(p[..]), p[..], offset, Digits(ToUnsigned(value), bits))
  {
    SetUnsignedBitfield(p, offset, bits, ToUnsigned(value));
  }

  method ReadField(p: array<Byte>, offset: nat, bits: nat, sign: bool) returns (value: int)
    requires 1 <= bits <= (if sign then 64 else 63) && offset + bits <= 8 * p.Length
    ensures value == ReadOf(sign, p[..], offset, bits)
  {
    if sign {
      value := GetSignedBitfield(p, offset, bits);
    } else {
      value := GetUnsignedBitfield(p, offset, bits);
    }
  }

  /** Stores a value that fits. */
  method StoreField(p: array<Byte>, offset: nat, bits: nat, sign: bool, value: int)
    requires 1 <= bits <= (if sign then 64 else 63) && offset + bits <= 8 * p.Length
    requires MinOf(sign, bits) <= value <= MaxOf(sign, bits)
    modifies p
    ensures ReadOf(sign, p[..], offset, bits) == value && OthersKept(old(p[..]), p[..], offset, bits)
  {
    hide *;
    if sign {
      SetSignedBitfield(p, offset, bits, value);
    } else {
      WordOfUnsigned(value, bits);
      SetUnsignedBitfield(p, offset, bits, value);
    }
    ReadBack(sign, old(p[..]), p[..], offset, bits, value);
  }

  lemma WordOfUnsigned(v: int, bits: nat)
    requires 1 <= bits <= 63 && MinOf(false, bits) <= v <= MaxOf(false, bits)
    ensures 0 <= v && ToUnsigned(v) == v
  {
    hide Pow2;
    Pow2Monotone(bits, 63);
    Pow2Of63();
  }

  lemma OutcomeFits(sign: bool, bits: nat, exact: int, policy: Policy)
    requires bits >= 1
    ensures var o := Outcome(sign, bits, exact, policy); o.Some? ==> MinOf(sign, bits) <= o.value <= MaxOf(sign, bits)
  {
  }

  /** INCRBY: the new value is stored and returned, all other bits stay; or nothing changes. */
  method IncrBy(p: array<Byte>, offset: nat, bits: nat, sign: bool, incr: int, policy: Policy)
    returns (reply: Option<int>)
    requires 1 <= bits <= (if sign then 64 else 63) && offset + bits <= 8 * p.Length && IsInt64(incr)
    modifies p
    ensures reply == Outcome(sign, bits, ReadOf(sign, old(p[..]), offset, bits) + incr, policy)
    ensures reply.Some? ==> ReadOf(sign, p[..], offset, bits) == reply.value
    ensures if reply.Some? then OthersKept(old(p[..]), p[..], offset, bits) else p[..] == old(p[..])
  {
    hide CheckUnsigned, CheckSigned, Outcome, ReadOf, MinOf, MaxOf, OthersKept, Pow2;
    var oldval := ReadField(p, offset, bits, sign);
    ReadInRange(sign, p[..], offset, bits);
    OutcomeFits(sign, bits, oldval + incr, policy);
    var newval := oldval + incr;
    var overflow, limit;
    if sign {
      CheckSignedIs(oldval, incr, bits, policy);
      var r := CheckSigned(oldval, incr, bits, policy);
      overflow, limit := r.0, r.1;
    } else {
      UnsignedRange(oldval, bits);
      CheckUnsignedIs(oldval, incr, bits, policy);
      var r := CheckUnsigned(oldval, incr, bits, policy);
      overflow, limit := r.0, r.1;
    }
    if overflow != 0 {
      newval := limit;
    }
    if overflow != 0 && policy == Fail {
      return None;
    }
    reply := Some(newval);
    StoreField(p, offset, bits, sign, newval);
  }

  lemma UnsignedRange(v: int, bits: nat)
    requires bits >= 1 && MinOf(false, bits) <= v <= MaxOf(false, bits)
    ensures 0 <= v < Pow2(bits)
  {
  }

  /** The value to be set, as a word of the field's kind. */
  function SetValue(sign: bool, i64: int): int { if sign then i64 else ToUnsigned(i64) }

  /** Whether saturation of a value to be set goes to the wrong end. */
  predicate SaturatesWrongly(sign: bool, bits: nat, i64: int, policy: Policy)
    requires bits >= 1
  {
    sign && policy == Sat && bits < 64 && MaxOf(true, bits) - i64 >= TWO63
  }

  function Stored(sign: bool, bits: nat, i64: int, policy: Policy): int
    requires bits >= 1 && Outcome(sign, bits, SetValue(sign, i64), policy).Some?
  {
    if SaturatesWrongly(sign, bits, i64, policy) then MaxOf(sign, bits)
    else Outcome(sign, bits, SetValue(sign, i64), policy).value
  }

  /** SET: the old value is returned and the new one stored, all other bits stay; or nothing changes. */
  method SetTo(p: array<Byte>, offset: nat, bits: nat, sign: bool, i64: int, policy: Policy)
    returns (reply: Option<int>)
    requires 1 <= bits <= (if sign then 64 else 63) && offset + bits <= 8 * p.Length && IsInt64(i64)
    modifies p
    ensures reply == if Outcome(sign, bits, SetValue(sign, i64), policy).None? then None
                     else Some(ReadOf(sign, old(p[..]), offset, bits))
    ensures reply.Some? ==> ReadOf(sign, p[..], offset, bits) == Stored(sign, bits, i64, policy)
    ensures if reply.Some? then OthersKept(old(p[..]), p[..], offset, bits) else p[..] == old(p[..])
  {
    hide CheckUnsigned, CheckSigned, ReadOf, OthersKept, Pow2, Reduced, ToUnsigned;
    var oldval := ReadField(p, offset, bits, sign);
    var newval := SetValue(sign, i64);
    OutcomeFits(sign, bits, newval, policy);
    Pow2Next(bits);
    var overflow, limit;
    if sign {
      SetSignedExactly(i64, bits, policy);
      if SaturatesWrongly(true, bits, i64, policy) { SetSignedWrongly(i64, bits, policy); }
      var r := CheckSigned(newval, 0, bits, policy);
      overflow, limit := r.0, r.1;
    } else {
      CheckUnsignedSet(i64, bits, policy);
      var r := CheckUnsigned(newval, 0, bits, policy);
      overflow, limit := r.0, r.1;
    }
    if overflow != 0 {
      newval := limit;
    }
    if overflow != 0 && policy == Fail {
      return None;
    }
    reply := Some(oldval);
    StoreField(p, offset, bits, sign, newval);
  }

  lemma SetSignedWrongly(value: int, bits: nat, policy: Policy)
    requires 1 <= bits <= 64 && IsInt64(value) && SaturatesWrongly(true, bits, value, policy)
    ensures Chosen(CheckSigned(value, 0, bits, policy), value, policy) == Some(MaxOf(true, bits))
  {
    hide Pow2, Extended, ToSigned, ToUnsigned;
    Pow2Monotone(bits, 63);
    Pow2Of63();
    Pow2Next(bits);
  }

  /** GET: at most nine bytes are copied to a buffer of zeroes, and the field read from there. */
  method GetFrom(src: array<Byte>, offset: nat, bits: nat, sign: bool) returns (value: int)
    requires 1 <= bits <= (if sign then 64 else 63)
    ensures value == ReadOf(sign, src[..], offset, bits)
  {
    hide ReadOf, BitAt;
    var buf := new Byte[9](i => 0);
    var at := offset / 8;
    var i := 0;
    while i < 9
      invariant i <= 9 && forall k | 0 <= k < 9 :: buf[k] == if k < i then ByteAt(src[..], at + k) else 0
    {
      if i + at >= src.Length {
        break;
      }
      buf[i] := src[i + at];
      i := i + 1;
    }
    forall k: nat | k < 9 ensures ByteAt(buf[..], k) == ByteAt(src[..], at + k) {
    }
    SameField(src[..], buf[..], offset, bits);
    value := ReadField(buf, offset - at * 8, bits, sign);
    assert ReadOf(sign, buf[..], offset - at * 8, bits) == ReadOf(sign, src[..], offset, bits) by {
      SameRead(sign, src[..], buf[..], offset, bits);
    }
  }

  lemma SameField(s: seq<Byte>, t: seq<Byte>, offset: nat, bits: nat)
    requires bits <= 64 && forall k: nat | k < 9 :: ByteAt(t, k) == ByteAt(s, offset / 8 + k)
    ensures Field(t, offset % 8, bits) == Field(s, offset, bits)
  {
    hide BitOf, ByteAt;
    forall j | 0 <= j < bits ensures Field(t, offset % 8, bits)[j] == Field(s, offset, bits)[j] {
      var m := offset % 8 + j;
      assert offset + j == 8 * (offset / 8) + m;
      assert (offset + j) / 8 == offset / 8 + m / 8 && (offset + j) % 8 == m % 8;
      assert ByteAt(t, m / 8) == ByteAt(s, offset / 8 + m / 8);
      assert BitAt(t, m) == BitAt(s, offset + j);
    }
  }

  lemma SameRead(sign: bool, s: seq<Byte>, t: seq<Byte>, offset: nat, bits: nat)
    requires bits >= 1 && Field(t, offset % 8, bits) == Field(s, offset, bits)
    ensures ReadOf(sign, t, offset % 8, bits) == ReadOf(sign, s, offset, bits)
  {
  }

  /** Before a write the string is padded so that the last bit to be written exists. */
  method MakeRoom(s: array<Byte>, maxBit: nat) returns (t: array<Byte>)
    ensures maxBit < 8 * t.Length && s.Length <= t.Length
    ensures forall i: nat :: BitAt(t[..], i) == BitAt(s[..], i)
  {
    var n := maxBit / 8 + 1;
    if n <= s.Length {
      return s;
    }
    t := new Byte[n](i => 0);
    for i := 0 to s.Length
      invariant forall k | 0 <= k < n :: t[k] == if k < i then s[k] else 0
    {
      t[i] := s[i];
    }
    forall i: nat ensures BitAt(t[..], i) == BitAt(s[..], i) {
      assert ByteAt(t[..], i / 8) == ByteAt(s[..], i / 8);
    }
  }
}
