/**
 The footer of DUMP payloads (cluster.c): two bytes of RDB version and eight
 bytes of CRC-64 over everything before them, both little endian.
 */
module DumpPayload {
  import opened Crc64

  const RDB_VERSION: bv16 := 9

  // ------------------------------------------------------------- Byte layouts

  /** The eight bytes of `x` in little-endian order. */
  function StoreLittle(x: bv64): (s: seq<bv8>)
    ensures |s| == 8
  {
    [Byte(x, 0), Byte(x, 1), Byte(x, 2), Byte(x, 3), Byte(x, 4), Byte(x, 5), Byte(x, 6), Byte(x, 7)]
  }

  /** The eight bytes of `x` as they lie in the memory of the given machine. */
  function StoreNative(littleEndian: bool, x: bv64): seq<bv8> {
    if littleEndian then StoreLittle(x)
    else [Byte(x, 7), Byte(x, 6), Byte(x, 5), Byte(x, 4), Byte(x, 3), Byte(x, 2), Byte(x, 1), Byte(x, 0)]
  }

  /** Byte swap on big-endian machines only. */
  function MemRev64IfBig(littleEndian: bool, x: bv64): bv64 {
    if littleEndian then x else Rev8(x)
  }

  lemma StoreNativeIsLittle(littleEndian: bool, x: bv64)
    ensures StoreNative(littleEndian, MemRev64IfBig(littleEndian, x)) == StoreLittle(x)
  {
    Rev8Byte(x);
    hide Byte, Rev8;
  }

  lemma LoadOfStore(x: bv64)
    ensures LoadLittle(StoreLittle(x)) == x
  {}

  lemma StoreOfLoad(s: seq<bv8>)
    requires |s| == 8
    ensures StoreLittle(LoadLittle(s)) == s
  {
  }

  // ------------------------------------------------------------------- Payloads

  function VersionBytes(): seq<bv8> {
    [(RDB_VERSION & 0xff) as bv8, ((RDB_VERSION >> 8) & 0xff) as bv8]
  }

  function VersionOf(p: seq<bv8>): bv16
    requires |p| >= 10
  {
    ((p[|p| - 9] as bv16) << 8) | (p[|p| - 10] as bv16)
  }

  /** A serialized value followed by its footer. */
  function Payload(serialized: seq<bv8>): seq<bv8> {
    var data := serialized + VersionBytes();
    data + StoreLittle(Update(0, data))
  }

  predicate Accepts(p: seq<bv8>, skipChecksum: bool) {
    |p| >= 10 && VersionOf(p) <= RDB_VERSION &&
    (skipChecksum || StoreLittle(Update(0, p[..|p| - 8])) == p[|p| - 8..])
  }

  method CreateDumpPayload(table: array2<bv64>, littleEndian: bool, serialized: seq<bv8>, base: nat)
    returns (payload: seq<bv8>)
    requires NativeTable(table, littleEndian)
    ensures payload == Payload(serialized)
  {
    hide StoreLittle, StoreNative, Update, MemRev64IfBig, NativeTable;
    payload := serialized;
    payload := payload + [(RDB_VERSION & 0xff) as bv8, ((RDB_VERSION >> 8) & 0xff) as bv8];
    var crc := Crc64.Crc64(table, littleEndian, 0, payload, base);
    StoreNativeIsLittle(littleEndian, crc);
    payload := payload + StoreNative(littleEndian, MemRev64IfBig(littleEndian, crc));
  }

  method VerifyDumpPayload(table: array2<bv64>, littleEndian: bool, p: seq<bv8>, base: nat, skipChecksum: bool)
    returns (ok: bool)
    requires NativeTable(table, littleEndian)
    ensures ok == Accepts(p, skipChecksum)
  {
    hide StoreLittle, StoreNative, Update, MemRev64IfBig, NativeTable;
    if |p| < 10 { return false; }
    var footer := p[|p| - 10..];
    var rdbver: bv16 := ((footer[1] as bv16) << 8) | (footer[0] as bv16);
    if rdbver > RDB_VERSION { return false; }
    if skipChecksum { return true; }
    var crc := Crc64.Crc64(table, littleEndian, 0, p[..|p| - 8], base);
    StoreNativeIsLittle(littleEndian, crc);
    ok := StoreNative(littleEndian, MemRev64IfBig(littleEndian, crc)) == footer[2..];
  }

  lemma VersionRoundTrip(p: seq<bv8>)
    requires |p| >= 10 && p[|p| - 10] == VersionBytes()[0] && p[|p| - 9] == VersionBytes()[1]
    ensures VersionOf(p) == RDB_VERSION
  {}

  /** Every payload written with a footer is accepted. */
  lemma WrittenIsAccepted(serialized: seq<bv8>, skipChecksum: bool)
    ensures Accepts(Payload(serialized), skipChecksum)
  {
    hide StoreLittle, Update, VersionOf;
    var p := Payload(serialized);
    var data := serialized + VersionBytes();
    assert p[..|p| - 8] == data && p[|p| - 8..] == StoreLittle(Update(0, data));
    VersionRoundTrip(p);
  }

  lemma VersionReadsBack(p: seq<bv8>, version: bv16)
    requires |p| >= 10 && p[|p| - 10] == (version & 0xff) as bv8 && p[|p| - 9] == ((version >> 8) & 0xff) as bv8
    ensures VersionOf(p) == version
  {}

  /** A footer with any version and any checksum: it is accepted exactly if the version is not newer and,
      unless that is not to be looked at, the checksum is right. */
  lemma FooterDecides(serialized: seq<bv8>, version: bv16, sum: seq<bv8>, skipChecksum: bool)
    requires |sum| == 8
    ensures var data := serialized + [(version & 0xff) as bv8, ((version >> 8) & 0xff) as bv8];
            Accepts(data + sum, skipChecksum) <==>
            version <= RDB_VERSION && (skipChecksum || sum == StoreLittle(Update(0, data)))
  {
    hide StoreLittle, Update, VersionOf;
    var data := serialized + [(version & 0xff) as bv8, ((version >> 8) & 0xff) as bv8];
    var p := data + sum;
    assert p[..|p| - 8] == data && p[|p| - 8..] == sum;
    VersionReadsBack(p, version);
  }

  /** A text too short for a footer is refused, whatever the setting. */
  lemma TooShort(p: seq<bv8>, skipChecksum: bool)
    requires |p| < 10
    ensures !Accepts(p, skipChecksum)
  {}

  // ---------------------------------------------------------------- Error bursts

  lemma ShiftsOfZero(n: nat)
    ensures Shifts(0, n) == 0
  {
  }

  /** The checksum matches exactly when the register ends at zero over the whole payload. */
  lemma ChecksumIsResidue(p: seq<bv8>)
    requires |p| >= 8
    ensures StoreLittle(Update(0, p[..|p| - 8])) == p[|p| - 8..] <==> Update(0, p) == 0
  {
    hide StoreLittle, Xor, LoadLittle, Shifts, UpdateByte;
    var data, footer := p[..|p| - 8], p[|p| - 8..];
    var crc, stored := Update(0, data), LoadLittle(footer);
    assert p == data + footer;
    UpdateConcat(0, data, footer);
    UpdateEight(crc, footer);
    LoadOfStore(crc);
    StoreOfLoad(footer);
    XorZero(stored);
    ShiftsOfZero(64);
    if Update(0, p) == 0 {
      ShiftsInjective(Xor(crc, stored), 0, 64);
      XorRightCancel(crc, stored, stored);
    }
  }

  /** `p` and `q` have the same length and differ nowhere outside [from, from + width). */
  predicate DifferWithin(p: seq<bv8>, q: seq<bv8>, from: nat, width: nat) {
    |p| == |q| && forall i | 0 <= i < |p| :: p[i] != q[i] ==> from <= i < from + width
  }

  /** Eight bytes are determined by what they do to a register. */
  lemma WordFromRegister(reg: bv64, u: seq<bv8>, v: seq<bv8>)
    requires |u| == 8 && |v| == 8 && Update(reg, u) == Update(reg, v)
    ensures u == v
  {
    hide Xor, LoadLittle, Shifts, Update, StoreLittle;
    UpdateEight(reg, u);
    UpdateEight(reg, v);
    ShiftsInjective(Xor(reg, LoadLittle(u)), Xor(reg, LoadLittle(v)), 64);
    XorComm(reg, LoadLittle(u));
    XorComm(reg, LoadLittle(v));
    XorRightCancel(LoadLittle(u), LoadLittle(v), reg);
    StoreOfLoad(u);
    StoreOfLoad(v);
  }

  lemma UpdateThree(r: bv64, a: seq<bv8>, b: seq<bv8>, c: seq<bv8>)
    ensures Update(r, a + b + c) == Update(Update(Update(r, a), b), c)
  {
    hide Update;
    UpdateConcat(r, a + b, c);
    UpdateConcat(r, a, b);
  }

  /** Two buffers with equal checksums that differ in one aligned-or-not word are equal. */
  lemma WordBurstChangesRegister(r: bv64, p: seq<bv8>, q: seq<bv8>, from: nat)
    requires DifferWithin(p, q, from, 8) && from + 8 <= |p| && Update(r, p) == Update(r, q)
    ensures p == q
  {
    hide Update;
    var before, u, v, after := p[..from], p[from..from + 8], q[from..from + 8], p[from + 8..];
    assert p == before + u + after && q == before + v + after;
    UpdateThree(r, before, u, after);
    UpdateThree(r, before, v, after);
    UpdateInjective(Update(Update(r, before), u), Update(Update(r, before), v), after);
    WordFromRegister(Update(r, before), u, v);
  }

  /** An accepted payload is rejected after any change confined to eight consecutive bytes. */
  lemma BurstIsDetected(p: seq<bv8>, q: seq<bv8>, from: nat)
    requires Accepts(p, false) && DifferWithin(p, q, from, 8) && p != q
    ensures !Accepts(q, false)
  {
    hide Update, VersionOf, Accepts;
    AcceptsResidue(p);
    AcceptsResidue(q);
    var start := if from + 8 <= |p| then from else |p| - 8;
    if Accepts(q, false) {
      WordBurstChangesRegister(0, p, q, start);
    }
  }

  function Flip(b: bv8): bv8 { b ^ 1 }

  /** The change of the eight bytes that cancels a flipped low bit in the byte before them. */
  function Cancel(word: seq<bv8>): (s: seq<bv8>)
    requires |word| == 8
    ensures |s| == 8
  {
    StoreLittle(Xor(LoadLittle(word), Shifts(1, 8)))
  }

  /** Eight is the best bound: a change of nine consecutive bytes can always be hidden. */
  lemma NineBytesCanBeHidden(p: seq<bv8>, from: nat)
    requires Accepts(p, false) && from + 9 <= |p| - 10
    ensures var q := p[..from] + ([Flip(p[from])] + Cancel(p[from + 1..from + 9])) + p[from + 9..];
            DifferWithin(p, q, from, 9) && p != q && Accepts(q, false)
  {
    hide Flip, Cancel, Update, StoreLittle, VersionOf, Accepts;
    var b, word := p[from], p[from + 1..from + 9];
    FlipChanges(b);
    AcceptsResidue(p);
    SpliceNine(p, from, [Flip(b)] + Cancel(word));
    HiddenInBuffer(p[..from], b, word, p[from + 9..]);
    var q := p[..from] + ([Flip(b)] + Cancel(word)) + p[from + 9..];
    AcceptsResidue(q);
    SameVersion(p, q);
  }

  lemma FlipChanges(b: bv8)
    ensures Flip(b) != b
  {}

  lemma AcceptsResidue(p: seq<bv8>)
    ensures Accepts(p, false) <==> |p| >= 10 && VersionOf(p) <= RDB_VERSION && Update(0, p) == 0
  {
    hide Update, StoreLittle, VersionOf;
    if |p| >= 10 { ChecksumIsResidue(p); }
  }

  lemma SpliceNine<T>(p: seq<T>, from: nat, middle: seq<T>)
    requires from + 9 <= |p| && |middle| == 9
    ensures p == p[..from] + ([p[from]] + p[from + 1..from + 9]) + p[from + 9..]
    ensures var q := p[..from] + middle + p[from + 9..];
            |q| == |p| && q[from] == middle[0] &&
            forall i | 0 <= i < |p| :: !(from <= i < from + 9) ==> q[i] == p[i]
  {
  }

  lemma HiddenInBuffer(before: seq<bv8>, b: bv8, word: seq<bv8>, after: seq<bv8>)
    requires |word| == 8
    ensures Update(0, before + ([b] + word) + after) == Update(0, before + ([Flip(b)] + Cancel(word)) + after)
  {
    hide Flip, Cancel, UpdateByte;
    UpdateConcat(0, before + ([b] + word), after);
    UpdateConcat(0, before, [b] + word);
    UpdateConcat(0, before + ([Flip(b)] + Cancel(word)), after);
    UpdateConcat(0, before, [Flip(b)] + Cancel(word));
    HiddenInRegister(Update(0, before), b, word);
  }

  lemma SameVersion(p: seq<bv8>, q: seq<bv8>)
    requires |p| == |q| && |p| >= 10 && q[|p| - 10] == p[|p| - 10] && q[|p| - 9] == p[|p| - 9]
    ensures VersionOf(p) == VersionOf(q)
  {}

  lemma HiddenInRegister(r: bv64, b: bv8, word: seq<bv8>)
    requires |word| == 8
    ensures Update(r, [Flip(b)] + Cancel(word)) == Update(r, [b] + word)
  {
    FlippedByte(r, b);
    hide Flip, Xor, LoadLittle, Shifts, StoreLittle, UpdateByte;
    var delta, w := Shifts(1, 8), LoadLittle(word);
    UpdateFirst(r, [b] + word);
    UpdateFirst(r, [Flip(b)] + Cancel(word));
    assert ([b] + word)[1..] == word && ([Flip(b)] + Cancel(word))[1..] == Cancel(word);
    UpdateEight(UpdateByte(r, b), word);
    UpdateEight(Xor(UpdateByte(r, b), delta), Cancel(word));
    LoadOfStore(Xor(w, delta));
    XorSwap(UpdateByte(r, b), w, delta);
  }

  lemma FlippedByte(r: bv64, b: bv8)
    ensures UpdateByte(r, Flip(b)) == Xor(UpdateByte(r, b), Shifts(1, 8))
  {
    FlippedLowBit(r, b);
    hide Xor, Shift, Flip;
    ShiftsLinear(Xor(r, b as bv64), 1, 8);
  }

  lemma FlippedLowBit(r: bv64, b: bv8)
    ensures Xor(r, Flip(b) as bv64) == Xor(Xor(r, b as bv64), 1)
  {
  }
}
