/**
 The append only file as a log of commands (aof.c): how commands are printed, how the
 file is read back, and what is recovered from a file cut short.

 Offsets are positions in the file.  The RDB preamble, if any, ends at the offset where
 reading starts.
 */
module AofLog {

  type Byte = x: int | 0 <= x < 256
  type Bytes = seq<Byte>

  const LF: Byte := 10
  const CR: Byte := 13
  const DOLLAR: Byte := 36
  const STAR: Byte := 42
  const PLUS: Byte := 43
  const MINUS: Byte := 45
  const CRLF: Bytes := [CR, LF]

  /** A command and its arguments, any bytes. */
  type Command = seq<Bytes>

  // -------------------------------------------------------------------- Numbers

  function Digit(d: nat): Byte
    requires d < 10
  { 48 + d }

  predicate IsDigit(b: Byte) { 48 <= b <= 57 }

  /** Decimal notation, as ll2string writes it. */
  function Dec(n: nat): Bytes {
    if n < 10 then [Digit(n)] else Dec(n / 10) + [Digit(n % 10)]
  }

  predicate IsSpace(b: Byte) { b == 32 || 9 <= b <= 13 }

  /** The value of the leading digits of `s`, after `acc`. */
  function Digits(s: Bytes, acc: nat): nat
    decreases |s|
  {
    if s == [] || !IsDigit(s[0]) then acc else Digits(s[1..], 10 * acc + (s[0] - 48))
  }

  /** What atoi and strtol read: spaces, a sign, digits. */
  function ParseInt(s: Bytes): int
    decreases |s|
  {
    if s == [] then 0
    else if IsSpace(s[0]) then ParseInt(s[1..])
    else if s[0] == MINUS then 0 - Digits(s[1..], 0)
    else if s[0] == PLUS then Digits(s[1..], 0)
    else Digits(s, 0)
  }

  lemma {:induction false} DecDigits(n: nat)
    ensures Dec(n) != [] && forall i | 0 <= i < |Dec(n)| :: IsDigit(Dec(n)[i])
    ensures n >= 1 ==> Dec(n)[0] != 48
  {
    if n >= 10 { DecDigits(n / 10); }
  }

  predicate AllDigits(d: Bytes) { forall i | 0 <= i < |d| :: IsDigit(d[i]) }

  lemma {:induction false} DigitsStop(d: Bytes, rest: Bytes, acc: nat)
    requires AllDigits(d) && (rest == [] || !IsDigit(rest[0]))
    ensures Digits(d + rest, acc) == Digits(d, acc)
    decreases |d|
  {
    if d == [] {
      assert d + rest == rest;
    } else {
      assert (d + rest)[1..] == d[1..] + rest;
      DigitsStop(d[1..], rest, 10 * acc + (d[0] - 48));
    }
  }

  lemma {:induction false} DigitsAppend(d: Bytes, x: Byte, acc: nat)
    requires AllDigits(d) && IsDigit(x)
    ensures Digits(d + [x], acc) == 10 * Digits(d, acc) + (x - 48)
    decreases |d|
  {
    if d == [] {
      assert d + [x] == [x] && [x][1..] == [];
    } else {
      assert (d + [x])[1..] == d[1..] + [x];
      DigitsAppend(d[1..], x, 10 * acc + (d[0] - 48));
    }
  }

  lemma {:induction false} DigitsOfDec(n: nat)
    ensures Digits(Dec(n), 0) == n
  {
    if n >= 10 {
      DecDigits(n / 10);
      DigitsAppend(Dec(n / 10), Digit(n % 10), 0);
      DigitsOfDec(n / 10);
    } else {
      assert [Digit(n)][1..] == [];
    }
  }

  /** A printed number reads back, whatever non-digit follows it. */
  lemma ParseDec(n: nat, rest: Bytes)
    requires rest == [] || !IsDigit(rest[0])
    ensures ParseInt(Dec(n) + rest) == n
  {
    DecDigits(n);
    DigitsStop(Dec(n), rest, 0);
    DigitsOfDec(n);
    assert (Dec(n) + rest)[0] == Dec(n)[0];
  }

  /** Blanks before a number are skipped, and its sign is understood. */
  lemma {:induction false} ParseSigned(blanks: Bytes, n: nat, rest: Bytes)
    requires (forall b | b in blanks :: IsSpace(b)) && (rest == [] || !IsDigit(rest[0]))
    ensures ParseInt(blanks + (Dec(n) + rest)) == n
    ensures ParseInt(blanks + ([PLUS] + (Dec(n) + rest))) == n
    ensures ParseInt(blanks + ([MINUS] + (Dec(n) + rest))) == 0 - n
    decreases |blanks|
  {
    hide Digits, Dec;
    var t := Dec(n) + rest;
    if blanks == [] {
      assert blanks + t == t && blanks + ([PLUS] + t) == [PLUS] + t && blanks + ([MINUS] + t) == [MINUS] + t;
      ParseDec(n, rest);
      DecDigits(n);
      DigitsStop(Dec(n), rest, 0);
      DigitsOfDec(n);
      assert ([PLUS] + t)[1..] == t && ([MINUS] + t)[1..] == t;
    } else {
      ParseSigned(blanks[1..], n, rest);
      assert (blanks + t)[1..] == blanks[1..] + t;
      assert (blanks + ([PLUS] + t))[1..] == blanks[1..] + ([PLUS] + t);
      assert (blanks + ([MINUS] + t))[1..] == blanks[1..] + ([MINUS] + t);
    }
  }

  lemma {:induction false} ParseNonNegative(s: Bytes)
    requires MINUS !in s
    ensures ParseInt(s) >= 0
    decreases |s|
  {
    if s != [] && IsSpace(s[0]) { ParseNonNegative(s[1..]); }
  }

  lemma {:induction false} DigitsAtLeast(s: Bytes, acc: nat)
    ensures Digits(s, acc) >= acc
    decreases |s|
  {
    if s != [] && IsDigit(s[0]) { DigitsAtLeast(s[1..], 10 * acc + (s[0] - 48)); }
  }

  /** A non-empty cut of a positive number still reads as a positive number. */
  lemma ParseCutPositive(n: nat, k: nat, rest: Bytes)
    requires n >= 1 && 1 <= k <= |Dec(n)|
    ensures ParseInt(Dec(n)[..k] + rest) >= 1
  {
    DecDigits(n);
    var t := Dec(n)[..k] + rest;
    assert t[0] == Dec(n)[0];
    DigitsAtLeast(t[1..], t[0] - 48);
  }

  // ------------------------------------------------------------------- Printing

  function PrintHeader(mark: Byte, n: nat): Bytes { [mark] + Dec(n) + CRLF }

  function PrintArg(a: Bytes): Bytes { PrintHeader(DOLLAR, |a|) + a + CRLF }

  function PrintArgs(args: Command): Bytes {
    if args == [] then [] else PrintArg(args[0]) + PrintArgs(args[1..])
  }

  /** The text of one command in the file. */
  function PrintCommand(c: Command): Bytes { PrintHeader(STAR, |c|) + PrintArgs(c) }

  function PrintAll(cs: seq<Command>): Bytes {
    if cs == [] then [] else PrintCommand(cs[0]) + PrintAll(cs[1..])
  }

  lemma {:induction false} PrintArgsAppend(args: Command, a: Bytes)
    ensures PrintArgs(args + [a]) == PrintArgs(args) + PrintArg(a)
    decreases |args|
  {
    if args == [] {
      assert args + [a] == [a] && [a][1..] == [];
    } else {
      assert (args + [a])[1..] == args[1..] + [a];
      PrintArgsAppend(args[1..], a);
    }
  }

  lemma {:induction false} PrintAllConcat(a: seq<Command>, b: seq<Command>)
    ensures PrintAll(a + b) == PrintAll(a) + PrintAll(b)
    decreases |a|
  {
    if a == [] {
      assert a + b == b;
    } else {
      assert (a + b)[1..] == a[1..] + b;
      PrintAllConcat(a[1..], b);
    }
  }

  /** The loop that appends one command to a buffer. */
  method CatAppendOnlyGenericCommand(dst: Bytes, argv: Command) returns (buf: Bytes)
    ensures buf == dst + PrintCommand(argv)
  {
    hide Dec;
    buf := dst + ([STAR] + Dec(|argv|) + CRLF);
    for j := 0 to |argv|
      invariant buf == dst + (PrintHeader(STAR, |argv|) + PrintArgs(argv[..j]))
    {
      var o := argv[j];
      PrintArgsAppend(argv[..j], o);
      assert argv[..j + 1] == argv[..j] + [o];
      buf := buf + ([DOLLAR] + Dec(|o|) + CRLF);
      buf := buf + o;
      buf := buf + CRLF;
    }
    assert argv[..|argv|] == argv;
  }

  /** Limits of the C types: argc is an int, lengths are read back as long. */
  predicate Printable(c: Command) {
    1 <= |c| < 0x8000_0000 && forall i | 0 <= i < |c| :: |c[i]| < 0x8000_0000_0000_0000
  }

  predicate AllPrintable(cs: seq<Command>) { forall i | 0 <= i < |cs| :: Printable(cs[i]) }

  // -------------------------------------------------------------------- Reading

  const LINE_MAX: nat := 127   // fgets with a buffer of 128

  /** Where fgets stops when it may read `room` more bytes. */
  function LineEnd(s: Bytes, pos: nat, room: nat): (e: nat)
    requires pos <= |s|
    ensures pos <= e <= |s| && (pos < |s| && room > 0 ==> pos < e)
    decreases room
  {
    if pos == |s| || room == 0 then pos
    else if s[pos] == LF then pos + 1
    else LineEnd(s, pos + 1, room - 1)
  }

  /** fgets stopped because the file ended, so feof is set. */
  predicate HitEof(s: Bytes, pos: nat, e: nat)
    requires pos < e <= |s|
  {
    e == |s| && s[e - 1] != LF && e - pos < LINE_MAX
  }

  datatype ArgResult = Arg(value: Bytes, next: nat) | NoArg(why: Stop)

  /** Short: the file ended too early.  Bad: not a log.  Fatal: cannot go on. */
  datatype Stop = Short | Bad | Fatal

  function ParseArg(s: Bytes, pos: nat): ArgResult
    requires pos <= |s|
  {
    if pos == |s| then NoArg(Short)
    else
      var e := LineEnd(s, pos, LINE_MAX);
      if s[pos] != DOLLAR then NoArg(Bad)
      else
        var len := ParseInt(s[pos + 1..e]);
        if len < 0 then NoArg(Fatal)
        else if len > |s| - e then NoArg(Short)
        else if |s| - (e + len) < 2 then NoArg(Short)
        else Arg(s[e..e + len], e + len + 2)
  }

  datatype ArgsResult = Args(args: Command, next: nat) | NoArgs(why: Stop)

  /** `n` arguments from `pos`, after those in `done`. */
  function ParseArgs(s: Bytes, pos: nat, n: nat, done: Command): ArgsResult
    requires pos <= |s|
    decreases n
  {
    if n == 0 then Args(done, pos)
    else
      match ParseArg(s, pos)
      case Arg(a, next) => ParseArgs(s, next, n - 1, done + [a])
      case NoArg(why) => NoArgs(why)
  }

  datatype CommandResult = Parsed(cmd: Command, next: nat) | End | NoCommand(why: Stop)

  function ParseCommand(s: Bytes, pos: nat): CommandResult
    requires pos <= |s|
  {
    if pos == |s| then End
    else
      var e := LineEnd(s, pos, LINE_MAX);
      if s[pos] != STAR then NoCommand(Bad)
      else if e == pos + 1 || s[pos + 1] == 0 then NoCommand(if HitEof(s, pos, e) then Short else Fatal)
      else
        var argc := ParseInt(s[pos + 1..e]);
        if argc < 1 then NoCommand(Bad)
        else
          match ParseArgs(s, e, argc, [])
          case Args(args, next) => Parsed(args, next)
          case NoArgs(why) => NoCommand(why)
  }

  lemma {:induction false} ParseArgsBounds(s: Bytes, pos: nat, n: nat, done: Command)
    requires pos <= |s|
    ensures var r := ParseArgs(s, pos, n, done);
            r.Args? ==> pos <= r.next <= |s| && |r.args| == |done| + n
    decreases n
  {
    if n > 0 {
      match ParseArg(s, pos)
      case Arg(a, next) => ParseArgsBounds(s, next, n - 1, done + [a]);
      case NoArg(_) =>
    }
  }

  lemma ParseCommandProgress(s: Bytes, pos: nat)
    requires pos <= |s|
    ensures var r := ParseCommand(s, pos); r.Parsed? ==> pos < r.next <= |s| && |r.cmd| >= 1
  {
    if pos < |s| {
      var e := LineEnd(s, pos, LINE_MAX);
      var argc := ParseInt(s[pos + 1..e]);
      if argc >= 1 { ParseArgsBounds(s, e, argc, []); }
    }
  }

  // --------------------------------------------------------------- Replaying

  function Lower(name: Bytes): Bytes {
    seq(|name|, i requires 0 <= i < |name| => if 65 <= name[i] <= 90 then name[i] + 32 else name[i])
  }

  const MULTI: Bytes := [109, 117, 108, 116, 105]
  const EXEC: Bytes := [101, 120, 101, 99]

  predicate IsMulti(c: Command) { |c| >= 1 && Lower(c[0]) == MULTI }
  predicate IsExec(c: Command) { |c| >= 1 && Lower(c[0]) == EXEC }

  predicate EitherCase(name: Bytes, word: Bytes) {
    |name| == |word| && forall i | 0 <= i < |word| :: (name[i] as int) in {word[i], word[i] as int - 32}
  }

  lemma AnyCase(name: Bytes, word: Bytes)
    requires forall i | 0 <= i < |word| :: 97 <= word[i] <= 122
    ensures Lower(name) == word <==> EitherCase(name, word)
  {
    if EitherCase(name, word) {
      assert forall i | 0 <= i < |name| :: Lower(name)[i] == word[i];
    }
  }

  /** MULTI and EXEC are recognized in any case of their letters. */
  lemma GroupWords(c: Command)
    ensures IsMulti(c) <==> |c| >= 1 && EitherCase(c[0], MULTI)
    ensures IsExec(c) <==> |c| >= 1 && EitherCase(c[0], EXEC)
  {
    if |c| >= 1 {
      AnyCase(c[0], MULTI);
      AnyCase(c[0], EXEC);
    }
  }

  /** What the loading client has done so far. */
  datatype Client = Client(
    applied: seq<Command>,        // commands that took effect, in order
    inMulti: bool,
    queued: seq<Command>,
    validUpTo: nat,
    validBeforeMulti: nat
  )

  /** The offsets begin at 0, also when an RDB preamble has been read before. */
  function NewClient(): Client { Client([], false, [], 0, 0) }

  /** Running one command that ends at offset `next`. */
  function Run(c: Client, cmd: Command, next: nat, loadTruncated: bool): Client {
    var c1 := if IsMulti(cmd) then c.(validBeforeMulti := c.validUpTo) else c;
    var c2 := if c1.inMulti && !IsExec(cmd) then c1.(queued := c1.queued + [cmd])
              else if IsMulti(cmd) then c1.(inMulti := true, queued := [])
              else if IsExec(cmd) then
                if c1.inMulti then c1.(applied := c1.applied + c1.queued, inMulti := false, queued := []) else c1
              else c1.(applied := c1.applied + [cmd]);
    if loadTruncated then c2.(validUpTo := next) else c2
  }

  datatype Outcome = Clean | Truncated | Failed(why: Stop) | UnknownCommand

  /** Reading from `pos` to the end, for a client that has come this far. */
  function Load(s: Bytes, pos: nat, c: Client, known: set<Bytes>, loadTruncated: bool): (Client, Outcome)
    requires pos <= |s|
    decreases |s| - pos
  {
    ParseCommandProgress(s, pos);
    match ParseCommand(s, pos)
    case Parsed(cmd, next) =>
      if Lower(cmd[0]) !in known then (c, UnknownCommand)
      else Load(s, next, Run(c, cmd, next, loadTruncated), known, loadTruncated)
    case End =>
      if !c.inMulti then (c, Clean)
      else (c.(validUpTo := c.validBeforeMulti), if loadTruncated then Truncated else Failed(Short))
    case NoCommand(why) =>
      (c, if why == Short && loadTruncated then Truncated else Failed(why))
  }

  method FGets(s: Bytes, pos: nat) returns (e: nat)
    requires pos <= |s|
    ensures e == LineEnd(s, pos, LINE_MAX)
  {
    e := pos;
    var room := LINE_MAX;
    while e < |s| && room > 0
      invariant pos <= e <= |s|
      invariant LineEnd(s, e, room) == LineEnd(s, pos, LINE_MAX)
      decreases room
    {
      e := e + 1;
      room := room - 1;
      if s[e - 1] == LF { return; }
    }
  }

  /** The loop over the arguments of one command. */
  method ReadArgs(s: Bytes, start: nat, argc: nat) returns (r: ArgsResult)
    requires start <= |s|
    ensures r == ParseArgs(s, start, argc, [])
  {
    hide ParseInt, LineEnd;
    var argv: Command := [];
    var at: nat := start;
    for j := 0 to argc
      invariant at <= |s|
      invariant ParseArgs(s, at, argc - j, argv) == ParseArgs(s, start, argc, [])
    {
      if at == |s| { return NoArgs(Short); }
      var e := FGets(s, at);
      if s[at] != DOLLAR { return NoArgs(Bad); }
      var len := ParseInt(s[at + 1..e]);
      if len < 0 { return NoArgs(Fatal); }
      if len > 0 && |s| - e < len { return NoArgs(Short); }
      var arg := s[e..e + len];
      if |s| - (e + len) < 2 { return NoArgs(Short); }
      argv := argv + [arg];
      at := e + len + 2;
    }
    r := Args(argv, at);
  }

  method ReadCommand(s: Bytes, pos: nat) returns (r: CommandResult)
    requires pos <= |s|
    ensures r == ParseCommand(s, pos)
  {
    hide ParseInt, LineEnd, ParseArgs;
    if pos == |s| { return End; }
    var e := FGets(s, pos);
    if s[pos] != STAR { return NoCommand(Bad); }
    if e == pos + 1 || s[pos + 1] == 0 { return NoCommand(if HitEof(s, pos, e) then Short else Fatal); }
    var argc := ParseInt(s[pos + 1..e]);
    if argc < 1 { return NoCommand(Bad); }
    var args := ReadArgs(s, e, argc);
    r := match args case Args(a, next) => Parsed(a, next) case NoArgs(why) => NoCommand(why);
  }

  /** The reading loop, from behind the preamble if there is one.  On Truncated, the file is
      cut at the client's validUpTo. */
  method LoadAppendOnlyFile(s: Bytes, start: nat, known: set<Bytes>, loadTruncated: bool)
    returns (c: Client, outcome: Outcome)
    requires start <= |s|
    ensures (c, outcome) == Load(s, start, NewClient(), known, loadTruncated)
  {
    hide ParseCommand, Run, Lower;
    c := NewClient();
    var pos := start;
    while true
      invariant pos <= |s|
      invariant Load(s, pos, c, known, loadTruncated) == Load(s, start, NewClient(), known, loadTruncated)
      decreases |s| - pos
    {
      ParseCommandProgress(s, pos);
      var r := ReadCommand(s, pos);
      if r.End? { break; }
      if r.NoCommand? {
        return c, if r.why == Short && loadTruncated then Truncated else Failed(r.why);
      }
      if Lower(r.cmd[0]) !in known { return c, UnknownCommand; }
      c := Run(c, r.cmd, r.next, loadTruncated);
      pos := r.next;
    }
    if c.inMulti {
      c := c.(validUpTo := c.validBeforeMulti);
      return c, if loadTruncated then Truncated else Failed(Short);
    }
    outcome := Clean;
  }

  // ------------------------------------------------------ Printed text, cut at m

  /** A printed header fits in one fgets. */
  lemma {:induction false} DecLength(n: nat, k: nat, limit: nat)
    requires n < limit && limit == Pow10(k) && k >= 1
    ensures |Dec(n)| <= k
    decreases k
  {
    if n >= 10 {
      DecLength(n / 10, k - 1, Pow10(k - 1));
    }
  }

  function Pow10(k: nat): nat { if k == 0 then 1 else 10 * Pow10(k - 1) }

  lemma HeaderFits(n: nat)
    requires n < 0x8000_0000_0000_0000
    ensures |Dec(n)| <= 19
  {
    assert Pow10(5) == 100000 && Pow10(10) == 100000 * 100000;
    Pow10Nineteen();
    DecLength(n, 19, Pow10(19));
  }

  lemma Pow10Nineteen()
    ensures Pow10(19) == 10000000000000000000
  {
    assert Pow10(4) == 10000;
    assert Pow10(8) == 100000000;
    assert Pow10(12) == 1000000000000;
    assert Pow10(16) == 10000000000000000;
  }

  /** Reading a line whose newline is where it should be, or cut off before it. */
  lemma {:induction false} LineEndAt(s: Bytes, pos: nat, e: nat, room: nat)
    requires pos < e <= |s| && e - pos <= room
    requires forall i | pos <= i < e - 1 :: s[i] != LF
    requires s[e - 1] == LF || (e == |s| && e - pos < room)
    ensures LineEnd(s, pos, room) == e
    decreases room
  {
    if s[pos] != LF {
      if pos + 1 == e {
        assert LineEnd(s, pos + 1, room - 1) == pos + 1;
      } else {
        LineEndAt(s, pos + 1, e, room - 1);
      }
    }
  }

  /** The text `t` stands at offset `pos`. */
  predicate At(s: Bytes, pos: nat, t: Bytes) {
    pos + |t| <= |s| && s[pos..pos + |t|] == t
  }

  lemma AtSplit(s: Bytes, pos: nat, a: Bytes, b: Bytes)
    requires At(s, pos, a + b)
    ensures At(s, pos, a) && At(s, pos + |a|, b)
  {
    var t := s[pos..pos + |a + b|];
    assert t == a + b;
    assert s[pos..pos + |a|] == t[..|a|];
    assert s[pos + |a|..pos + |a| + |b|] == t[|a|..];
  }

  lemma HeaderBytes(s: Bytes, pos: nat, mark: Byte, n: nat)
    requires At(s, pos, PrintHeader(mark, n)) && mark != LF
    ensures var d := Dec(n); var e := pos + |d| + 3;
            |PrintHeader(mark, n)| == |d| + 3 && s[pos] == mark && s[pos + 1..e] == d + CRLF && s[e - 1] == LF &&
            (forall i | pos <= i < e - 1 :: s[i] != LF) && MINUS !in s[pos + 1..e]
  {
    var d, h := Dec(n), PrintHeader(mark, n);
    var e := pos + |h|;
    DecDigits(n);
    assert h == [mark] + (d + CRLF);
    AtSplit(s, pos, [mark], d + CRLF);
    assert s[pos..pos + 1] == [mark];
    assert s[pos + 1..e] == d + CRLF;
    forall i | pos < i < e ensures s[i] == (d + CRLF)[i - pos - 1] {
      assert s[pos + 1..e][i - pos - 1] == s[i];
    }
  }

  lemma WholeHeader(s: Bytes, pos: nat, mark: Byte, n: nat, m: nat)
    requires At(s, pos, PrintHeader(mark, n)) && mark != LF && n < 0x8000_0000_0000_0000
    requires pos + |PrintHeader(mark, n)| <= m <= |s|
    ensures var t, e := s[..m], pos + |PrintHeader(mark, n)|;
            e >= pos + 4 && LineEnd(t, pos, LINE_MAX) == e && ParseInt(t[pos + 1..e]) == n && t[pos] == mark
  {
    var t, e := s[..m], pos + |PrintHeader(mark, n)|;
    HeaderBytes(s, pos, mark, n);
    HeaderFits(n);
    DecDigits(n);
    assert t[pos + 1..e] == s[pos + 1..e];
    LineEndAt(t, pos, e, LINE_MAX);
    ParseDec(n, CRLF);
  }

  lemma CutHeader(s: Bytes, pos: nat, mark: Byte, n: nat, m: nat)
    requires At(s, pos, PrintHeader(mark, n)) && mark != LF && n < 0x8000_0000_0000_0000
    requires pos < m < pos + |PrintHeader(mark, n)|
    ensures var t := s[..m];
            t[pos] == mark && LineEnd(t, pos, LINE_MAX) == m && HitEof(t, pos, m) && ParseInt(t[pos + 1..m]) >= 0 &&
            (n >= 1 && m > pos + 1 ==> ParseInt(t[pos + 1..m]) >= 1 && t[pos + 1] != 0)
  {
    hide Dec, ParseInt, LineEnd;
    var t, d := s[..m], Dec(n);
    HeaderBytes(s, pos, mark, n);
    HeaderFits(n);
    DecDigits(n);
    LineEndAt(t, pos, m, LINE_MAX);
    var line := t[pos + 1..m];
    var full := s[pos + 1..pos + |d| + 3];
    forall i | 0 <= i < |line| ensures line[i] == full[i] {
      assert line[i] == t[pos + 1 + i] == s[pos + 1 + i] == full[i];
    }
    assert MINUS !in line;
    ParseNonNegative(line);
    if n >= 1 && m > pos + 1 {
      var k := if |line| <= |d| then |line| else |d|;
      assert full == d + CRLF;
      assert forall i | 0 <= i < k :: full[i] == (d + CRLF)[i] == d[i];
      assert line == d[..k] + line[k..];
      ParseCutPositive(n, k, line[k..]);
      assert t[pos + 1] == line[0] == d[0];
    }
  }

  lemma ParseArgCut(s: Bytes, pos: nat, a: Bytes, m: nat)
    requires At(s, pos, PrintArg(a)) && |a| < 0x8000_0000_0000_0000 && pos <= m <= |s|
    ensures ParseArg(s[..m], pos) ==
            if m >= pos + |PrintArg(a)| then Arg(a, pos + |PrintArg(a)|) else NoArg(Short)
  {
    hide LineEnd, ParseInt, PrintHeader;
    var t, h := s[..m], PrintHeader(DOLLAR, |a|);
    assert PrintArg(a) == h + (a + CRLF);
    AtSplit(s, pos, h, a + CRLF);
    AtSplit(s, pos + |h|, a, CRLF);
    var e := pos + |h|;
    if pos < m < e {
      CutHeader(s, pos, DOLLAR, |a|, m);
    } else if e <= m {
      WholeHeader(s, pos, DOLLAR, |a|, m);
      if m >= e + |a| + 2 {
        assert s[e..e + |a|] == a;
        assert t[e..e + |a|] == s[e..e + |a|];
      }
    }
  }

  lemma {:induction false} ParseArgsCut(s: Bytes, pos: nat, args: Command, done: Command, m: nat)
    requires At(s, pos, PrintArgs(args)) && pos <= m <= |s|
    requires forall i | 0 <= i < |args| :: |args[i]| < 0x8000_0000_0000_0000
    ensures ParseArgs(s[..m], pos, |args|, done) ==
            if m >= pos + |PrintArgs(args)| then Args(done + args, pos + |PrintArgs(args)|) else NoArgs(Short)
    decreases |args|
  {
    hide ParseArg, PrintArg;
    if args == [] {
      assert done + args == done;
    } else {
      AtSplit(s, pos, PrintArg(args[0]), PrintArgs(args[1..]));
      ParseArgCut(s, pos, args[0], m);
      if m >= pos + |PrintArg(args[0])| {
        ParseArgsCut(s, pos + |PrintArg(args[0])|, args[1..], done + [args[0]], m);
        assert done + [args[0]] + args[1..] == done + args;
      }
    }
  }

  /** A command cut anywhere but at its end is recognised as cut. */
  lemma ParseCommandCut(s: Bytes, pos: nat, c: Command, m: nat)
    requires At(s, pos, PrintCommand(c)) && Printable(c) && pos <= m <= |s|
    ensures ParseCommand(s[..m], pos) ==
            if m == pos then End
            else if m >= pos + |PrintCommand(c)| then Parsed(c, pos + |PrintCommand(c)|)
            else NoCommand(Short)
  {
    hide LineEnd, ParseInt, PrintHeader, PrintArgs;
    var t, h := s[..m], PrintHeader(STAR, |c|);
    AtSplit(s, pos, h, PrintArgs(c));
    var e := pos + |h|;
    if m == pos {
    } else if m < e {
      CutHeader(s, pos, STAR, |c|, m);
      var argc := ParseInt(t[pos + 1..m]);
      if m > pos + 1 { assert ParseArgs(t, m, argc, []) == NoArgs(Short); }
    } else {
      WholeHeader(s, pos, STAR, |c|, m);
      ParseArgsCut(s, e, c, [], m);
      assert [] + c == c;
      DigitAfterMark(s, pos, |c|, m);
    }
  }

  lemma DigitAfterMark(s: Bytes, pos: nat, n: nat, m: nat)
    requires At(s, pos, PrintHeader(STAR, n)) && pos + |PrintHeader(STAR, n)| <= m <= |s|
    ensures pos + 1 < m && s[..m][pos + 1] != 0
  {
    HeaderBytes(s, pos, STAR, n);
    DecDigits(n);
    assert s[pos + 1] == s[pos + 1..pos + |Dec(n)| + 3][0] == Dec(n)[0];
  }

  // ------------------------------------------------------------------ Recovery

  /** How many of the commands lie completely within the first `room` bytes. */
  function Complete(cs: seq<Command>, room: nat): (k: nat)
    ensures k <= |cs|
    decreases |cs|
  {
    if cs == [] || room < |PrintCommand(cs[0])| then 0
    else 1 + Complete(cs[1..], room - |PrintCommand(cs[0])|)
  }

  lemma {:induction false} CompleteIsMaximal(cs: seq<Command>, room: nat)
    ensures var k := Complete(cs, room);
            |PrintAll(cs[..k])| <= room && (k < |cs| ==> room < |PrintAll(cs[..k + 1])|)
    decreases |cs|
  {
    var k := Complete(cs, room);
    if cs != [] && room >= |PrintCommand(cs[0])| {
      CompleteIsMaximal(cs[1..], room - |PrintCommand(cs[0])|);
      assert cs[..k][1..] == cs[1..][..k - 1];
      if k < |cs| { assert cs[..k + 1][1..] == cs[1..][..k]; }
    } else if cs != [] {
      assert cs[..1][1..] == [];
    }
  }

  /** Running commands printed one after the other from offset `pos`. */
  function RunAll(c: Client, cs: seq<Command>, pos: nat, loadTruncated: bool): Client
    decreases |cs|
  {
    if cs == [] then c
    else
      var next := pos + |PrintCommand(cs[0])|;
      RunAll(Run(c, cs[0], next, loadTruncated), cs[1..], next, loadTruncated)
  }

  predicate AllKnown(cs: seq<Command>, known: set<Bytes>) {
    forall i | 0 <= i < |cs| :: |cs[i]| >= 1 && Lower(cs[i][0]) in known
  }

  /** What a client is left with when the file ends at `m`, its last complete command having ended at `done`. */
  function Finish(c: Client, m: nat, done: nat, loadTruncated: bool): (Client, Outcome) {
    if m != done then (c, if loadTruncated then Truncated else Failed(Short))
    else if !c.inMulti then (c, Clean)
    else (c.(validUpTo := c.validBeforeMulti), if loadTruncated then Truncated else Failed(Short))
  }

  lemma FirstCommand(c: Client, cs: seq<Command>, k: nat, pos: nat, loadTruncated: bool)
    requires 1 <= k <= |cs|
    ensures var next := pos + |PrintCommand(cs[0])|;
            RunAll(c, cs[..k], pos, loadTruncated) ==
            RunAll(Run(c, cs[0], next, loadTruncated), cs[1..][..k - 1], next, loadTruncated)
    ensures |PrintAll(cs[..k])| == |PrintCommand(cs[0])| + |PrintAll(cs[1..][..k - 1])|
  {
    hide PrintCommand, Run;
    assert cs[..k][1..] == cs[1..][..k - 1] && cs[..k][0] == cs[0];
  }

  lemma NoCommandYet(c: Client, cs: seq<Command>, pos: nat, loadTruncated: bool)
    ensures RunAll(c, cs[..0], pos, loadTruncated) == c && |PrintAll(cs[..0])| == 0
  {
  }

  /** Reading a printed log cut at any byte runs exactly its complete commands. */
  lemma {:induction false} LoadCut(s: Bytes, pos: nat, cs: seq<Command>, c: Client, known: set<Bytes>,
                                   loadTruncated: bool, m: nat)
    requires At(s, pos, PrintAll(cs)) && pos <= m <= |s| == pos + |PrintAll(cs)|
    requires AllPrintable(cs) && AllKnown(cs, known)
    ensures var k := Complete(cs, m - pos);
            Load(s[..m], pos, c, known, loadTruncated) ==
            Finish(RunAll(c, cs[..k], pos, loadTruncated), m, pos + |PrintAll(cs[..k])|, loadTruncated)
    decreases |cs|
  {
    hide ParseCommand, PrintCommand, Run, RunAll, Lower, At, Printable;
    var k := Complete(cs, m - pos);
    NoCommandYet(c, cs, pos, loadTruncated);
    if cs == [] {
      assert ParseCommand(s[..m], pos) == End by { ParseEnd(s[..m]); }
    } else {
      var p := PrintCommand(cs[0]);
      AtSplit(s, pos, p, PrintAll(cs[1..]));
      ParseCommandCut(s, pos, cs[0], m);
      CommandNotEmpty(cs[0]);
      if m >= pos + |p| {
        var next := pos + |p|;
        LoadCut(s, next, cs[1..], Run(c, cs[0], next, loadTruncated), known, loadTruncated, m);
        FirstCommand(c, cs, k, pos, loadTruncated);
      }
    }
  }

  lemma ParseEnd(s: Bytes)
    ensures ParseCommand(s, |s|) == End
  {}

  lemma CommandNotEmpty(c: Command)
    ensures |PrintCommand(c)| >= 4
  {
  }

  // ------------------------------------------------- Transactions, by themselves

  /** Index of the MULTI that is still waiting for its EXEC, or -1. */
  function OpenMulti(cs: seq<Command>): (i: int)
    ensures -1 <= i < |cs|
  {
    if cs == [] then -1
    else
      var n := |cs| - 1;
      var before := OpenMulti(cs[..n]);
      if before != -1 then (if IsExec(cs[n]) then -1 else before)
      else if IsMulti(cs[n]) then n else -1
  }

  /** Index of the last MULTI, or -1. */
  function LastMulti(cs: seq<Command>): (i: int)
    ensures -1 <= i < |cs|
  {
    if cs == [] then -1 else if IsMulti(cs[|cs| - 1]) then |cs| - 1 else LastMulti(cs[..|cs| - 1])
  }

  /** The commands that take effect: those outside groups, and those of closed groups. */
  function Effect(cs: seq<Command>): seq<Command> {
    if cs == [] then []
    else
      var n := |cs| - 1;
      var open := OpenMulti(cs[..n]);
      if open != -1 then
        if IsExec(cs[n]) then Effect(cs[..n]) + cs[open + 1..n] else Effect(cs[..n])
      else if IsMulti(cs[n]) || IsExec(cs[n]) then Effect(cs[..n])
      else Effect(cs[..n]) + [cs[n]]
  }

  lemma {:induction false} RunAllAppend(c: Client, cs: seq<Command>, x: Command, pos: nat, loadTruncated: bool)
    ensures RunAll(c, cs + [x], pos, loadTruncated) ==
            Run(RunAll(c, cs, pos, loadTruncated), x, pos + |PrintAll(cs + [x])|, loadTruncated)
    decreases |cs|
  {
    hide Run, PrintCommand;
    if cs == [] {
      assert cs + [x] == [x] && [x][1..] == [];
    } else {
      assert (cs + [x])[1..] == cs[1..] + [x];
      var next := pos + |PrintCommand(cs[0])|;
      RunAllAppend(Run(c, cs[0], next, loadTruncated), cs[1..], x, next, loadTruncated);
    }
  }

  /** The offset recorded behind the last of `cs`, which were printed from `start` on. */
  function Kept(start: nat, cs: seq<Command>): nat {
    if cs == [] then 0 else start + |PrintAll(cs)|
  }

  /** A client that ran `cs` from offset `start`. */
  predicate Ran(c: Client, cs: seq<Command>, start: nat) {
    var open, last := OpenMulti(cs), LastMulti(cs);
    c.applied == Effect(cs) && (c.inMulti <==> open != -1) &&
    (open != -1 ==> c.queued == cs[open + 1..]) &&
    c.validUpTo == Kept(start, cs) &&
    (last != -1 ==> c.validBeforeMulti == Kept(start, cs[..last]))
  }

  lemma RanNothing(start: nat)
    ensures Ran(RunAll(NewClient(), [], start, true), [], start)
  {}

  lemma {:induction false} RunAllRan(cs: seq<Command>, start: nat)
    ensures Ran(RunAll(NewClient(), cs, start, true), cs, start)
    decreases |cs|
  {
    hide RunAll, PrintAll, Ran, Run;
    if cs == [] {
      RanNothing(start);
    } else {
      var n := |cs| - 1;
      RunAllRan(cs[..n], start);
      assert cs == cs[..n] + [cs[n]];
      RunAllAppend(NewClient(), cs[..n], cs[n], start, true);
      RunRan(RunAll(NewClient(), cs[..n], start, true), cs, start);
    }
  }

  /** What the next command does to the open group and the last MULTI. */
  lemma MultiStep(cs: seq<Command>, n: nat)
    requires |cs| == n + 1
    ensures var before := OpenMulti(cs[..n]);
            OpenMulti(cs) == if before != -1 then (if IsExec(cs[n]) then -1 else before)
                             else if IsMulti(cs[n]) then n else -1
    ensures LastMulti(cs) == if IsMulti(cs[n]) then n else LastMulti(cs[..n])
  {
    hide IsMulti, IsExec;
  }

  lemma EffectStep(cs: seq<Command>, n: nat)
    requires |cs| == n + 1
    ensures var open := OpenMulti(cs[..n]);
            Effect(cs) == if open != -1 then
                            if IsExec(cs[n]) then Effect(cs[..n]) + cs[open + 1..n] else Effect(cs[..n])
                          else if IsMulti(cs[n]) || IsExec(cs[n]) then Effect(cs[..n]) else Effect(cs[..n]) + [cs[n]]
  {
    hide IsMulti, IsExec, OpenMulti;
  }

  /** Offsets after one more command. */
  lemma RunOffsets(c: Client, cs: seq<Command>, start: nat)
    requires cs != [] && Ran(c, cs[..|cs| - 1], start)
    ensures var r, last := Run(c, cs[|cs| - 1], start + |PrintAll(cs)|, true), LastMulti(cs);
            r.validUpTo == Kept(start, cs) && (last != -1 ==> r.validBeforeMulti == Kept(start, cs[..last]))
  {
    hide PrintAll, IsMulti, IsExec, OpenMulti, LastMulti, Effect;
    var n := |cs| - 1;
    var last := LastMulti(cs[..n]);
    MultiStep(cs, n);
    if last != -1 { assert cs[..n][..last] == cs[..last]; }
  }

  lemma QueuedSoFar(cs: seq<Command>, n: nat, open: int)
    requires |cs| == n + 1 && -1 <= open < n
    ensures open != -1 ==>
              cs[..n][open + 1..] + [cs[n]] == cs[open + 1..] && cs[..n][open + 1..] == cs[open + 1..n]
    ensures cs[n + 1..] == []
  {}

  /** Commands applied and queued after one more. */
  lemma RunGroups(c: Client, cs: seq<Command>, start: nat)
    requires cs != [] && Ran(c, cs[..|cs| - 1], start)
    ensures var r, open := Run(c, cs[|cs| - 1], start + |PrintAll(cs)|, true), OpenMulti(cs);
            r.applied == Effect(cs) && (r.inMulti <==> open != -1) && (open != -1 ==> r.queued == cs[open + 1..])
  {
    hide PrintAll, IsMulti, IsExec, OpenMulti, LastMulti, Effect, Kept;
    var n := |cs| - 1;
    var open := OpenMulti(cs[..n]);
    MultiIsNotExec(cs[n]);
    MultiStep(cs, n);
    EffectStep(cs, n);
    QueuedSoFar(cs, n, open);
  }

  lemma RunRan(c: Client, cs: seq<Command>, start: nat)
    requires cs != [] && Ran(c, cs[..|cs| - 1], start)
    ensures Ran(Run(c, cs[|cs| - 1], start + |PrintAll(cs)|, true), cs, start)
  {
    hide Run, PrintAll, OpenMulti, LastMulti, Effect, Kept;
    RunOffsets(c, cs, start);
    RunGroups(c, cs, start);
  }

  lemma MultiIsNotExec(c: Command)
    ensures !(IsMulti(c) && IsExec(c))
  {}

  lemma {:induction false} OpenIsMulti(cs: seq<Command>)
    ensures OpenMulti(cs) != -1 ==> IsMulti(cs[OpenMulti(cs)]) && OpenMulti(cs) <= LastMulti(cs)
    decreases |cs|
  {
    if cs != [] { OpenIsMulti(cs[..|cs| - 1]); }
  }

  // -------------------------------------------------------------- Main theorems

  /** What loading gives when the log behind a preamble is cut after `m` bytes. */
  function Recovered(pre: Bytes, cs: seq<Command>, m: nat, known: set<Bytes>): (Client, Outcome)
    requires m <= |PrintAll(cs)|
  {
    Load((pre + PrintAll(cs))[..|pre| + m], |pre|, NewClient(), known, true)
  }

  /** The cut is at the end of a command, inside a group. */
  predicate CleanInGroup(cs: seq<Command>, m: nat) {
    var k := Complete(cs, m);
    m == |PrintAll(cs[..k])| && OpenMulti(cs[..k]) != -1
  }

  /** The commands in front of the offset that is kept: the complete ones, or those in front
      of the last MULTI. */
  function KeptCommands(cs: seq<Command>, m: nat): (j: nat)
    ensures j <= Complete(cs, m)
  {
    var k := Complete(cs, m);
    OpenIsMulti(cs[..k]);
    if CleanInGroup(cs, m) then LastMulti(cs[..k]) else k
  }

  /** A log cut at any byte, behind a preamble of any length: exactly the complete commands
      run, and the file is kept up to their end unless the cut is clean and inside a group,
      and then up to the last MULTI. */
  lemma CutLogRecovers(pre: Bytes, cs: seq<Command>, m: nat, known: set<Bytes>)
    requires AllPrintable(cs) && AllKnown(cs, known) && m <= |PrintAll(cs)|
    ensures var k := Complete(cs, m);
            var (c, outcome) := Recovered(pre, cs, m, known);
            c.applied == Effect(cs[..k]) && c.validUpTo == Kept(|pre|, cs[..KeptCommands(cs, m)]) &&
            outcome == if m == |PrintAll(cs[..k])| && OpenMulti(cs[..k]) == -1 then Clean else Truncated
  {
    hide PrintAll, Effect, OpenMulti, LastMulti, Load, RunAll, AllPrintable, AllKnown, Complete, IsMulti;
    var k := Complete(cs, m);
    var s := pre + PrintAll(cs);
    assert At(s, |pre|, PrintAll(cs));
    LoadCut(s, |pre|, cs, NewClient(), known, true, |pre| + m);
    RunAllRan(cs[..k], |pre|);
    OpenIsMulti(cs[..k]);
    var last := LastMulti(cs[..k]);
    if last != -1 { assert cs[..k][..last] == cs[..last]; }
  }

  /** The offset kept is the end of the commands kept exactly if there is no preamble or some
      command is kept. */
  lemma KeptExactly(pre: Bytes, cs: seq<Command>, m: nat, known: set<Bytes>)
    requires AllPrintable(cs) && AllKnown(cs, known) && m <= |PrintAll(cs)|
    ensures var j := KeptCommands(cs, m);
            Recovered(pre, cs, m, known).0.validUpTo == |pre| + |PrintAll(cs[..j])| <==> pre == [] || j > 0
  {
    hide Load, KeptCommands, AllKnown, AllPrintable;
    CutLogRecovers(pre, cs, m, known);
  }

  lemma {:induction false} PrintAllPrefix(cs: seq<Command>, j: nat)
    requires j <= |cs|
    ensures PrintAll(cs[..j]) <= PrintAll(cs)
  {
    assert cs == cs[..j] + cs[j..];
    PrintAllConcat(cs[..j], cs[j..]);
  }

  lemma PrintNothing()
    ensures PrintAll([]) == []
  {}

  /** The preamble is kept only in front of a command. */
  function KeptPreamble(pre: Bytes, kept: seq<Command>): Bytes {
    if kept == [] then [] else pre
  }

  /** What is left of the file: the preamble with the commands kept, or else nothing at all. */
  lemma KeptFile(pre: Bytes, cs: seq<Command>, m: nat, known: set<Bytes>)
    requires AllPrintable(cs) && AllKnown(cs, known) && m <= |PrintAll(cs)|
    ensures var at := Recovered(pre, cs, m, known).0.validUpTo;
            var j := KeptCommands(cs, m);
            at <= |pre| + m && (pre + PrintAll(cs))[..at] == KeptPreamble(pre, cs[..j]) + PrintAll(cs[..j])
  {
    hide Load, KeptCommands, AllKnown, AllPrintable, PrintAll, Complete;
    var j, k := KeptCommands(cs, m), Complete(cs, m);
    CutLogRecovers(pre, cs, m, known);
    KeptExactly(pre, cs, m, known);
    CompleteIsMaximal(cs, m);
    PrintAllPrefix(cs, j);
    PrintAllPrefix(cs[..k], j);
    assert cs[..k][..j] == cs[..j];
    if j > 0 {
      assert (pre + PrintAll(cs))[..|pre| + |PrintAll(cs[..j])|] == pre + PrintAll(cs)[..|PrintAll(cs[..j])|];
    } else {
      assert cs[..0] == [] && PrintAll([]) == [] by { PrintNothing(); }
    }
  }

  /** A preamble, and the first command behind it cut after one byte: nothing is kept. */
  lemma PreambleLost()
    ensures var pre, cs := [82, 69, 68, 73, 83], [[[112]]];
            |PrintAll(cs)| >= 1 &&
            var (c, outcome) := Recovered(pre, cs, 1, {[112]});
            outcome == Truncated && c.validUpTo == 0 && KeptPreamble(pre, cs[..KeptCommands(cs, 1)]) == []
  {
    var pre: Bytes, cs: seq<Command> := [82, 69, 68, 73, 83], [[[112]]];
    CommandNotEmpty(cs[0]);
    assert Lower(cs[0][0]) == [112];
    CutLogRecovers(pre, cs, 1, {[112]});
    assert Complete(cs, 1) == 0 && cs[..0] == [];
    assert KeptCommands(cs, 1) == 0;
  }

  /** An uncut log without an open group loads cleanly and completely. */
  lemma RoundTrip(pre: Bytes, cs: seq<Command>, known: set<Bytes>)
    requires AllPrintable(cs) && AllKnown(cs, known) && OpenMulti(cs) == -1
    ensures var (c, outcome) := Recovered(pre, cs, |PrintAll(cs)|, known);
            outcome == Clean && c.applied == Effect(cs)
  {
    hide Load, AllPrintable, AllKnown;
    CompleteAt(cs, |cs|);
    assert cs[..|cs|] == cs;
    CutLogRecovers(pre, cs, |PrintAll(cs)|, known);
  }

  /** Plain commands take effect one by one, unless a group is open in front of them: then
      they all join the group. */
  lemma {:induction false} PlainAfter(cs: seq<Command>, more: seq<Command>)
    requires forall i | 0 <= i < |more| :: !IsMulti(more[i]) && !IsExec(more[i])
    ensures OpenMulti(cs + more) == OpenMulti(cs) && LastMulti(cs + more) == LastMulti(cs)
    ensures Effect(cs + more) == if OpenMulti(cs) == -1 then Effect(cs) + more else Effect(cs)
    decreases |more|
  {
    hide IsMulti, IsExec, OpenMulti, LastMulti, Effect;
    if more == [] {
      assert cs + more == cs && Effect(cs) + more == Effect(cs);
    } else {
      var n := |more| - 1;
      PlainAfter(cs, more[..n]);
      var all := cs + more;
      assert all[..|cs| + n] == cs + more[..n] && all[|cs| + n] == more[n];
      MultiStep(all, |cs| + n);
      EffectStep(all, |cs| + n);
      assert Effect(cs) + more[..n] + [more[n]] == Effect(cs) + more;
    }
  }

  /** Without transactions everything takes effect. */
  lemma PlainEffect(cs: seq<Command>)
    requires forall i | 0 <= i < |cs| :: !IsMulti(cs[i]) && !IsExec(cs[i])
    ensures Effect(cs) == cs && OpenMulti(cs) == -1
  {
    PlainAfter([], cs);
    assert [] + cs == cs;
  }

  lemma {:induction false} CompleteAt(cs: seq<Command>, k: nat)
    requires k <= |cs|
    ensures |PrintAll(cs[..k])| <= |PrintAll(cs)| && Complete(cs, |PrintAll(cs[..k])|) == k
    decreases k
  {
    hide PrintCommand;
    if k > 0 {
      assert cs[..k][1..] == cs[1..][..k - 1];
      CompleteAt(cs[1..], k - 1);
    } else if cs != [] {
      CommandNotEmpty(cs[0]);
      assert cs[..0] == [];
    }
  }

  lemma {:induction false} PrintAllGrows(cs: seq<Command>, i: nat, j: nat)
    requires i < j <= |cs|
    ensures |PrintAll(cs[..i])| < |PrintAll(cs[..j])|
  {
    hide PrintCommand;
    assert cs[..j] == cs[..i] + cs[i..j];
    PrintAllConcat(cs[..i], cs[i..j]);
    CommandNotEmpty(cs[i]);
    assert cs[i..j][0] == cs[i];
  }

  lemma {:induction false} LastMultiIsLast(cs: seq<Command>)
    ensures LastMulti(cs) != -1 ==> IsMulti(cs[LastMulti(cs)])
    ensures forall i | LastMulti(cs) < i < |cs| :: !IsMulti(cs[i])
    decreases |cs|
  {
    if cs != [] {
      LastMultiIsLast(cs[..|cs| - 1]);
      assert forall i | 0 <= i < |cs| - 1 :: cs[..|cs| - 1][i] == cs[i];
    }
  }

  /** The last MULTI is the one that opened the group exactly if no other lies between. */
  lemma NestedMulti(cs: seq<Command>)
    requires OpenMulti(cs) != -1
    ensures LastMulti(cs) == OpenMulti(cs) <==> forall i | OpenMulti(cs) < i < |cs| :: !IsMulti(cs[i])
  {
    OpenIsMulti(cs);
    LastMultiIsLast(cs);
    hide OpenMulti, LastMulti, IsMulti;
  }

  /** On a clean cut inside a group the file is kept up to the MULTI that opened it exactly
      when the group contains no further MULTI, and the MULTI is not the first command behind
      a preamble. */
  lemma CleanCutInsideGroup(pre: Bytes, cs: seq<Command>, k: nat, known: set<Bytes>)
    requires AllPrintable(cs) && AllKnown(cs, known) && k <= |cs| && OpenMulti(cs[..k]) != -1
    requires |PrintAll(cs[..k])| <= |PrintAll(cs)|
    ensures var open := OpenMulti(cs[..k]);
            var c := Recovered(pre, cs, |PrintAll(cs[..k])|, known).0;
            c.validUpTo == |pre| + |PrintAll(cs[..open])| <==>
            (pre == [] || open > 0) && forall i | open < i < k :: !IsMulti(cs[i])
  {
    var open, last := OpenMulti(cs[..k]), LastMulti(cs[..k]);
    CompleteAt(cs, k);
    CutLogRecovers(pre, cs, |PrintAll(cs[..k])|, known);
    OpenIsMulti(cs[..k]);
    NestedMulti(cs[..k]);
    if open < last { PrintAllGrows(cs, open, last); }
    hide PrintAll, IsMulti, Recovered, OpenMulti, LastMulti;
    assert forall i | 0 <= i < k :: cs[..k][i] == cs[i];
  }

  /** Inside an open group nothing takes effect, from its MULTI on. */
  lemma {:induction false} InGroup(cs: seq<Command>, i: nat)
    requires OpenMulti(cs) != -1 && OpenMulti(cs) <= i <= |cs|
    ensures Effect(cs[..i]) == Effect(cs)
    ensures OpenMulti(cs[..i]) == if i == OpenMulti(cs) then -1 else OpenMulti(cs)
    decreases |cs|
  {
    hide IsMulti, IsExec;
    var n := |cs| - 1;
    if i == |cs| {
      assert cs[..i] == cs;
    } else {
      MultiStep(cs, n);
      EffectStep(cs, n);
      MultiIsNotExec(cs[n]);
      assert cs[..n][..i] == cs[..i];
      if OpenMulti(cs[..n]) != -1 {
        InGroup(cs[..n], i);
      } else {
        assert i == n;
      }
    }
  }

  /** What a load leaves in memory: the data of the preamble it has read, and the commands that
      took effect on top of it. */
  function Loaded(pre: Bytes, cs: seq<Command>, m: nat, known: set<Bytes>): (Bytes, seq<Command>)
    requires m <= |PrintAll(cs)|
  {
    (pre, Recovered(pre, cs, m, known).0.applied)
  }

  /** Loading again what was kept has the same effect exactly if there is no preamble or some
      command is kept: the preamble is lost otherwise, and the commands never are.  It is clean
      exactly if no group is open behind the commands kept: no command was cut inside a group,
      and on a clean cut inside a group no second MULTI follows the one that opened it. */
  lemma TruncatedLogReloads(pre: Bytes, cs: seq<Command>, m: nat, known: set<Bytes>)
    requires AllPrintable(cs) && AllKnown(cs, known) && m <= |PrintAll(cs)|
    ensures var j, k := KeptCommands(cs, m), Complete(cs, m);
            |PrintAll(cs[..j])| <= |PrintAll(cs)| &&
            var pre' := KeptPreamble(pre, cs[..j]);
            var (c, again) := Recovered(pre', cs, |PrintAll(cs[..j])|, known);
            (Loaded(pre', cs, |PrintAll(cs[..j])|, known) == Loaded(pre, cs, m, known) <==> pre == [] || j > 0) &&
            c.applied == Recovered(pre, cs, m, known).0.applied &&
            (again == Clean <==> OpenMulti(cs[..j]) == -1) &&
            (again == Clean <==> OpenMulti(cs[..k]) == -1 ||
                                 (m == |PrintAll(cs[..k])| &&
                                  forall i | OpenMulti(cs[..k]) < i < k :: !IsMulti(cs[i])))
  {
    hide Load, PrintAll, Effect, AllPrintable, AllKnown, Complete, IsMulti, LastMulti, OpenMulti;
    var j, k := KeptCommands(cs, m), Complete(cs, m);
    CutLogRecovers(pre, cs, m, known);
    CompleteAt(cs, j);
    CutLogRecovers(KeptPreamble(pre, cs[..j]), cs, |PrintAll(cs[..j])|, known);
    if CleanInGroup(cs, m) {
      OpenIsMulti(cs[..k]);
      InGroup(cs[..k], j);
      NestedMulti(cs[..k]);
      assert cs[..k][..j] == cs[..j];
      assert forall i | 0 <= i < k :: cs[..k][i] == cs[i];
    }
  }

  /** What is appended to the truncated log later takes effect on the next load exactly if the
      log was kept without an open group.  Otherwise it joins the group that never ends, and
      that load cuts it off. */
  lemma LaterCommands(pre: Bytes, cs: seq<Command>, m: nat, more: seq<Command>, known: set<Bytes>)
    requires AllPrintable(cs) && AllKnown(cs, known) && m <= |PrintAll(cs)|
    requires AllPrintable(more) && AllKnown(more, known) && more != []
    requires forall i | 0 <= i < |more| :: !IsMulti(more[i]) && !IsExec(more[i])
    ensures var kept := cs[..KeptCommands(cs, m)];
            var (c, outcome) := Recovered(KeptPreamble(pre, kept), kept + more, |PrintAll(kept + more)|, known);
            (c.applied == Effect(kept) + more <==> OpenMulti(kept) == -1) &&
            outcome == (if OpenMulti(kept) == -1 then Clean else Truncated) &&
            (OpenMulti(kept) != -1 ==>
               c.applied == Effect(kept) && LastMulti(kept) != -1 &&
               c.validUpTo == Kept(|pre|, kept[..LastMulti(kept)]))
  {
    hide Load, PrintAll, Effect, Complete, IsMulti, IsExec, LastMulti, OpenMulti;
    var kept := cs[..KeptCommands(cs, m)];
    var all := kept + more;
    CompleteAt(all, |all|);
    assert all[..|all|] == all;
    CutLogRecovers(KeptPreamble(pre, kept), all, |PrintAll(all)|, known);
    PlainAfter(kept, more);
    OpenIsMulti(kept);
    if LastMulti(kept) != -1 { assert all[..LastMulti(kept)] == kept[..LastMulti(kept)]; }
  }

  /** A MULTI, and the command behind it cut after one byte: a command appended later is lost. */
  lemma DanglingMulti()
    ensures var cs, more := [[MULTI], [[112]]], [[[112]]];
            var m := |PrintCommand([MULTI])| + 1;
            m <= |PrintAll(cs)| && KeptCommands(cs, m) == 1 &&
            var (c, outcome) := Recovered([], cs[..1] + more, |PrintAll(cs[..1] + more)|, {MULTI, [112]});
            c.applied == [] && outcome == Truncated && c.validUpTo == 0
  {
    hide PrintCommand, Load, Lower, IsMulti, IsExec;
    var p: Command := [[112]];
    var cs, more := [[MULTI], p], [p];
    var m := |PrintCommand([MULTI])| + 1;
    CutBehindFirst([MULTI], p);
    MultiAlone(p);
    assert cs[..1] == [[MULTI]];
    LaterCommands([], cs, m, more, {MULTI, [112]});
    assert [[MULTI]][..0] == [];
  }

  lemma CutBehindFirst(a: Command, b: Command)
    ensures var m := |PrintCommand(a)| + 1;
            m <= |PrintAll([a, b])| && Complete([a, b], m) == 1 && m != |PrintAll([a])|
  {
    hide PrintCommand;
    CommandNotEmpty(b);
    assert [a, b][1..] == [b] && [b][1..] == [] && [a][1..] == [];
    assert PrintAll([b]) == PrintCommand(b) + PrintAll([]);
    assert PrintAll([a]) == PrintCommand(a) + PrintAll([]);
    assert Complete([b], 1) == 0;
  }

  lemma MultiAlone(p: Command)
    requires p == [[112]]
    ensures OpenMulti([[MULTI]]) == 0 && LastMulti([[MULTI]]) == 0 && Effect([[MULTI]]) == []
    ensures !IsMulti(p) && !IsExec(p) && AllKnown([[MULTI], p], {MULTI, [112]})
  {
    var m: Command := [MULTI];
    assert Lower(m[0]) == MULTI;
    assert Lower(p[0]) == [112];
    MultiIsNotExec(m);
    assert [m][..0] == [];
  }

  // ------------------------------------------------------- Files that are not such a log

  /** Reading goes through whole commands, whatever stands behind them. */
  lemma {:induction false} LoadThrough(s: Bytes, pos: nat, cs: seq<Command>, c: Client, known: set<Bytes>,
                                       loadTruncated: bool)
    requires At(s, pos, PrintAll(cs)) && AllPrintable(cs) && AllKnown(cs, known)
    ensures Load(s, pos, c, known, loadTruncated) ==
            Load(s, pos + |PrintAll(cs)|, RunAll(c, cs, pos, loadTruncated), known, loadTruncated)
    decreases |cs|
  {
    hide ParseCommand, PrintCommand, Run, Lower, At, Printable;
    if cs != [] {
      var next := pos + |PrintCommand(cs[0])|;
      AtSplit(s, pos, PrintCommand(cs[0]), PrintAll(cs[1..]));
      WholeCommand(s, pos, cs[0]);
      LoadThrough(s, next, cs[1..], Run(c, cs[0], next, loadTruncated), known, loadTruncated);
    }
  }

  lemma WholeCommand(s: Bytes, pos: nat, c: Command)
    requires At(s, pos, PrintCommand(c)) && Printable(c)
    ensures pos + |PrintCommand(c)| <= |s| && ParseCommand(s, pos) == Parsed(c, pos + |PrintCommand(c)|)
  {
    hide ParseCommand, PrintCommand;
    ParseCommandCut(s, pos, c, |s|);
    CommandNotEmpty(c);
    assert s[..|s|] == s;
  }

  /** What has been applied depends on the commands alone. */
  lemma {:induction false} AppliedAll(cs: seq<Command>, start: nat, loadTruncated: bool)
    ensures var c := RunAll(NewClient(), cs, start, loadTruncated);
            c.applied == Effect(cs) && (c.inMulti <==> OpenMulti(cs) != -1)
  {
    RunAllRan(cs, start);
    SameButOffsets(NewClient(), NewClient(), cs, start);
    hide Effect, OpenMulti, RunAll, LastMulti, PrintAll;
  }

  predicate AlikeClients(a: Client, b: Client) {
    a.applied == b.applied && a.inMulti == b.inMulti && a.queued == b.queued
  }

  lemma {:induction false} SameButOffsets(a: Client, b: Client, cs: seq<Command>, start: nat)
    requires AlikeClients(a, b)
    ensures AlikeClients(RunAll(a, cs, start, true), RunAll(b, cs, start, false))
    decreases |cs|
  {
    hide PrintCommand, IsMulti, IsExec;
    if cs != [] {
      var next := start + |PrintCommand(cs[0])|;
      SameButOffsets(Run(a, cs[0], next, true), Run(b, cs[0], next, false), cs[1..], next);
    }
  }

  /** A file of whole commands and then `tail`. */
  function LogFile(pre: Bytes, cs: seq<Command>, tail: Bytes): Bytes { pre + PrintAll(cs) + tail }

  /** What loading it comes to, if `tail` stops the reading right there. */
  lemma StopsAtTail(pre: Bytes, cs: seq<Command>, tail: Bytes, known: set<Bytes>, loadTruncated: bool)
    requires AllPrintable(cs) && AllKnown(cs, known)
    ensures var s, at := LogFile(pre, cs, tail), |pre| + |PrintAll(cs)|;
            at <= |s| && s[at..] == tail && |pre| <= |s| &&
            var (c, outcome) := Load(s, |pre|, NewClient(), known, loadTruncated);
            (ParseCommand(s, at).NoCommand? ==>
               c.applied == Effect(cs) &&
               var why := ParseCommand(s, at).why;
               outcome == if why == Short && loadTruncated then Truncated else Failed(why)) &&
            (ParseCommand(s, at).Parsed? && Unknown(ParseCommand(s, at).cmd, known) ==>
               c.applied == Effect(cs) && outcome == UnknownCommand)
  {
    hide PrintAll, ParseCommand, RunAll, Effect, Lower, OpenMulti;
    var s, at := LogFile(pre, cs, tail), |pre| + |PrintAll(cs)|;
    assert At(s, |pre|, PrintAll(cs));
    LoadThrough(s, |pre|, cs, NewClient(), known, loadTruncated);
    AppliedAll(cs, |pre|, loadTruncated);
    ParseCommandProgress(s, at);
  }

  predicate Unknown(c: Command, known: set<Bytes>) { |c| >= 1 && Lower(c[0]) !in known }

  /** Bytes that are no command, behind any number of whole commands: loading stops with an error,
      the file stays as it is whatever the setting, and exactly those commands were run. */
  lemma FormatErrorStops(pre: Bytes, cs: seq<Command>, b: Byte, rest: Bytes, known: set<Bytes>, loadTruncated: bool)
    requires AllPrintable(cs) && AllKnown(cs, known) && b != STAR
    ensures var s := LogFile(pre, cs, [b] + rest);
            |pre| <= |s| &&
            var (c, outcome) := Load(s, |pre|, NewClient(), known, loadTruncated);
            outcome == Failed(Bad) && c.applied == Effect(cs)
  {
    hide PrintAll, Load, Effect;
    var s, at := LogFile(pre, cs, [b] + rest), |pre| + |PrintAll(cs)|;
    StopsAtTail(pre, cs, [b] + rest, known, loadTruncated);
    assert s[at] == s[at..][0] == b;
  }

  lemma {:induction false} ParseArgsThrough(s: Bytes, pos: nat, args: Command, n: nat, done: Command)
    requires At(s, pos, PrintArgs(args)) && |args| <= n
    requires forall i | 0 <= i < |args| :: |args[i]| < 0x8000_0000_0000_0000
    ensures ParseArgs(s, pos, n, done) == ParseArgs(s, pos + |PrintArgs(args)|, n - |args|, done + args)
    decreases |args|
  {
    hide ParseArg, PrintArg, At;
    if args == [] {
      assert done + args == done;
    } else {
      AtSplit(s, pos, PrintArg(args[0]), PrintArgs(args[1..]));
      WholeArg(s, pos, args[0]);
      ParseArgsThrough(s, pos + |PrintArg(args[0])|, args[1..], n - 1, done + [args[0]]);
      assert done + [args[0]] + args[1..] == done + args;
    }
  }

  lemma WholeArg(s: Bytes, pos: nat, a: Bytes)
    requires At(s, pos, PrintArg(a)) && |a| < 0x8000_0000_0000_0000
    ensures pos + |PrintArg(a)| <= |s| && ParseArg(s, pos) == Arg(a, pos + |PrintArg(a)|)
  {
    hide ParseArg, PrintArg;
    ParseArgCut(s, pos, a, |s|);
    assert s[..|s|] == s;
  }

  /** A header that announces `n` arguments, and what the first few of them are followed by. */
  lemma HeaderThenArgs(s: Bytes, pos: nat, n: nat, args: Command)
    requires At(s, pos, PrintHeader(STAR, n) + PrintArgs(args)) && |args| <= n && 1 <= n < 0x8000_0000
    requires forall i | 0 <= i < |args| :: |args[i]| < 0x8000_0000_0000_0000
    ensures var at := pos + |PrintHeader(STAR, n)| + |PrintArgs(args)|;
            at <= |s| &&
            ParseCommand(s, pos) == match ParseArgs(s, at, n - |args|, args)
                                    case Args(a, next) => Parsed(a, next)
                                    case NoArgs(why) => NoCommand(why)
  {
    hide LineEnd, ParseInt, PrintHeader, PrintArgs, ParseArgs;
    AtSplit(s, pos, PrintHeader(STAR, n), PrintArgs(args));
    WholeHeader(s, pos, STAR, n, |s|);
    DigitAfterMark(s, pos, n, |s|);
    assert s[..|s|] == s;
    ParseArgsThrough(s, pos + |PrintHeader(STAR, n)|, args, n, []);
    assert [] + args == args;
  }

  /** The same when an argument does not start with its length. */
  lemma BadArgumentStops(pre: Bytes, cs: seq<Command>, n: nat, args: Command, b: Byte, rest: Bytes,
                         known: set<Bytes>, loadTruncated: bool)
    requires AllPrintable(cs) && AllKnown(cs, known) && b != DOLLAR
    requires |args| < n < 0x8000_0000 && forall i | 0 <= i < |args| :: |args[i]| < 0x8000_0000_0000_0000
    ensures var s := LogFile(pre, cs, PrintHeader(STAR, n) + PrintArgs(args) + ([b] + rest));
            |pre| <= |s| &&
            var (c, outcome) := Load(s, |pre|, NewClient(), known, loadTruncated);
            outcome == Failed(Bad) && c.applied == Effect(cs)
  {
    hide PrintAll, Load, Effect, ParseCommand, PrintHeader, PrintArgs;
    var head := PrintHeader(STAR, n) + PrintArgs(args);
    var tail := head + ([b] + rest);
    var s, at := LogFile(pre, cs, tail), |pre| + |PrintAll(cs)|;
    StopsAtTail(pre, cs, tail, known, loadTruncated);
    TailAt(s, at, head, [b] + rest);
    HeaderThenArgs(s, at, n, args);
    BadArgument(s, at + |head|, n - |args|, args);
  }

  lemma TailAt(s: Bytes, at: nat, a: Bytes, b: Bytes)
    requires at <= |s| && s[at..] == a + b
    ensures At(s, at, a) && at + |a| <= |s| && s[at + |a|..] == b
    ensures b != [] ==> at + |a| < |s| && s[at + |a|] == b[0]
  {
    assert s[at..at + |a|] == s[at..][..|a|];
    assert s[at + |a|..] == s[at..][|a|..];
    if b != [] { assert s[at + |a|] == s[at + |a|..][0]; }
  }

  lemma BadArgument(s: Bytes, pos: nat, n: nat, done: Command)
    requires pos < |s| && s[pos] != DOLLAR && n > 0
    ensures ParseArgs(s, pos, n, done) == NoArgs(Bad)
  {
  }

  /** A command announced without arguments is no command either. */
  lemma NoArgumentsStops(pre: Bytes, cs: seq<Command>, rest: Bytes, known: set<Bytes>, loadTruncated: bool)
    requires AllPrintable(cs) && AllKnown(cs, known)
    ensures var s := LogFile(pre, cs, PrintHeader(STAR, 0) + rest);
            |pre| <= |s| &&
            var (c, outcome) := Load(s, |pre|, NewClient(), known, loadTruncated);
            outcome == Failed(Bad) && c.applied == Effect(cs)
  {
    hide PrintAll, Load, Effect, ParseInt, PrintHeader, LineEnd;
    var tail := PrintHeader(STAR, 0) + rest;
    var s, at := LogFile(pre, cs, tail), |pre| + |PrintAll(cs)|;
    StopsAtTail(pre, cs, tail, known, loadTruncated);
    TailAt(s, at, PrintHeader(STAR, 0), rest);
    WholeHeader(s, at, STAR, 0, |s|);
    DigitAfterMark(s, at, 0, |s|);
    assert s[..|s|] == s;
  }

  lemma {:induction false} LineEndFacts(s: Bytes, pos: nat, room: nat)
    requires pos < |s| && room > 0
    ensures var e := LineEnd(s, pos, room);
            e - pos <= room && (s[e - 1] == LF || e == |s| || e - pos == room) && LF !in s[pos..e - 1]
    decreases room
  {
    if s[pos] != LF && pos + 1 < |s| && room > 1 {
      LineEndFacts(s, pos + 1, room - 1);
      var e := LineEnd(s, pos + 1, room - 1);
      assert s[pos..e - 1] == [s[pos]] + s[pos + 1..e - 1];
    }
  }

  /** The end of the file is noticed exactly if no line ends before it and the buffer takes it all. */
  lemma HitEofExactly(s: Bytes, pos: nat)
    requires pos < |s|
    ensures HitEof(s, pos, LineEnd(s, pos, LINE_MAX)) <==> |s| - pos < LINE_MAX && LF !in s[pos..]
  {
    hide LineEnd;
    LineEndFacts(s, pos, LINE_MAX);
    var e := LineEnd(s, pos, LINE_MAX);
    assert s[pos..] == s[pos..e - 1] + [s[e - 1]] + s[e..];
    if e == |s| { assert s[e..] == []; }
  }

  /** A null character for the number of arguments: an error that ends the server, unless the file ends
      in this line. */
  lemma NoCountStops(pre: Bytes, cs: seq<Command>, rest: Bytes, known: set<Bytes>, loadTruncated: bool)
    requires AllPrintable(cs) && AllKnown(cs, known)
    ensures var s := LogFile(pre, cs, [STAR, 0] + rest);
            |pre| <= |s| &&
            var (c, outcome) := Load(s, |pre|, NewClient(), known, loadTruncated);
            c.applied == Effect(cs) &&
            outcome == if LF in rest || |rest| + 2 >= LINE_MAX then Failed(Fatal)
                       else if loadTruncated then Truncated else Failed(Short)
  {
    hide PrintAll, Load, Effect, HitEof, LineEnd;
    var tail := [STAR, 0] + rest;
    var s, at := LogFile(pre, cs, tail), |pre| + |PrintAll(cs)|;
    StopsAtTail(pre, cs, tail, known, loadTruncated);
    assert s[at] == s[at..][0] == STAR && s[at + 1] == s[at..][1] == 0;
    HitEofExactly(s, at);
    assert LF in tail <==> LF in rest by { assert tail[2..] == rest; assert tail[0] != LF && tail[1] != LF; }
  }

  /** A negative length cannot be read. */
  lemma NegativeLength(s: Bytes, pos: nat, n: nat, rest: Bytes)
    requires pos <= |s| && s[pos..] == [DOLLAR, MINUS] + Dec(n) + CRLF + rest && 1 <= n < 0x8000_0000_0000_0000
    ensures ParseArg(s, pos) == NoArg(Fatal)
  {
    var head := [DOLLAR, MINUS] + Dec(n) + CRLF;
    var e := pos + |head|;
    TailAt(s, pos, head, rest);
    DecDigits(n);
    HeaderFits(n);
    assert s[pos..e] == head;
    assert forall i | pos <= i < e :: s[i] == s[pos..e][i - pos];
    LineEndAt(s, pos, e, LINE_MAX);
    assert s[pos + 1..e] == [MINUS] + (Dec(n) + CRLF);
    assert s[pos + 1..e][1..] == Dec(n) + CRLF;
    DigitsStop(Dec(n), CRLF, 0);
    DigitsOfDec(n);
    hide Dec, Digits, LineEnd;
  }

  /** A whole command that is not known ends the loading, in front of it all is run and behind it
      nothing. */
  lemma UnknownStops(pre: Bytes, cs: seq<Command>, x: Command, rest: Bytes, known: set<Bytes>, loadTruncated: bool)
    requires AllPrintable(cs) && AllKnown(cs, known) && Printable(x) && Lower(x[0]) !in known
    ensures var s := LogFile(pre, cs, PrintCommand(x) + rest);
            |pre| <= |s| &&
            var (c, outcome) := Load(s, |pre|, NewClient(), known, loadTruncated);
            outcome == UnknownCommand && c.applied == Effect(cs)
  {
    hide PrintAll, Load, Effect, ParseCommand, PrintCommand, Lower;
    var tail := PrintCommand(x) + rest;
    var s, at := LogFile(pre, cs, tail), |pre| + |PrintAll(cs)|;
    StopsAtTail(pre, cs, tail, known, loadTruncated);
    TailAt(s, at, PrintCommand(x), rest);
    WholeCommand(s, at, x);
  }

  /** The setting decides one thing only, for every file: whether a file that ends too early is
      truncated or refused. */
  lemma {:induction false} SettingDecides(s: Bytes, pos: nat, a: Client, b: Client, known: set<Bytes>)
    requires pos <= |s| && AlikeClients(a, b)
    ensures var (c, yes) := Load(s, pos, a, known, true);
            var (d, no) := Load(s, pos, b, known, false);
            AlikeClients(c, d) && no != Truncated && yes != Failed(Short) &&
            (yes == Truncated <==> no == Failed(Short)) && (yes != Truncated ==> yes == no)
    decreases |s| - pos
  {
    hide ParseCommand, Lower, IsMulti, IsExec;
    ParseCommandProgress(s, pos);
    match ParseCommand(s, pos)
    case Parsed(cmd, next) =>
      if Lower(cmd[0]) in known {
        SettingDecides(s, next, Run(a, cmd, next, true), Run(b, cmd, next, false), known);
      }
    case End =>
    case NoCommand(_) =>
  }

  /** The text of a command, for example. */
  lemma PrintsPing()
    ensures PrintCommand([[80, 73, 78, 71]]) == [42, 49, 13, 10, 36, 52, 13, 10, 80, 73, 78, 71, 13, 10]
  {
    var a: Bytes := [80, 73, 78, 71];
    assert [a][1..] == [];
    assert PrintArgs([a]) == PrintArg(a) + PrintArgs([]);
    assert Dec(1) == [49] && Dec(4) == [52];
  }
}
