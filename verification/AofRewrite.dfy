/**
 Rewriting the append only file in the background (aof.c).

 A forked child writes a snapshot.  Meanwhile the parent keeps the bytes it feeds to the
 old log in a rewrite buffer, drains that buffer into a pipe to the child, and appends
 what is left when the child is done.  A `!` in each direction stops the draining.
 */
module AofRewrite {
  import opened Options
  import opened AofLog

  // ------------------------------------------------------------- The block list

  const BLOCK_SIZE: nat := 10485760

  /** A block of the rewrite buffer; `free` bytes of it are unused. */
  datatype Block = Block(data: Bytes, free: nat)

  predicate BlockOk(b: Block) { |b.data| + b.free == BLOCK_SIZE }

  function Contents(blocks: seq<Block>): Bytes {
    if blocks == [] then [] else Contents(blocks[..|blocks| - 1]) + blocks[|blocks| - 1].data
  }

  lemma {:induction false} ContentsFirst(blocks: seq<Block>)
    requires blocks != []
    ensures Contents(blocks) == blocks[0].data + Contents(blocks[1..])
    decreases |blocks|
  {
    var n := |blocks| - 1;
    if n > 0 {
      ContentsFirst(blocks[..n]);
      assert blocks[1..][..n - 1] == blocks[..n][1..];
      assert blocks[..n][0] == blocks[0];
    }
  }

  lemma ContentsGrowLast(blocks: seq<Block>, x: Bytes, free: nat)
    requires blocks != []
    ensures var last := |blocks| - 1;
            Contents(blocks[last := Block(blocks[last].data + x, free)]) == Contents(blocks) + x
  {
  }

  lemma ContentsPush(blocks: seq<Block>)
    ensures Contents(blocks + [Block([], BLOCK_SIZE)]) == Contents(blocks)
  {
  }

  lemma ContentsShrinkFirst(blocks: seq<Block>, n: nat, free: nat)
    requires blocks != [] && n <= |blocks[0].data|
    ensures var b := blocks[0].data;
            b[..n] + Contents(blocks[0 := Block(b[n..], free)]) == Contents(blocks)
  {
    var b := blocks[0].data;
    ContentsFirst(blocks);
    ContentsFirst(blocks[0 := Block(b[n..], free)]);
    assert b == b[..n] + b[n..];
  }

  /** What goes down the pipe when write(2) takes `writes` bytes in turn; zero means it would block. */
  function Drained(blocks: seq<Block>, writes: seq<nat>): Bytes
    decreases |writes|, |blocks|
  {
    if blocks == [] then []
    else
      var b := blocks[0];
      if b.data == [] then Drained(blocks[1..], writes)
      else if writes == [] || writes[0] == 0 then []
      else if writes[0] >= |b.data| then b.data + Drained(blocks[1..], writes[1..])
      else
        var n := writes[0];
        b.data[..n] + Drained(blocks[0 := Block(b.data[n..], b.free + n)], writes[1..])
  }

  lemma Associate(a: Bytes, b: Bytes, c: Bytes, d: Bytes)
    ensures a + (b + c) == (a + b) + c && a + (b + d) == (a + b) + d
  {}

  lemma DrainedStep(blocks: seq<Block>, writes: seq<nat>)
    ensures blocks == [] ==> Drained(blocks, writes) == []
    ensures blocks != [] && blocks[0].data == [] ==> Drained(blocks, writes) == Drained(blocks[1..], writes)
    ensures blocks != [] && blocks[0].data != [] && (writes == [] || writes[0] == 0) ==> Drained(blocks, writes) == []
    ensures blocks != [] && blocks[0].data != [] && writes != [] && writes[0] > 0 ==>
              var b := blocks[0];
              var n := if writes[0] <= |b.data| then writes[0] else |b.data|;
              Drained(blocks, writes) ==
              b.data[..n] + Drained(blocks[0 := Block(b.data[n..], b.free + n)], writes[1..])
  {
  }

  /** A pipe that takes a whole block at each write takes the whole list. */
  lemma {:induction false} DrainsAll(blocks: seq<Block>, writes: seq<nat>)
    requires (forall i | 0 <= i < |blocks| :: BlockOk(blocks[i])) && |blocks| <= |writes|
    requires forall i | 0 <= i < |writes| :: writes[i] >= BLOCK_SIZE
    ensures Drained(blocks, writes) == Contents(blocks)
    decreases |blocks|
  {
    if blocks != [] {
      ContentsFirst(blocks);
      assert BlockOk(blocks[0]);
      if blocks[0].data == [] {
        DrainsAll(blocks[1..], writes);
        assert [] + Contents(blocks[1..]) == Contents(blocks[1..]);
      } else {
        DrainsAll(blocks[1..], writes[1..]);
      }
    }
  }

  /** Whatever the pipe takes at the first write leaves the list, as long as it is in the first block. */
  lemma DrainsSome(b: Block, rest: seq<Block>, n: nat)
    requires 0 < n < |b.data|
    ensures Drained([b] + rest, [n]) == b.data[..n]
  {
    var blocks := [b] + rest;
    assert [n][1..] == [];
    assert b.data[n..] != [];
    assert Drained(blocks[0 := Block(b.data[n..], b.free + n)], []) == [];
  }

  /** No write to the rewritten file fell short; empty blocks are not written. */
  predicate WrittenInFull(blocks: seq<Block>, writes: seq<nat>) {
    forall i | 0 <= i < |blocks| && blocks[i].data != [] :: i < |writes| && writes[i] == |blocks[i].data|
  }

  /** The list of blocks, changed in place. */
  class RewriteBuffer {
    var blocks: seq<Block>

    predicate Valid()
      reads this
    {
      forall i | 0 <= i < |blocks| :: BlockOk(blocks[i])
    }

    constructor ()
      ensures Valid() && blocks == []
    { blocks := []; }

    method Reset()
      modifies this
      ensures Valid() && blocks == []
    { blocks := []; }

    /** Total number of bytes in the list. */
    method Size() returns (size: nat)
      requires Valid()
      ensures size == |Contents(blocks)|
    {
      size := 0;
      for i := 0 to |blocks|
        invariant size == |Contents(blocks[..i])|
      {
        assert blocks[..i + 1][..i] == blocks[..i];
        size := size + |blocks[i].data|;
      }
      assert blocks[..|blocks|] == blocks;
    }

    /** Fills the last block, then as many new ones as needed. */
    method Append(s: Bytes)
      requires Valid()
      modifies this
      ensures Valid() && Contents(blocks) == old(Contents(blocks)) + s
    {
      hide Contents;
      var at := 0;
      assert s[..0] == [];
      while at < |s|
        invariant 0 <= at <= |s| && Valid()
        invariant Contents(blocks) == old(Contents(blocks)) + s[..at]
        decreases |s| - at, if blocks != [] then BLOCK_SIZE - blocks[|blocks| - 1].free else BLOCK_SIZE + 1
      {
        if blocks != [] {
          var last := |blocks| - 1;
          var b := blocks[last];
          var k := if b.free < |s| - at then b.free else |s| - at;
          if k > 0 {
            ContentsGrowLast(blocks, s[at..at + k], b.free - k);
            blocks := blocks[last := Block(b.data + s[at..at + k], b.free - k)];
            assert s[..at + k] == s[..at] + s[at..at + k];
            at := at + k;
          }
        }
        if at < |s| {
          ContentsPush(blocks);
          blocks := blocks + [Block([], BLOCK_SIZE)];
        }
      }
      assert s[..|s|] == s;
    }

    /** Sends the front of the list down the pipe; `writes` are the results of write(2). */
    method WriteDiffData(stopSending: bool, writes: seq<nat>) returns (sent: Bytes)
      requires Valid()
      modifies this
      ensures Valid() && sent + Contents(blocks) == old(Contents(blocks))
      ensures sent == if stopSending then [] else Drained(old(blocks), writes)
    {
      hide Contents, Drained;
      sent := [];
      var i := 0;
      while true
        invariant 0 <= i <= |writes| && Valid() && sent + Contents(blocks) == old(Contents(blocks))
        invariant stopSending ==> sent == []
        invariant !stopSending ==> sent + Drained(blocks, writes[i..]) == Drained(old(blocks), writes)
        decreases |writes| - i, |blocks|
      {
        DrainedStep(blocks, writes[i..]);
        if stopSending || blocks == [] { return; }
        var b := blocks[0];
        if |b.data| > 0 {
          if i == |writes| { return; }
          assert writes[i..][1..] == writes[i + 1..];
          var n := if writes[i] <= |b.data| then writes[i] else |b.data|;
          i := i + 1;
          if n == 0 { return; }
          ContentsShrinkFirst(blocks, n, b.free + n);
          blocks := blocks[0 := Block(b.data[n..], b.free + n)];
          Associate(sent, b.data[..n], Contents(blocks), Drained(blocks, writes[i..]));
          sent := sent + b.data[..n];
          DrainedStep(blocks, writes[i..]);
        }
        if |blocks[0].data| == 0 {
          ContentsFirst(blocks);
          blocks := blocks[1..];
        }
      }
    }

    /** Appends the list to the rewritten file; a short write is an error. */
    method BufferWrite(file: Bytes, writes: seq<nat>) returns (ok: bool, file': Bytes)
      requires Valid()
      ensures ok <==> WrittenInFull(blocks, writes)
      ensures ok ==> file' == file + Contents(blocks)
    {
      file' := file;
      assert Contents(blocks[..0]) == [];
      for i := 0 to |blocks|
        invariant file' == file + Contents(blocks[..i])
        invariant WrittenInFull(blocks[..i], writes)
      {
        assert blocks[..i + 1][..i] == blocks[..i];
        var b := blocks[i];
        if |b.data| > 0 {
          var n := if i < |writes| && writes[i] <= |b.data| then writes[i] else 0;
          file' := file' + b.data[..n];
          if n != |b.data| { return false, file'; }
        }
      }
      assert blocks[..|blocks|] == blocks;
      ok := true;
    }
  }

  // ------------------------------------------------------- Databases in the log

  const SELECT: Bytes := [83, 69, 76, 69, 67, 84]

  function SelectCommand(db: nat): Command { [SELECT, Dec(db)] }

  predicate IsSelect(c: Command) { |c| == 2 && c[0] == SELECT }

  /** A command and the database it ran in. */
  datatype Placed = Placed(db: int, cmd: Command)

  /** The commands fed for one call: a SELECT first if the log is not already there. */
  function FeedCommands(selected: int, db: nat, cmd: Command): seq<Command> {
    (if db != selected then [SelectCommand(db)] else []) + [cmd]
  }

  /** The database selected after replaying `cs`, starting in `db`. */
  function DbAfter(db: int, cs: seq<Command>): int {
    if cs == [] then db
    else
      var last := cs[|cs| - 1];
      if IsSelect(last) then ParseInt(last[1]) else DbAfter(db, cs[..|cs| - 1])
  }

  /** Replaying a log, starting in `db`: which command runs where. */
  function Replay(db: int, cs: seq<Command>): seq<Placed> {
    if cs == [] then []
    else
      var n := |cs| - 1;
      if IsSelect(cs[n]) then Replay(db, cs[..n]) else Replay(db, cs[..n]) + [Placed(DbAfter(db, cs[..n]), cs[n])]
  }

  /** `cs` replays to `placed` from any starting database, and ends in `selected` unless that is unknown. */
  ghost predicate WellPlaced(cs: seq<Command>, placed: seq<Placed>, selected: int) {
    (forall db :: Replay(db, cs) == placed) &&
    (selected != -1 ==> forall db :: DbAfter(db, cs) == selected)
  }

  lemma SelectReadsBack(db: nat)
    ensures IsSelect(SelectCommand(db)) && ParseInt(SelectCommand(db)[1]) == db
  {
    ParseDec(db, []);
    assert Dec(db) + [] == Dec(db);
  }

  lemma FeedKeepsPlaces(cs: seq<Command>, placed: seq<Placed>, selected: int, db: nat, cmd: Command)
    requires WellPlaced(cs, placed, selected) && !IsSelect(cmd)
    ensures WellPlaced(cs + FeedCommands(selected, db, cmd), placed + [Placed(db, cmd)], db)
  {
    SelectReadsBack(db);
    hide ParseInt, IsSelect;
    var f := FeedCommands(selected, db, cmd);
    forall d ensures Replay(d, cs + f) == placed + [Placed(db, cmd)] && DbAfter(d, cs + f) == db {
      assert (cs + f)[|cs + f| - 1] == cmd;
      if db != selected {
        var mid := cs + [SelectCommand(db)];
        assert (cs + f)[..|cs + f| - 1] == mid;
        assert mid[|mid| - 1] == SelectCommand(db) && mid[..|mid| - 1] == cs;
      } else {
        assert (cs + f)[..|cs + f| - 1] == cs;
      }
      assert Replay(d, cs) == placed;
    }
  }

  // ----------------------------------------------------------------- The protocol

  datatype AofState = Off | On | WaitRewrite

  /** How far the child is.  Killed, timed out and failed children end in Exited(false). */
  datatype Phase = Saving | AskedStop | Acked | Exited(ok: bool)

  datatype Child = NoChild | Child(phase: Phase, snapshot: Bytes, diff: Bytes)

  datatype System = System(
    aof: AofState,
    file: Bytes,              // the append only file on disk
    aofBuf: Bytes,
    selectedDb: int,          // aof_selected_db, -1 forces a SELECT
    pending: Bytes,           // contents of the rewrite buffer
    stop: bool,               // aof_stop_sending_diff
    data: Bytes,              // pipe parent -> child
    ask: bool,                // `!` child -> parent
    ack: bool,                // `!` parent -> child
    child: Child,
    // history: what was fed since the fork, and since the file was last replaced
    sinceFork: seq<Command>, placedSinceFork: seq<Placed>,
    base: Bytes, sinceBase: seq<Command>, placedSinceBase: seq<Placed>,
    lost: nat                 // bytes that the child had left in the pipe then
  )

  /** Where the parent fails after a child that succeeded, if anywhere. */
  datatype DoneResult = OpenFails | WriteFails | FsyncFails | RenameFails | Switches

  datatype Event =
    | Feed(db: nat, cmd: Command)
    | Flush(n: nat)                      // any part of aofBuf reaches the file
    | Fork(snapshot: Bytes)
    | PipeWrite(n: nat)
    | ChildRead(n: nat)
    | ChildAsks
    | ParentStops(ackWritten: bool)
    | ChildGetsAck
    | ChildFinishes
    | ChildFails
    | Done(result: DoneResult)
    | Enable(snapshot: Bytes)            // CONFIG SET appendonly yes
    | EnableLater                        // the same while another child runs: the rewrite is scheduled
    | EnableFails                        // the same when there can be no child
    | Disable                            // CONFIG SET appendonly no

  predicate ChildIn(sys: System, p: Phase) { sys.child.Child? && sys.child.phase == p }

  predicate Enabled(sys: System, e: Event) {
    match e
    case Feed(_, cmd) => sys.aof != Off && !IsSelect(cmd)
    case Flush(n) => n <= |sys.aofBuf|
    case Fork(_) => sys.child.NoChild?
    case PipeWrite(n) => sys.child.Child? && !sys.stop && n <= |sys.pending|
    case ChildRead(n) => (ChildIn(sys, Saving) || ChildIn(sys, Acked)) && n <= |sys.data|
    case ChildAsks => ChildIn(sys, Saving)
    case ParentStops(_) => sys.child.Child? && sys.ask
    case ChildGetsAck => ChildIn(sys, AskedStop) && sys.ack
    case ChildFinishes => ChildIn(sys, Acked)
    case ChildFails => sys.child.Child? && !sys.child.phase.Exited?
    case Done(_) => sys.child.Child? && sys.child.phase.Exited?
    case Enable(_) => sys.aof == Off
    case EnableLater => sys.aof == Off && sys.child.NoChild?
    case EnableFails => sys.aof == Off
    case Disable => sys.aof != Off
  }

  function FeedStep(sys: System, db: nat, cmd: Command): System {
    var cs := FeedCommands(sys.selectedDb, db, cmd);
    var buf := PrintAll(cs);
    var s1 := if sys.aof == On
              then sys.(aofBuf := sys.aofBuf + buf, sinceBase := sys.sinceBase + cs,
                        placedSinceBase := sys.placedSinceBase + [Placed(db, cmd)])
              else sys;
    var s2 := if sys.child.Child?
              then s1.(pending := sys.pending + buf, sinceFork := sys.sinceFork + cs,
                       placedSinceFork := sys.placedSinceFork + [Placed(db, cmd)])
              else s1;
    s2.(selectedDb := db)
  }

  /** A new child with its pipes; the next feed will start with a SELECT. */
  function ForkStep(sys: System, snapshot: Bytes): System {
    sys.(child := Child(Saving, snapshot, []), stop := false, data := [], ask := false, ack := false,
         selectedDb := -1, sinceFork := [], placedSinceFork := [])
  }

  /** Closing the pipes, dropping the rewrite buffer and the temporary file. */
  function Cleanup(sys: System): System {
    sys.(pending := [], data := [], ask := false, ack := false, child := NoChild)
  }

  /** backgroundRewriteDoneHandler. */
  function DoneStep(sys: System, result: DoneResult): System
    requires sys.child.Child? && sys.child.phase.Exited?
  {
    if !sys.child.phase.ok || result != Switches then Cleanup(sys)
    else
      var rewritten := sys.child.snapshot + sys.child.diff + sys.pending;
      var s1 := sys.(file := rewritten, base := sys.child.snapshot,
                     sinceBase := sys.sinceFork, placedSinceBase := sys.placedSinceFork, lost := |sys.data|);
      Cleanup(if sys.aof == Off then s1
              else s1.(selectedDb := -1, aofBuf := [], aof := On))
  }

  function Next(sys: System, e: Event): System
    requires Enabled(sys, e)
  {
    match e
    case Feed(db, cmd) => FeedStep(sys, db, cmd)
    case Flush(n) => sys.(file := sys.file + sys.aofBuf[..n], aofBuf := sys.aofBuf[n..])
    case Fork(snapshot) => ForkStep(sys, snapshot)
    case PipeWrite(n) => sys.(data := sys.data + sys.pending[..n], pending := sys.pending[n..])
    case ChildRead(n) => sys.(child := sys.child.(diff := sys.child.diff + sys.data[..n]), data := sys.data[n..])
    case ChildAsks => sys.(child := sys.child.(phase := AskedStop), ask := true)
    case ParentStops(ackWritten) => sys.(stop := true, ask := false, ack := ackWritten)
    case ChildGetsAck => sys.(child := sys.child.(phase := Acked), ack := false)
    case ChildFinishes => sys.(child := sys.child.(phase := Exited(true)))
    case ChildFails => sys.(child := sys.child.(phase := Exited(false)))
    case Done(result) => DoneStep(sys, result)
    case Enable(snapshot) => ForkStep(Cleanup(sys), snapshot).(aof := WaitRewrite)
    case EnableLater => sys.(aof := WaitRewrite)
    case EnableFails => Cleanup(sys)
    case Disable => Cleanup(sys).(aof := Off, aofBuf := [], selectedDb := -1)
  }

  /** The parent's side, updated in place; the file's contents stand for the open descriptor. */
  class Parent {
    var aof: AofState
    var file: Bytes
    var aofBuf: Bytes
    var selectedDb: int
    var stop: bool
    const buffer: RewriteBuffer

    ghost predicate Valid()
      reads this, buffer
    {
      buffer.Valid()
    }

    /** This parent is the parent of `sys`. */
    ghost predicate Is(sys: System)
      reads this, buffer
    {
      aof == sys.aof && file == sys.file && aofBuf == sys.aofBuf && selectedDb == sys.selectedDb &&
      stop == sys.stop && Contents(buffer.blocks) == sys.pending
    }

    constructor (file: Bytes)
      ensures Valid() && fresh(buffer) && aof == On && this.file == file && aofBuf == [] && selectedDb == -1 &&
              buffer.blocks == []
    {
      aof, this.file, aofBuf, selectedDb, stop := On, file, [], -1, false;
      buffer := new RewriteBuffer();
    }

    method FeedAppendOnlyFile(db: nat, cmd: Command, childActive: bool, ghost sys: System)
      requires Valid() && Is(sys) && Enabled(sys, Feed(db, cmd)) && childActive == sys.child.Child?
      modifies this, buffer
      ensures Valid() && Is(FeedStep(sys, db, cmd))
    {
      FeedPrinted(selectedDb, db, cmd);
      hide PrintAll, FeedCommands, PrintCommand, SelectCommand, Contents, IsSelect;
      var buf: Bytes := [];
      if db != selectedDb {
        buf := CatAppendOnlyGenericCommand(buf, SelectCommand(db));
        selectedDb := db;
      }
      buf := CatAppendOnlyGenericCommand(buf, cmd);
      assert buf == PrintAll(FeedCommands(sys.selectedDb, db, cmd));
      if aof == On { aofBuf := aofBuf + buf; }
      if childActive { buffer.Append(buf); }
    }

    method ChildPipeReadable(ackWritten: bool, ghost sys: System)
      requires Valid() && Is(sys) && Enabled(sys, ParentStops(ackWritten))
      modifies this`stop
      ensures Valid() && Is(Next(sys, ParentStops(ackWritten)))
    {
      stop := true;
    }

    /** `tmp` is the file the child left, if it can be opened. */
    method BackgroundRewriteDone(exitOk: bool, tmp: Option<Bytes>, writes: seq<nat>, fsyncOk: bool, renameOk: bool,
                                 ghost sys: System) returns (result: DoneResult)
      requires Valid() && Is(sys) && Enabled(sys, Done(Switches)) && sys.child.phase == Exited(exitOk)
      requires exitOk && tmp.Some? ==> tmp.value == sys.child.snapshot + sys.child.diff
      modifies this, buffer
      ensures Valid() && Is(DoneStep(sys, result))
      ensures exitOk ==>
                result == if tmp.None? then OpenFails
                          else if !WrittenInFull(old(buffer.blocks), writes) then WriteFails
                          else if !fsyncOk then FsyncFails
                          else if !renameOk then RenameFails else Switches
    {
      hide PrintAll;
      result := Switches;
      if exitOk {
        if tmp.None? {
          result := OpenFails;
        } else {
          var written, rewritten := buffer.BufferWrite(tmp.value, writes);
          if !written {
            result := WriteFails;
          } else if !fsyncOk {
            result := FsyncFails;
          } else if !renameOk {
            result := RenameFails;
          } else {
            file := rewritten;
            if aof != Off {
              selectedDb := -1;
              aofBuf := [];
            }
            if aof == WaitRewrite { aof := On; }
          }
        }
      }
      buffer.Reset();
    }
  }

  lemma FeedPrinted(selected: int, db: nat, cmd: Command)
    ensures PrintAll(FeedCommands(selected, db, cmd)) ==
            (if db != selected then PrintCommand(SelectCommand(db)) else []) + PrintCommand(cmd)
  {
    hide PrintCommand, SelectCommand;
    PrintAllConcat(if db != selected then [SelectCommand(db)] else [], [cmd]);
    assert PrintAll([cmd]) == PrintCommand(cmd) + PrintAll([]);
    assert PrintAll([SelectCommand(db)]) == PrintCommand(SelectCommand(db)) + PrintAll([]);
  }

  // -------------------------------------------------------------------- Invariant

  /** Every byte fed since the fork is with the child, in the pipe or pending, in this order. */
  predicate DiffInv(sys: System) {
    (sys.child.NoChild? ==> sys.pending == []) &&
    (sys.child.Child? ==> sys.child.diff + sys.data + sys.pending == PrintAll(sys.sinceFork))
  }

  /** Once the child holds the acknowledgement the parent sends nothing more. */
  predicate StopInv(sys: System) {
    sys.child.Child? && (sys.ack || sys.child.phase == Acked || sys.child.phase == Exited(true)) ==> sys.stop
  }

  /** A child that has finished has read the pipe to its end. */
  predicate ReadAll(sys: System) {
    sys.lost == 0 && (ChildIn(sys, Exited(true)) ==> sys.data == [])
  }

  predicate LogComplete(sys: System) { sys.file + sys.aofBuf == sys.base + PrintAll(sys.sinceBase) }

  /** While the log is on, file and buffer hold the base and everything fed since, but for what
      was left in the pipe. */
  predicate LogInv(sys: System) {
    sys.aof == On ==>
      |sys.file| + |sys.aofBuf| + sys.lost == |sys.base| + |PrintAll(sys.sinceBase)| &&
      (sys.lost == 0 ==> LogComplete(sys))
  }

  predicate BufferInv(sys: System) { sys.aof != On ==> sys.aofBuf == [] }

  ghost predicate PlacesInv(sys: System) {
    (sys.child.Child? ==> WellPlaced(sys.sinceFork, sys.placedSinceFork, sys.selectedDb)) &&
    (sys.aof == On ==> WellPlaced(sys.sinceBase, sys.placedSinceBase, sys.selectedDb))
  }

  ghost predicate Inv(sys: System) {
    DiffInv(sys) && StopInv(sys) && LogInv(sys) && BufferInv(sys) && PlacesInv(sys)
  }

  /** The child takes an interrupted read for the end of the data, and finishes. */
  predicate LosesDiff(sys: System, e: Event) { e.ChildFinishes? && sys.data != [] }

  lemma FeedInv(sys: System, db: nat, cmd: Command)
    requires Inv(sys) && Enabled(sys, Feed(db, cmd))
    ensures Inv(FeedStep(sys, db, cmd)) && (ReadAll(sys) ==> ReadAll(FeedStep(sys, db, cmd)))
  {
    hide WellPlaced, PrintAll, FeedCommands, IsSelect;
    var cs := FeedCommands(sys.selectedDb, db, cmd);
    var sys' := FeedStep(sys, db, cmd);
    var buf := PrintAll(cs);
    if sys.child.Child? {
      FeedKeepsPlaces(sys.sinceFork, sys.placedSinceFork, sys.selectedDb, db, cmd);
      PrintAllConcat(sys.sinceFork, cs);
      assert sys.child.diff + sys.data + (sys.pending + buf) == (sys.child.diff + sys.data + sys.pending) + buf;
    }
    if sys.aof == On {
      FeedKeepsPlaces(sys.sinceBase, sys.placedSinceBase, sys.selectedDb, db, cmd);
      PrintAllConcat(sys.sinceBase, cs);
      assert sys.file + (sys.aofBuf + buf) == (sys.file + sys.aofBuf) + buf;
      assert sys.base + (PrintAll(sys.sinceBase) + buf) == (sys.base + PrintAll(sys.sinceBase)) + buf;
    }
  }

  /** The switch: the new file is the snapshot followed by exactly what was fed since the fork if
      and only if nothing is left in the pipe. */
  lemma SwitchedFile(sys: System)
    requires Inv(sys) && ChildIn(sys, Exited(true))
    ensures var sys' := DoneStep(sys, Switches);
            (sys'.file == sys.child.snapshot + PrintAll(sys.sinceFork) <==> sys.data == []) && sys'.aofBuf == [] &&
            (sys.aof != Off ==> sys'.aof == On)
  {
    hide WellPlaced, PrintAll;
    var file := DoneStep(sys, Switches).file;
    assert |file| + |sys.data| == |sys.child.snapshot + PrintAll(sys.sinceFork)|;
    assert sys.child.diff + [] + sys.pending == sys.child.diff + sys.pending;
    assert sys.child.snapshot + sys.child.diff + sys.pending == sys.child.snapshot + (sys.child.diff + sys.pending);
  }

  lemma WeakenPlaces(cs: seq<Command>, placed: seq<Placed>, selected: int)
    requires WellPlaced(cs, placed, selected)
    ensures WellPlaced(cs, placed, -1)
  {}

  lemma DoneInv(sys: System, result: DoneResult)
    requires Inv(sys) && Enabled(sys, Done(result))
    ensures Inv(DoneStep(sys, result)) && (ReadAll(sys) ==> ReadAll(DoneStep(sys, result)))
  {
    if sys.child.phase.ok && result == Switches {
      SwitchedFile(sys);
      WeakenPlaces(sys.sinceFork, sys.placedSinceFork, sys.selectedDb);
      assert sys.child.snapshot + PrintAll(sys.sinceFork) + [] == sys.child.snapshot + PrintAll(sys.sinceFork);
    }
    hide WellPlaced, PrintAll;
  }

  /** Bytes that move from the head of one sequence to the end of the one before it. */
  lemma Moved(a: Bytes, b: Bytes, c: Bytes, n: nat)
    requires n <= |c|
    ensures a + (b + c[..n]) + c[n..] == a + b + c
  {
  }

  lemma PipeInv(sys: System, e: Event)
    requires Inv(sys) && Enabled(sys, e) && (e.PipeWrite? || e.ChildRead? || e.Flush?)
    ensures Inv(Next(sys, e)) && (ReadAll(sys) ==> ReadAll(Next(sys, e)))
  {
    hide WellPlaced, PrintAll;
    match e {
      case PipeWrite(n) => Moved(sys.child.diff, sys.data, sys.pending, n);
      case ChildRead(n) =>
        Moved([], sys.child.diff, sys.data, n);
        assert [] + (sys.child.diff + sys.data[..n]) == sys.child.diff + sys.data[..n];
        assert [] + sys.child.diff == sys.child.diff;
      case Flush(n) =>
        Moved([], sys.file, sys.aofBuf, n);
        assert [] + (sys.file + sys.aofBuf[..n]) == sys.file + sys.aofBuf[..n];
        assert [] + sys.file == sys.file;
    }
  }

  lemma StartInv(sys: System, e: Event)
    requires Inv(sys) && Enabled(sys, e)
    requires e.Fork? || e.Enable? || e.EnableLater? || e.EnableFails? || e.Disable?
    ensures Inv(Next(sys, e)) && (ReadAll(sys) ==> ReadAll(Next(sys, e)))
  {
  }

  lemma SignalInv(sys: System, e: Event)
    requires Inv(sys) && Enabled(sys, e)
    requires e.ChildAsks? || e.ParentStops? || e.ChildGetsAck? || e.ChildFinishes? || e.ChildFails?
    ensures Inv(Next(sys, e)) && (ReadAll(sys) ==> (ReadAll(Next(sys, e)) <==> !LosesDiff(sys, e)))
  {
  }

  /** Every event keeps the invariant, and every event but a finish with data left in the pipe
      keeps that all is read. */
  lemma StepInv(sys: System, e: Event)
    requires Inv(sys) && Enabled(sys, e)
    ensures Inv(Next(sys, e)) && (ReadAll(sys) ==> (ReadAll(Next(sys, e)) <==> !LosesDiff(sys, e)))
  {
    match e {
      case Feed(db, cmd) => FeedInv(sys, db, cmd);
      case Done(result) => DoneInv(sys, result);
      case PipeWrite(_) => PipeInv(sys, e);
      case ChildRead(_) => PipeInv(sys, e);
      case Flush(_) => PipeInv(sys, e);
      case Fork(_) => StartInv(sys, e);
      case Enable(_) => StartInv(sys, e);
      case EnableLater => StartInv(sys, e);
      case EnableFails => StartInv(sys, e);
      case Disable => StartInv(sys, e);
      case _ => SignalInv(sys, e);
    }
    hide Inv, ReadAll, FeedStep, DoneStep, ForkStep, Cleanup;
  }

  predicate IsRun(sys: System, run: seq<Event>)
    decreases |run|
  {
    run == [] || (Enabled(sys, run[0]) && IsRun(Next(sys, run[0]), run[1..]))
  }

  function Final(sys: System, run: seq<Event>): System
    requires IsRun(sys, run)
    decreases |run|
  {
    if run == [] then sys else Final(Next(sys, run[0]), run[1..])
  }

  /** Every child of the run that finishes has read the pipe to its end. */
  predicate LosesNoDiff(sys: System, run: seq<Event>)
    requires IsRun(sys, run)
    decreases |run|
  {
    run == [] || (!LosesDiff(sys, run[0]) && LosesNoDiff(Next(sys, run[0]), run[1..]))
  }

  lemma {:induction false} RunInv(sys: System, run: seq<Event>)
    requires Inv(sys) && IsRun(sys, run)
    ensures Inv(Final(sys, run))
    ensures ReadAll(sys) && LosesNoDiff(sys, run) ==> ReadAll(Final(sys, run))
    decreases |run|
  {
    hide Inv, ReadAll, Next, LosesDiff;
    if run != [] {
      StepInv(sys, run[0]);
      RunInv(Next(sys, run[0]), run[1..]);
    }
  }

  /** A server with the log on, an empty buffer and no child. */
  predicate Start(sys: System) {
    sys.aof == On && sys.child.NoChild? && sys.aofBuf == [] && sys.pending == [] && sys.selectedDb == -1 &&
    sys.base == sys.file && sys.sinceBase == [] && sys.placedSinceBase == [] && sys.lost == 0
  }

  /** Whatever the interleaving: when the parent switches files, the new file is the snapshot
      followed by all that was fed since the fork if and only if the child left nothing in the
      pipe; and that log, from any database, replays exactly the commands run since the fork,
      each in its own database.  The buffer that is cleared held nothing else. */
  lemma RewriteIsLossless(sys: System, run: seq<Event>)
    requires Start(sys) && IsRun(sys, run) && ChildIn(Final(sys, run), Exited(true))
    ensures var before := Final(sys, run);
            var after := DoneStep(before, Switches);
            (after.file == before.child.snapshot + PrintAll(before.sinceFork) <==> before.data == []) &&
            after.aofBuf == [] &&
            (before.aof != Off ==> forall db :: Replay(db, before.sinceFork) == before.placedSinceFork)
  {
    StartIsInv(sys);
    RunInv(sys, run);
    SwitchedFile(Final(sys, run));
  }

  /** In every reachable state with the log on, what is on disk and in the buffer is the base and
      everything fed since the file was last replaced if and only if nothing was left in the pipe
      then; and so it is if every child that finished had read the pipe to its end. */
  lemma LogIsComplete(sys: System, run: seq<Event>)
    requires Start(sys) && IsRun(sys, run) && Final(sys, run).aof == On
    ensures var now := Final(sys, run);
            (LogComplete(now) <==> now.lost == 0) && (LosesNoDiff(sys, run) ==> now.lost == 0) &&
            forall db :: Replay(db, now.sinceBase) == now.placedSinceBase
  {
    StartIsInv(sys);
    RunInv(sys, run);
  }

  /** Whatever fails before the switch, after any run: the old file and the buffer are left as
      they were and hold as much as before of what was run since the file was last replaced. */
  lemma FailedSwitch(sys: System, run: seq<Event>, result: DoneResult)
    requires Start(sys) && IsRun(sys, run) && Enabled(Final(sys, run), Done(result))
    requires result != Switches || !Final(sys, run).child.phase.ok
    ensures var before := Final(sys, run);
            var after := Next(before, Done(result));
            Inv(after) && after.file == before.file && after.aofBuf == before.aofBuf && after.child.NoChild? &&
            after.lost == before.lost &&
            (before.aof == On ==>
               (LogComplete(after) <==> before.lost == 0) &&
               forall db :: Replay(db, after.sinceBase) == after.placedSinceBase)
  {
    hide IsRun, Final, PrintAll, Replay;
    StartIsInv(sys);
    RunInv(sys, run);
    StepInv(Final(sys, run), Done(result));
  }

  lemma StartIsInv(sys: System)
    requires Start(sys)
    ensures Inv(sys)
  {
  }

  lemma {:induction false} StepOn(sys: System, run: seq<Event>, e: Event)
    requires IsRun(sys, run) && Enabled(Final(sys, run), e)
    ensures IsRun(sys, run + [e]) && Final(sys, run + [e]) == Next(Final(sys, run), e)
    decreases |run|
  {
    hide Next, Enabled;
    if run == [] {
      assert run + [e] == [e] && [e][1..] == [];
      assert IsRun(Next(sys, e), []) && Final(Next(sys, e), []) == Next(sys, e);
    } else {
      assert (run + [e])[1..] == run[1..] + [e];
      StepOn(Next(sys, run[0]), run[1..], e);
    }
  }

  /** A child is forked, one command is fed and written to the pipe. */
  function PipedRun(cmd: Command): seq<Event> {
    [Fork([])] + [Feed(0, cmd)] + [PipeWrite(|PrintAll(FeedCommands(-1, 0, cmd))|)]
  }

  /** The child asks the parent to stop, gets the answer and finishes; the parent switches. */
  const FinishRun: seq<Event> :=
    [ChildAsks] + [ParentStops(true)] + [ChildGetsAck] + [ChildFinishes] + [Done(Switches)]

  /** Its last read was interrupted: the command is not in the new file. */
  lemma InterruptedRead(sys: System, cmd: Command)
    requires Start(sys) && !IsSelect(cmd)
    ensures IsRun(sys, PipedRun(cmd) + FinishRun)
    ensures var end := Final(sys, PipedRun(cmd) + FinishRun);
            end.aof == On && end.file + end.aofBuf == [] && end.sinceBase == FeedCommands(-1, 0, cmd) &&
            !LogComplete(end)
  {
    hide PrintAll, FeedCommands, IsSelect, IsRun, Final;
    var buf := PrintAll(FeedCommands(-1, 0, cmd));
    Piped(sys, cmd);
    var s3 := Final(sys, PipedRun(cmd));
    Finished(sys, PipedRun(cmd), s3);
    assert buf != [] by { FedNotEmpty(cmd); }
  }

  lemma FedNotEmpty(cmd: Command)
    ensures PrintAll(FeedCommands(-1, 0, cmd)) != []
  {
    FeedPrinted(-1, 0, cmd);
    CommandNotEmpty(cmd);
    hide PrintAll, PrintCommand, FeedCommands;
  }

  lemma Piped(sys: System, cmd: Command)
    requires Start(sys) && !IsSelect(cmd)
    ensures IsRun(sys, PipedRun(cmd))
    ensures var s := Final(sys, PipedRun(cmd));
            Ready(s) && s.data == PrintAll(FeedCommands(-1, 0, cmd)) && s.sinceFork == FeedCommands(-1, 0, cmd)
  {
    hide PrintAll, FeedCommands, IsSelect;
    var cs := FeedCommands(-1, 0, cmd);
    var buf := PrintAll(cs);
    assert IsRun(sys, []) && Final(sys, []) == sys;
    hide IsRun, Final;
    StepOn(sys, [], Fork([]));
    assert [] + [Fork([])] == [Fork([])];
    var s1 := Next(sys, Fork([]));
    StepOn(sys, [Fork([])], Feed(0, cmd));
    var s2 := Next(s1, Feed(0, cmd));
    assert [] + buf == buf && [] + cs == cs;
    assert s2.pending == buf && s2.sinceFork == cs;
    StepOn(sys, [Fork([])] + [Feed(0, cmd)], PipeWrite(|buf|));
    assert [] + buf[..|buf|] == buf && buf[|buf|..] == [];
  }

  predicate Ready(s: System) {
    s.aof == On && s.child == Child(Saving, [], []) && !s.stop && !s.ask && s.pending == []
  }

  lemma Acknowledged(s: System)
    requires Ready(s)
    ensures Enabled(s, ChildAsks)
    ensures var s1 := Next(s, ChildAsks);
            Enabled(s1, ParentStops(true)) &&
            var s2 := Next(s1, ParentStops(true));
            Enabled(s2, ChildGetsAck) &&
            var s3 := Next(s2, ChildGetsAck);
            s3 == s.(child := Child(Acked, [], []), stop := true, ask := false, ack := false)
  {}

  lemma Switched(s: System)
    requires s.aof == On && s.child == Child(Acked, [], []) && s.pending == []
    ensures Enabled(s, ChildFinishes)
    ensures var s1 := Next(s, ChildFinishes);
            Enabled(s1, Done(Switches)) &&
            var end := Next(s1, Done(Switches));
            end.aof == On && end.file == [] && end.aofBuf == [] && end.base == [] && end.sinceBase == s.sinceFork
  {}

  lemma Finished(sys: System, run: seq<Event>, s: System)
    requires IsRun(sys, run) && Final(sys, run) == s && Ready(s)
    ensures IsRun(sys, run + FinishRun)
    ensures var end := Final(sys, run + FinishRun);
            end.aof == On && end.file == [] && end.aofBuf == [] && end.base == [] && end.sinceBase == s.sinceFork
  {
    hide IsRun, Final, Next, Enabled;
    Acknowledged(s);
    Switched(s.(child := Child(Acked, [], []), stop := true, ask := false, ack := false));
    StepOn(sys, run, ChildAsks);
    var r1 := run + [ChildAsks];
    StepOn(sys, r1, ParentStops(true));
    var r2 := r1 + [ParentStops(true)];
    StepOn(sys, r2, ChildGetsAck);
    var r3 := r2 + [ChildGetsAck];
    StepOn(sys, r3, ChildFinishes);
    var r4 := r3 + [ChildFinishes];
    StepOn(sys, r4, Done(Switches));
    assert r4 + [Done(Switches)] == run + FinishRun;
  }
}
