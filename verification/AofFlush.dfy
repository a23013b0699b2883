/**
 Writing the append only buffer to disk (aof.c): short writes, errors and undoing them.

 The results of write(2) and ftruncate(2) are inputs.  Disk contents are bytes.
 */
module AofFlush {
  import opened AofLog

  /** One result of write(2): bytes taken, interrupted by a signal, or another error. */
  datatype WriteResult = Wrote(n: nat) | Interrupted | Error

  datatype Policy = Always | EverySec | No

  /** What the operating system and the configuration answer during one flush. */
  datatype World = World(
    policy: Policy, force: bool, syncInProgress: bool, now: int,
    writes: seq<WriteResult>,       // successive results of write(2); once used up it succeeds
    truncateOk: bool
  )

  datatype State = State(
    file: Bytes, aofBuf: Bytes, currentSize: nat, lastWriteOk: bool, postponedStart: int
  )

  datatype Outcome = Done | Postponed | Retry | Exit

  /** The bytes of a write of `len` that reach the file, and whether it ended in an error. */
  function Written(len: nat, writes: seq<WriteResult>): (nat, bool)
    decreases |writes|
  {
    if len == 0 then (0, false)
    else if writes == [] then (len, false)
    else
      match writes[0]
      case Interrupted => Written(len, writes[1..])
      case Error => (0, true)
      case Wrote(n) =>
        var k := if n <= len then n else len;
        var (rest, failed) := Written(len - k, writes[1..]);
        (k + rest, failed)
  }

  lemma {:induction false} WrittenBounds(len: nat, writes: seq<WriteResult>)
    ensures var (n, failed) := Written(len, writes); n <= len && (failed <==> n < len)
    decreases |writes|
  {
    if len > 0 && writes != [] {
      match writes[0]
      case Interrupted => WrittenBounds(len, writes[1..]);
      case Error =>
      case Wrote(n) => WrittenBounds(len - (if n <= len then n else len), writes[1..]);
    }
  }

  predicate Postpones(s: State, w: World) {
    w.policy == EverySec && !w.force && w.syncInProgress && (s.postponedStart == 0 || w.now - s.postponedStart < 2)
  }

  /** Everything flushed, or the failed part undone, or the part that stayed accounted for. */
  function Flush(s: State, w: World): (State, Outcome) {
    if s.aofBuf == [] then (s, Done)
    else if Postpones(s, w) then
      (s.(postponedStart := if s.postponedStart == 0 then w.now else s.postponedStart), Postponed)
    else
      var (n, failed) := Written(|s.aofBuf|, w.writes);
      WrittenBounds(|s.aofBuf|, w.writes);
      var s1 := s.(file := s.file + s.aofBuf[..n], postponedStart := 0);
      if !failed then (s1.(aofBuf := [], currentSize := s.currentSize + n, lastWriteOk := true), Done)
      else
        var undone := n > 0 && w.truncateOk;
        var s2 := if undone then s1.(file := CutTo(s1.file, s.currentSize)) else s1;
        if w.policy == Always then (s2, Exit)
        else if n > 0 && !undone then
          (s2.(aofBuf := s.aofBuf[n..], currentSize := s.currentSize + n, lastWriteOk := false), Retry)
        else (s2.(lastWriteOk := false), Retry)
  }

  /** ftruncate to `size`, which may also extend with zeros. */
  function CutTo(file: Bytes, size: nat): Bytes {
    if size <= |file| then file[..size] else file + seq(size - |file|, _ => 0)
  }

  /** The same state updated in place. */
  class AppendOnlyFile {
    var file: Bytes
    var aofBuf: Bytes
    var currentSize: nat
    var lastWriteOk: bool
    var postponedStart: int

    function Value(): State
      reads this
    {
      State(file, aofBuf, currentSize, lastWriteOk, postponedStart)
    }

    constructor (s: State)
      ensures Value() == s
    {
      file, aofBuf, currentSize, lastWriteOk, postponedStart :=
        s.file, s.aofBuf, s.currentSize, s.lastWriteOk, s.postponedStart;
    }

    /** The retry loop around write(2); -1 if nothing could be written. */
    method AofWrite(buf: Bytes, writes: seq<WriteResult>) returns (nwritten: int)
      modifies this
      ensures var (n, failed) := Written(|buf|, writes);
              n <= |buf| && file == old(file) + buf[..n] && nwritten == if failed && n == 0 then -1 else n
      ensures aofBuf == old(aofBuf) && currentSize == old(currentSize) && lastWriteOk == old(lastWriteOk) &&
              postponedStart == old(postponedStart)
    {
      WrittenBounds(|buf|, writes);
      var tot, next := 0, 0;
      while tot < |buf|
        invariant 0 <= tot <= |buf| && 0 <= next <= |writes|
        invariant file == old(file) + buf[..tot]
        invariant var (n, failed) := Written(|buf| - tot, writes[next..]);
                  Written(|buf|, writes) == (tot + n, failed)
        invariant aofBuf == old(aofBuf) && currentSize == old(currentSize) && lastWriteOk == old(lastWriteOk) &&
                  postponedStart == old(postponedStart)
        decreases |writes| - next, |buf| - tot
      {
        var len := |buf| - tot;
        if next == |writes| {
          file := file + buf[tot..];
          assert old(file) + buf[..tot] + buf[tot..] == old(file) + buf[..|buf|];
          tot := |buf|;
        } else {
          assert writes[next..][1..] == writes[next + 1..];
          var r := writes[next];
          next := next + 1;
          match r {
            case Interrupted =>
            case Error => return if tot > 0 then tot else -1;
            case Wrote(n) =>
              var k := if n <= len then n else len;
              assert old(file) + buf[..tot] + buf[tot..tot + k] == old(file) + buf[..tot + k];
              file := file + buf[tot..tot + k];
              tot := tot + k;
          }
        }
      }
      nwritten := tot;
    }

    method FlushAppendOnlyFile(w: World) returns (outcome: Outcome)
      modifies this
      ensures (Value(), outcome) == Flush(old(Value()), w)
    {
      if |aofBuf| == 0 { return Done; }
      if w.policy == EverySec && !w.force {
        if w.syncInProgress {
          if postponedStart == 0 {
            postponedStart := w.now;
            return Postponed;
          } else if w.now - postponedStart < 2 {
            return Postponed;
          }
        }
      }
      WrittenBounds(|aofBuf|, w.writes);
      var nwritten := AofWrite(aofBuf, w.writes);
      ghost var n := Written(|aofBuf|, w.writes).0;
      assert file == old(file) + old(aofBuf)[..n] && (nwritten == -1 <==> n == 0);
      postponedStart := 0;
      if nwritten != |aofBuf| {
        if nwritten != -1 {
          if w.truncateOk {
            file := CutTo(file, currentSize);
            nwritten := -1;
          }
        }
        if w.policy == Always { return Exit; }
        lastWriteOk := false;
        if nwritten > 0 {
          currentSize := currentSize + nwritten;
          aofBuf := aofBuf[nwritten..];
        }
        return Retry;
      }
      lastWriteOk := true;
      currentSize := currentSize + nwritten;
      aofBuf := [];
      outcome := Done;
    }
  }

  // --------------------------------------------------------------- Conservation

  predicate SizeOk(s: State) { s.currentSize == |s.file| && (s.lastWriteOk || s.aofBuf != []) }

  /** No byte is lost, repeated or reordered, and the recorded size is the real one. */
  lemma FlushConserves(s: State, w: World)
    requires SizeOk(s) && Flush(s, w).1 != Exit
    ensures var s' := Flush(s, w).0;
            SizeOk(s') && s'.file + s'.aofBuf == s.file + s.aofBuf && s.file <= s'.file
    ensures Flush(s, w).1 == Done ==> Flush(s, w).0.aofBuf == [] && Flush(s, w).0.file == s.file + s.aofBuf
  {
    if s.aofBuf != [] && !Postpones(s, w) {
      var (n, failed) := Written(|s.aofBuf|, w.writes);
      WrittenBounds(|s.aofBuf|, w.writes);
      assert s.aofBuf == s.aofBuf[..n] + s.aofBuf[n..];
      assert (s.file + s.aofBuf[..n])[..|s.file|] == s.file;
      assert s.file + s.aofBuf[..n] + s.aofBuf[n..] == s.file + s.aofBuf;
      hide Written;
    }
  }

  /** An exit happens only under the policy that promises every write is on disk. */
  lemma ExitOnlyWhenAlways(s: State, w: World)
    ensures Flush(s, w).1 == Exit ==> w.policy == Always && Written(|s.aofBuf|, w.writes).1
  {}

  datatype Event = Feed(bytes: Bytes) | DoFlush(w: World)

  /** The state, and whether the server is still running. */
  function Next(s: State, e: Event): (State, bool) {
    match e
    case Feed(b) => (s.(aofBuf := s.aofBuf + b), true)
    case DoFlush(w) => (Flush(s, w).0, Flush(s, w).1 != Exit)
  }

  function Final(s: State, run: seq<Event>): (State, bool) {
    if run == [] then (s, true)
    else
      var (mid, up) := Final(s, run[..|run| - 1]);
      if up then Next(mid, run[|run| - 1]) else (mid, false)
  }

  /** The bytes fed while the server was running. */
  function Fed(s: State, run: seq<Event>): Bytes {
    if run == [] then []
    else
      var n := |run| - 1;
      Fed(s, run[..n]) + (if run[n].Feed? && Final(s, run[..n]).1 then run[n].bytes else [])
  }

  /** What a failed write leaves when the server gives up: some of the buffer is in the file too. */
  lemma ExitConserves(s: State, w: World)
    requires SizeOk(s) && Flush(s, w).1 == Exit
    ensures var s' := Flush(s, w).0;
            s'.aofBuf == s.aofBuf && s.file <= s'.file && s'.file <= s.file + s.aofBuf &&
            s'.file + s'.aofBuf[|s'.file| - |s.file|..] == s.file + s.aofBuf
  {
    var n := Written(|s.aofBuf|, w.writes).0;
    WrittenBounds(|s.aofBuf|, w.writes);
    assert s.aofBuf == s.aofBuf[..n] + s.aofBuf[n..];
    assert (s.file + s.aofBuf[..n])[..|s.file|] == s.file;
    assert s.file + s.aofBuf[..n] + s.aofBuf[n..] == s.file + s.aofBuf;
    assert s.aofBuf[0..] == s.aofBuf;
    hide Written;
  }

  /** The file holds a prefix of `all`, and the end of the buffer the rest. */
  predicate Continues(file: Bytes, buffer: Bytes, all: Bytes) {
    exists k :: 0 <= k <= |buffer| && file + buffer[k..] == all
  }

  lemma FeedStep(s: State, b: Bytes, all: Bytes)
    requires s.file + s.aofBuf == all
    ensures s.file + (s.aofBuf + b) == all + b
  {}

  lemma WholeBuffer(file: Bytes, buffer: Bytes)
    ensures Continues(file, buffer, file + buffer)
  {
    assert buffer[0..] == buffer;
  }

  /** Over every run of feeds and flushes under any policy, whatever fails: while the server runs, file and
      buffer together hold the bytes fed; when it has given up, the file is a beginning of them and the
      rest is in the buffer. */
  lemma {:induction false} RunConserves(s: State, run: seq<Event>)
    requires SizeOk(s)
    ensures var (s', up) := Final(s, run);
            var all := s.file + s.aofBuf + Fed(s, run);
            s.file <= s'.file && (up ==> SizeOk(s') && s'.file + s'.aofBuf == all) &&
            Continues(s'.file, s'.aofBuf, all)
    decreases |run|
  {
    hide Flush, Continues, SizeOk;
    if run == [] {
      assert s.file + s.aofBuf + [] == s.file + s.aofBuf;
      WholeBuffer(s.file, s.aofBuf);
    } else {
      var n := |run| - 1;
      RunConserves(s, run[..n]);
      var (mid, up) := Final(s, run[..n]);
      var all := s.file + s.aofBuf + Fed(s, run[..n]);
      if !up {
        assert Fed(s, run) == Fed(s, run[..n]);
      } else if run[n].Feed? {
        var b := run[n].bytes;
        FeedStep(mid, b, all);
        assert s.file + s.aofBuf + Fed(s, run) == all + b;
        WholeBuffer(mid.file, mid.aofBuf + b);
        SizeAfterFeed(mid, b);
      } else {
        assert Fed(s, run) == Fed(s, run[..n]);
        FlushStep(mid, run[n].w);
      }
    }
  }

  lemma SizeAfterFeed(s: State, b: Bytes)
    requires SizeOk(s)
    ensures SizeOk(s.(aofBuf := s.aofBuf + b))
  {}

  lemma FlushStep(s: State, w: World)
    requires SizeOk(s)
    ensures var (s', outcome) := Flush(s, w);
            s.file <= s'.file && Continues(s'.file, s'.aofBuf, s.file + s.aofBuf) &&
            (outcome != Exit ==> SizeOk(s') && s'.file + s'.aofBuf == s.file + s.aofBuf)
  {
    hide Flush, SizeOk;
    var s' := Flush(s, w).0;
    if Flush(s, w).1 == Exit {
      ExitConserves(s, w);
    } else {
      FlushConserves(s, w);
      assert s'.aofBuf[0..] == s'.aofBuf;
    }
  }

  // ------------------------------------------------------------------ What is written

  /** The bytes that write(2) takes before its first error, interruptions aside. */
  function Takes(writes: seq<WriteResult>): nat {
    if writes == [] || writes[0] == Error then 0
    else (if writes[0].Wrote? then writes[0].n else 0) + Takes(writes[1..])
  }

  /** A write fails exactly if an error comes before all its bytes are taken. */
  lemma {:induction false} WrittenExactly(len: nat, writes: seq<WriteResult>)
    ensures Written(len, writes)
         == if Error in writes && Takes(writes) < len then (Takes(writes), true) else (len, false)
    decreases |writes|
  {
    if len > 0 && writes != [] && writes[0] != Error {
      assert Error in writes <==> Error in writes[1..];
      if writes[0].Interrupted? {
        WrittenExactly(len, writes[1..]);
      } else {
        WrittenExactly(len - (if writes[0].n <= len then writes[0].n else len), writes[1..]);
      }
    }
  }

  /** A flush that writes: without an error everything is in the file; after one the file is as it was if the
      truncation works or nothing was written, and else the written part has left the buffer. */
  lemma WritesExactly(s: State, w: World)
    requires SizeOk(s) && s.aofBuf != [] && Flush(s, w).1 != Postponed
    ensures var (s', outcome) := Flush(s, w);
            var n := Takes(w.writes);
            if Error !in w.writes || n >= |s.aofBuf| then
              outcome == Done && s'.lastWriteOk && s'.file == s.file + s.aofBuf && s'.aofBuf == []
            else
              outcome == (if w.policy == Always then Exit else Retry) &&
              s'.file == (if w.truncateOk then s.file else s.file + s.aofBuf[..n]) &&
              (outcome == Retry ==>
               !s'.lastWriteOk && s'.aofBuf == if w.truncateOk then s.aofBuf else s.aofBuf[n..])
    ensures Flush(s, w).0.postponedStart == 0
  {
    WrittenExactly(|s.aofBuf|, w.writes);
    hide Written, Takes, Postpones;
    assert s.aofBuf[..|s.aofBuf|] == s.aofBuf;
    var n := Takes(w.writes);
    if n < |s.aofBuf| {
      assert (s.file + s.aofBuf[..n])[..|s.file|] == s.file;
      if n == 0 { assert s.aofBuf[0..] == s.aofBuf && s.file + s.aofBuf[..0] == s.file; }
    }
  }

  // -------------------------------------------------------------------- Postponement

  /** A flush that nobody forces waits for a sync in progress, and changes nothing but the time it waits from. */
  lemma WaitsForSync(s: State, w: World)
    requires s.aofBuf != [] && s.postponedStart == 0 && w.policy == EverySec && !w.force && w.syncInProgress
    ensures Flush(s, w) == (s.(postponedStart := w.now), Postponed)
  {
  }

  /** Nothing else is put off. */
  lemma NeverPutOff(s: State, w: World)
    requires w.policy != EverySec || w.force || !w.syncInProgress
    ensures Flush(s, w).1 != Postponed
  {
    hide Written;
  }

  predicate Flushes(run: seq<Event>, i: int) { 0 <= i < |run| && run[i].DoFlush? }

  /** The clock does not go back. */
  ghost predicate Clock(run: seq<Event>) {
    (forall i | Flushes(run, i) :: run[i].w.now > 0) &&
    forall i, j | i <= j && Flushes(run, i) && Flushes(run, j) :: run[i].w.now <= run[j].w.now
  }

  function OutcomeAt(s: State, run: seq<Event>, i: nat): Outcome
    requires Flushes(run, i)
  {
    Flush(Final(s, run[..i]).0, run[i].w).1
  }

  lemma FinalNext(s: State, run: seq<Event>, m: nat)
    requires m < |run|
    ensures var (mid, up) := Final(s, run[..m]);
            Final(s, run[..m + 1]) == if up then Next(mid, run[m]) else (mid, false)
  {
    hide Next;
    assert run[..m + 1][..m] == run[..m];
  }

  lemma {:induction false} UpBefore(s: State, run: seq<Event>, m: nat)
    requires m <= |run| && Final(s, run).1
    ensures Final(s, run[..m]).1
    decreases |run| - m
  {
    hide Final;
    if m == |run| {
      assert run[..m] == run;
    } else {
      UpBefore(s, run, m + 1);
      FinalNext(s, run, m);
    }
  }

  lemma PostponedStartAfter(s: State, w: World)
    ensures Flush(s, w).0.postponedStart in {0, s.postponedStart, w.now}
    ensures Flush(s, w).1 == Postponed ==>
              Flush(s, w).0.postponedStart == if s.postponedStart == 0 then w.now else s.postponedStart
    ensures Flush(s, w).1 == Postponed && s.postponedStart != 0 ==> w.now - s.postponedStart < 2
  {
    hide Written;
  }

  lemma NoEvents(s: State, run: seq<Event>)
    ensures Final(s, run[..0]) == (s, true)
  {
  }

  /** A flush waits from a time that has passed. */
  lemma {:induction false} WaitsFromPast(s: State, run: seq<Event>, m: nat, k: nat)
    requires s.postponedStart == 0 && Clock(run) && m <= k && Flushes(run, k)
    ensures 0 <= Final(s, run[..m]).0.postponedStart <= run[k].w.now
    decreases m
  {
    hide Final, Flush;
    if m == 0 {
      NoEvents(s, run);
      assert run[k].w.now > 0;
    } else {
      WaitsFromPast(s, run, m - 1, k);
      FinalNext(s, run, m - 1);
      if Flushes(run, m - 1) {
        PostponedStartAfter(Final(s, run[..m - 1]).0, run[m - 1].w);
        assert 0 < run[m - 1].w.now <= run[k].w.now;
      }
    }
  }

  lemma {:induction false} WaitsOn(s: State, run: seq<Event>, i: nat, j: nat, since: int)
    requires Final(s, run).1 && i <= j <= |run| && since != 0 && Final(s, run[..i]).0.postponedStart == since
    requires forall m | i <= m < j && Flushes(run, m) :: OutcomeAt(s, run, m) == Postponed
    ensures Final(s, run[..j]).0.postponedStart == since
    decreases j
  {
    hide Final, Flush;
    if i < j {
      WaitsOn(s, run, i, j - 1, since);
      UpBefore(s, run, j - 1);
      FinalNext(s, run, j - 1);
      if Flushes(run, j - 1) {
        assert OutcomeAt(s, run, j - 1) == Postponed;
        PostponedStartAfter(Final(s, run[..j - 1]).0, run[j - 1].w);
      }
    }
  }

  /** Over every run, whatever the disk does: as long as all flushes are put off, less than two seconds pass. */
  lemma PutOffAtMostTwoSeconds(s: State, run: seq<Event>, i: nat, j: nat)
    requires s.postponedStart == 0 && Clock(run) && Final(s, run).1 && i < j
    requires Flushes(run, i) && Flushes(run, j)
    requires forall m | i <= m <= j && Flushes(run, m) :: OutcomeAt(s, run, m) == Postponed
    ensures run[j].w.now - run[i].w.now < 2
  {
    hide Final, Flush;
    assert OutcomeAt(s, run, i) == Postponed && OutcomeAt(s, run, j) == Postponed;
    assert run[i].w.now > 0;
    WaitsFromPast(s, run, i, i);
    UpBefore(s, run, i);
    FinalNext(s, run, i);
    PostponedStartAfter(Final(s, run[..i]).0, run[i].w);
    var since := Final(s, run[..i + 1]).0.postponedStart;
    assert 0 < since <= run[i].w.now;
    WaitsOn(s, run, i + 1, j, since);
    PostponedStartAfter(Final(s, run[..j]).0, run[j].w);
  }
}
