/**
 Slot ranges in the node description and in nodes.conf (cluster.c).

 A node's slots are printed as maximal runs of set bits.  They are found either by
 scanning the node's own bitmap or, for all nodes at once, by one pass over the slot
 table.  Loading adds the slots of each range one by one.
 */
module SlotRanges {
  import opened ClusterSlots

  /** Slots `start` to `stop`, both included. */
  datatype Range = Range(start: nat, stop: nat)

  /** The maximal runs of set bits, in order. */
  function Runs(bits: seq<bool>): seq<Range> {
    if bits == [] then []
    else
      var n := |bits| - 1;
      var r := Runs(bits[..n]);
      if !bits[n] then r
      else if r != [] && r[|r| - 1].stop + 1 == n then r[..|r| - 1] + [Range(r[|r| - 1].start, n)]
      else r + [Range(n, n)]
  }

  predicate Covers(rs: seq<Range>, j: nat) {
    exists k :: 0 <= k < |rs| && rs[k].start <= j <= rs[k].stop
  }

  /** Well-formed, separated by at least one slot, and covering exactly the set bits. */
  predicate AreMaximalRuns(bits: seq<bool>, rs: seq<Range>) {
    (forall k | 0 <= k < |rs| :: rs[k].start <= rs[k].stop < |bits|) &&
    (forall k | 0 <= k < |rs| - 1 :: rs[k].stop + 1 < rs[k + 1].start) &&
    (forall j | 0 <= j < |bits| :: bits[j] <==> Covers(rs, j))
  }

  lemma ExtendedCovers(r: seq<Range>, n: nat, j: nat)
    requires r != [] && r[|r| - 1].stop + 1 == n
    ensures var rs := r[..|r| - 1] + [Range(r[|r| - 1].start, n)];
            Covers(rs, j) <==> Covers(r, j) || (j == n && r[|r| - 1].start <= n)
  {
    var last := |r| - 1;
    var rs := r[..last] + [Range(r[last].start, n)];
    if Covers(r, j) {
      var k :| 0 <= k < |r| && r[k].start <= j <= r[k].stop;
      assert rs[k].start <= j <= rs[k].stop;
    } else if j == n && r[last].start <= n {
      assert rs[last].start <= j <= rs[last].stop;
    }
  }

  lemma AppendedCovers(r: seq<Range>, n: nat, j: nat)
    ensures Covers(r + [Range(n, n)], j) <==> Covers(r, j) || j == n
  {
    var rs := r + [Range(n, n)];
    if Covers(r, j) {
      var k :| 0 <= k < |r| && r[k].start <= j <= r[k].stop;
      assert rs[k].start <= j <= rs[k].stop;
    } else if j == n {
      assert rs[|r|].start <= j <= rs[|r|].stop;
    }
  }

  lemma MaximalSkip(bits: seq<bool>, r: seq<Range>, n: nat)
    requires |bits| == n + 1 && !bits[n] && AreMaximalRuns(bits[..n], r)
    ensures AreMaximalRuns(bits, r)
  {
  }

  lemma MaximalExtend(bits: seq<bool>, r: seq<Range>, n: nat)
    requires |bits| == n + 1 && bits[n] && AreMaximalRuns(bits[..n], r) && r != [] && r[|r| - 1].stop + 1 == n
    ensures AreMaximalRuns(bits, r[..|r| - 1] + [Range(r[|r| - 1].start, n)])
  {
    hide Covers;
    var rs := r[..|r| - 1] + [Range(r[|r| - 1].start, n)];
    forall j | 0 <= j <= n ensures bits[j] <==> Covers(rs, j) {
      ExtendedCovers(r, n, j);
      assert j < n ==> bits[..n][j] == bits[j];
    }
  }

  lemma MaximalAppend(bits: seq<bool>, r: seq<Range>, n: nat)
    requires |bits| == n + 1 && bits[n] && AreMaximalRuns(bits[..n], r) && (r == [] || r[|r| - 1].stop + 1 < n)
    ensures AreMaximalRuns(bits, r + [Range(n, n)])
  {
    hide Covers;
    var rs := r + [Range(n, n)];
    forall j | 0 <= j <= n ensures bits[j] <==> Covers(rs, j) {
      AppendedCovers(r, n, j);
      assert j < n ==> bits[..n][j] == bits[j];
    }
  }

  lemma {:induction false} RunsAreMaximal(bits: seq<bool>)
    ensures AreMaximalRuns(bits, Runs(bits))
    ensures var rs := Runs(bits);
            bits != [] && bits[|bits| - 1] <==> rs != [] && rs[|rs| - 1].stop + 1 == |bits|
    decreases |bits|
  {
    if bits != [] {
      var n := |bits| - 1;
      var r := Runs(bits[..n]);
      RunsAreMaximal(bits[..n]);
      LastRunBefore(bits[..n], r);
      hide AreMaximalRuns;
      if !bits[n] {
        MaximalSkip(bits, r, n);
      } else if r != [] && r[|r| - 1].stop + 1 == n {
        MaximalExtend(bits, r, n);
      } else {
        MaximalAppend(bits, r, n);
      }
    }
  }

  lemma LastRunBefore(bits: seq<bool>, r: seq<Range>)
    requires AreMaximalRuns(bits, r)
    ensures r == [] || r[|r| - 1].stop < |bits|
  {}

  /** How the runs of a prefix change with the next bit, given the run that is still open. */
  lemma RunsNext(bits: seq<bool>, j: nat, done: seq<Range>, start: int)
    requires j < |bits| && (start == -1 || 0 <= start < j)
    requires Runs(bits[..j]) == done + (if start == -1 then [] else [Range(start, j - 1)])
    requires start == -1 ==> j == 0 || !bits[j - 1]
    ensures Runs(bits[..j + 1]) ==
            if !bits[j] then Runs(bits[..j])
            else if start == -1 then done + [Range(j, j)] else done + [Range(start, j)]
  {
    RunsAreMaximal(bits[..j]);
    assert bits[..j + 1][..j] == bits[..j];
  }

  // --------------------------------------------------------------- One bitmap

  /** The scan over a node's own bitmap. */
  method ScanBitmap(bits: seq<bool>) returns (rs: seq<Range>)
    ensures rs == Runs(bits)
  {
    assert Runs(bits[..0]) == [];
    hide Runs;
    rs := [];
    var start := -1;
    var j := 0;
    while j < |bits|
      invariant 0 <= j <= |bits| + 1
      invariant start == -1 || 0 <= start < j <= |bits|
      invariant j <= |bits| ==> Runs(bits[..j]) == rs + (if start == -1 then [] else [Range(start, j - 1)])
      invariant start == -1 && 0 < j < |bits| ==> !bits[j - 1]
      invariant start != -1 ==> j < |bits|
      invariant j == |bits| + 1 ==> rs == Runs(bits) && start == -1
    {
      var bit := bits[j];
      RunsNext(bits, j, rs, start);
      assert j + 1 == |bits| ==> bits[..j + 1] == bits;
      if bit {
        if start == -1 { start := j; }
      }
      if start != -1 && (!bit || j == |bits| - 1) {
        if bit && j == |bits| - 1 { j := j + 1; }
        rs := rs + [Range(start, j - 1)];
        start := -1;
      }
      j := j + 1;
    }
    assert j == |bits| ==> bits[..j] == bits;
  }

  // -------------------------------------------------------- All nodes at once

  type Infos = map<NodeId, seq<Range>>

  function InfoOf(infos: Infos, n: NodeId): seq<Range> {
    if n in infos then infos[n] else []
  }

  /** What is printed for `n` once slots `..i` are done and `open` has a run from `start`. */
  predicate PrintedSoFar(slots: seq<Owner>, i: nat, infos: Infos, n: NodeId, open: Owner, start: nat)
    requires i <= |slots| && (open.Owned? ==> start < i)
  {
    Runs(BitsOf(slots, n)[..i]) == InfoOf(infos, n) + (if open == Owned(n) then [Range(start, i - 1)] else [])
  }

  /** The table says whose run slot `i` continues, starts or ends. */
  lemma PrintedNext(slots: seq<Owner>, i: nat, infos: Infos, n: NodeId, open: Owner, start: nat)
    requires i < |slots| && (open.Owned? ==> start < i) && (open.Unassigned? ==> i == 0 || slots[i - 1].Unassigned?)
    requires open.Owned? ==> slots[i - 1] == open
    requires PrintedSoFar(slots, i, infos, n, open, start)
    ensures slots[i] == open ==> PrintedSoFar(slots, i + 1, infos, n, open, start)
    ensures slots[i] != open ==>
              Runs(BitsOf(slots, n)[..i + 1]) ==
              InfoOf(infos, n) + (if open == Owned(n) then [Range(start, i - 1)] else []) +
              (if slots[i] == Owned(n) then [Range(i, i)] else [])
  {
    RunsNext(BitsOf(slots, n), i, InfoOf(infos, n), if open == Owned(n) then start else -1);
  }

  ghost predicate AllPrinted(slots: seq<Owner>, i: nat, infos: Infos, filtered: set<NodeId>, open: Owner, start: nat)
    requires i <= |slots|
  {
    (open.Owned? ==> start < i) && (i > 0 ==> slots[i - 1] == open) && (i == 0 ==> open.Unassigned?) &&
    (forall n | n !in filtered :: PrintedSoFar(slots, i, infos, n, open, start)) &&
    (forall n | n in filtered :: n !in infos)
  }

  function Emit(infos: Infos, filtered: set<NodeId>, n: NodeId, r: Range): Infos {
    if n in filtered then infos else infos[n := InfoOf(infos, n) + [r]]
  }

  lemma RunContinues(slots: seq<Owner>, i: nat, infos: Infos, filtered: set<NodeId>, open: Owner, start: nat)
    requires i < |slots| && AllPrinted(slots, i, infos, filtered, open, start) && slots[i] == open
    ensures AllPrinted(slots, i + 1, infos, filtered, open, start)
    ensures open.Unassigned? ==> AllPrinted(slots, i + 1, infos, filtered, open, i)
  {
    hide Runs;
    forall n | n !in filtered ensures PrintedSoFar(slots, i + 1, infos, n, open, start) {
      PrintedNext(slots, i, infos, n, open, start);
    }
  }

  lemma RunEnds(slots: seq<Owner>, i: nat, infos: Infos, filtered: set<NodeId>, open: Owner, start: nat)
    requires i < |slots| && AllPrinted(slots, i, infos, filtered, open, start) && slots[i] != open
    ensures var infos' := if open.Owned? then Emit(infos, filtered, open.node, Range(start, i - 1)) else infos;
            AllPrinted(slots, i + 1, infos', filtered, slots[i], i)
  {
    hide Runs;
    var infos' := if open.Owned? then Emit(infos, filtered, open.node, Range(start, i - 1)) else infos;
    forall n | n !in filtered ensures PrintedSoFar(slots, i + 1, infos', n, slots[i], i) {
      PrintedNext(slots, i, infos, n, open, start);
    }
  }

  lemma PrintingDone(slots: seq<Owner>, infos: Infos, filtered: set<NodeId>, open: Owner, start: nat)
    requires AllPrinted(slots, |slots|, infos, filtered, open, start)
    ensures var infos' := if open.Owned? then Emit(infos, filtered, open.node, Range(start, |slots| - 1)) else infos;
            (forall n | n !in filtered :: InfoOf(infos', n) == Runs(BitsOf(slots, n))) &&
            (forall n | n in filtered :: n !in infos')
  {
    hide Runs;
    var infos' := if open.Owned? then Emit(infos, filtered, open.node, Range(start, |slots| - 1)) else infos;
    forall n | n !in filtered ensures InfoOf(infos', n) == Runs(BitsOf(slots, n)) {
      assert PrintedSoFar(slots, |slots|, infos, n, open, start);
      assert BitsOf(slots, n)[..|slots|] == BitsOf(slots, n);
    }
  }

  /** One pass over the slot table; nodes in `filtered` get nothing. */
  method GenNodesSlotsInfo(slots: seq<Owner>, filtered: set<NodeId>) returns (infos: Infos)
    ensures forall n | n !in filtered :: InfoOf(infos, n) == Runs(BitsOf(slots, n))
    ensures forall n | n in filtered :: n !in infos
  {
    infos := map[];
    var n := Unassigned;
    var start := 0;
    assert AllPrinted(slots, 0, infos, filtered, n, start);
    hide AllPrinted;
    for i := 0 to |slots|
      invariant n.Owned? ==> start < i
      invariant AllPrinted(slots, i, infos, filtered, n, start)
    {
      if slots[i] == n {
        RunContinues(slots, i, infos, filtered, n, start);
      } else {
        RunEnds(slots, i, infos, filtered, n, start);
      }
      if n == Unassigned {
        n := slots[i];
        start := i;
      } else if n != slots[i] {
        infos := Emit(infos, filtered, n.node, Range(start, i - 1));
        n := slots[i];
        start := i;
      }
    }
    PrintingDone(slots, infos, filtered, n, start);
    if n != Unassigned {
      infos := Emit(infos, filtered, n.node, Range(start, |slots| - 1));
    }
  }

  /** The shared pass prints for each node what a scan of its own bitmap would have. */
  method DescribeSlots(slots: seq<Owner>, nodes: map<NodeId, NodeInfo>, filtered: set<NodeId>, n: NodeId)
    returns (rs: seq<Range>)
    requires Consistent(slots, nodes) && n in nodes && n !in filtered
    ensures rs == Runs(nodes[n].bits)
  {
    var infos := GenNodesSlotsInfo(slots, filtered);
    ConsistentDetermines(slots, nodes, n);
    if n in infos {
      rs := infos[n];
    } else if nodes[n].numslots > 0 {
      rs := ScanBitmap(nodes[n].bits);
    } else {
      rs := [];
    }
  }

  // --------------------------------------------------------------------- Loading

  /** The table after the ranges of `n` are added to it: taken slots stay as they are. */
  function Loaded(slots: seq<Owner>, n: NodeId, rs: seq<Range>): seq<Owner> {
    seq(|slots|, j requires 0 <= j < |slots| =>
      if slots[j].Unassigned? && Covers(rs, j) then Owned(n) else slots[j])
  }

  function LoadedAll(slots: seq<Owner>, lines: seq<(NodeId, seq<Range>)>): seq<Owner>
    decreases |lines|
  {
    if lines == [] then slots else LoadedAll(Loaded(slots, lines[0].0, lines[0].1), lines[1..])
  }

  predicate InBounds(rs: seq<Range>, size: nat) {
    forall k | 0 <= k < |rs| :: rs[k].start < size && rs[k].stop < size
  }

  lemma LoadedOneMore(slots: seq<Owner>, n: NodeId, rs: seq<Range>, r: Range, j: nat)
    requires r.start <= j < |slots|
    ensures Loaded(slots, n, rs + (if j == r.start then [] else [Range(r.start, j - 1)]))[j].Unassigned? ==>
              slots[j].Unassigned?
    ensures Loaded(slots, n, rs + [Range(r.start, j)]) ==
            var before := Loaded(slots, n, rs + (if j == r.start then [] else [Range(r.start, j - 1)]));
            if before[j].Unassigned? then before[j := Owned(n)] else before
  {
    var open := if j == r.start then [] else [Range(r.start, j - 1)];
    forall i: nat ensures Covers(rs + [Range(r.start, j)], i) <==> Covers(rs + open, i) || i == j {
      CoversSplit(rs, [Range(r.start, j)], i);
      CoversSplit(rs, open, i);
      assert Covers([Range(r.start, j)], i) <==> r.start <= i <= j by {
        assert [Range(r.start, j)][0] == Range(r.start, j);
      }
      if j != r.start {
        assert Covers(open, i) <==> r.start <= i <= j - 1 by { assert open[0] == Range(r.start, j - 1); }
      }
    }
  }

  lemma CoversSplit(a: seq<Range>, b: seq<Range>, j: nat)
    ensures Covers(a + b, j) <==> Covers(a, j) || Covers(b, j)
  {
    if Covers(a, j) {
      var k :| 0 <= k < |a| && a[k].start <= j <= a[k].stop;
      assert (a + b)[k] == a[k];
    }
    if Covers(b, j) {
      var k :| 0 <= k < |b| && b[k].start <= j <= b[k].stop;
      assert (a + b)[|a| + k] == b[k];
    }
    if Covers(a + b, j) {
      var k :| 0 <= k < |a + b| && (a + b)[k].start <= j <= (a + b)[k].stop;
      assert if k < |a| then (a + b)[k] == a[k] else (a + b)[k] == b[k - |a|];
    }
  }

  /** One line of nodes.conf. */
  method LoadLine(table: SlotTable, n: NodeId, rs: seq<Range>)
    requires table.Valid() && n in table.nodes && InBounds(rs, CLUSTER_SLOTS)
    modifies table, table.slots
    ensures table.Valid() && table.Epochs() == old(table.Epochs())
    ensures table.slots[..] == Loaded(old(table.slots[..]), n, rs)
  {
    hide Consistent, Covers;
    ghost var start := table.slots[..];
    assert n in table.Epochs();
    LoadedNothing(start, n);
    for k := 0 to |rs|
      invariant table.Valid() && table.Epochs() == old(table.Epochs())
      invariant table.slots[..] == Loaded(start, n, rs[..k])
    {
      var j := rs[k].start;
      assert rs[..k] + [] == rs[..k];
      while j <= rs[k].stop
        invariant rs[k].start <= j <= CLUSTER_SLOTS
        invariant j <= rs[k].stop + 1 || j == rs[k].start
        invariant table.Valid() && table.Epochs() == old(table.Epochs())
        invariant table.slots[..] ==
                  Loaded(start, n, rs[..k] + (if j == rs[k].start then [] else [Range(rs[k].start, j - 1)]))
      {
        LoadedOneMore(start, n, rs[..k], rs[k], j);
        assert table.slots[j] == table.slots[..][j];
        assert n in table.Epochs();
        var _ := table.AddSlot(n, j);
        j := j + 1;
      }
      LoadedWholeRange(start, n, rs[..k], rs[k], j);
      assert rs[..k + 1] == rs[..k] + [rs[k]];
    }
    assert rs[..|rs|] == rs;
  }

  lemma LoadedNothing(slots: seq<Owner>, n: NodeId)
    ensures Loaded(slots, n, []) == slots
  {}

  /** An empty range, with its bounds the wrong way round, loads nothing. */
  lemma LoadedWholeRange(slots: seq<Owner>, n: NodeId, rs: seq<Range>, r: Range, j: nat)
    requires r.start <= j && (j == r.stop + 1 || (j == r.start && r.start > r.stop))
    ensures Loaded(slots, n, rs + (if j == r.start then [] else [Range(r.start, j - 1)])) ==
            Loaded(slots, n, rs + [r])
  {
    var open := if j == r.start then [] else [Range(r.start, j - 1)];
    forall i: nat ensures Covers(rs + open, i) <==> Covers(rs + [r], i) {
      CoversSplit(rs, open, i);
      CoversSplit(rs, [r], i);
      assert Covers([r], i) <==> r.start <= i <= r.stop by { assert [r][0] == r; }
      if j != r.start {
        assert Covers(open, i) <==> r.start <= i <= j - 1 by { assert open[0] == Range(r.start, j - 1); }
      }
    }
  }

  // ------------------------------------------------------------------ Round trip

  function Empty(size: nat): seq<Owner> { seq(size, _ => Unassigned) }

  /** The table with only the slots of `kept`. */
  function Restricted(slots: seq<Owner>, kept: set<NodeId>): seq<Owner> {
    seq(|slots|, j requires 0 <= j < |slots| =>
      if slots[j].Owned? && slots[j].node in kept then slots[j] else Unassigned)
  }

  /** Each node's line holds its maximal runs. */
  function Lines(slots: seq<Owner>, order: seq<NodeId>): seq<(NodeId, seq<Range>)> {
    seq(|order|, i requires 0 <= i < |order| => (order[i], Runs(BitsOf(slots, order[i]))))
  }

  lemma LoadedLine(slots: seq<Owner>, kept: set<NodeId>, n: NodeId)
    ensures Loaded(Restricted(slots, kept), n, Runs(BitsOf(slots, n))) == Restricted(slots, kept + {n})
  {
    hide Covers, Runs;
    RunsAreMaximal(BitsOf(slots, n));
  }

  lemma {:induction false} LoadedLines(slots: seq<Owner>, kept: set<NodeId>, order: seq<NodeId>)
    ensures LoadedAll(Restricted(slots, kept), Lines(slots, order)) == Restricted(slots, kept + set n | n in order)
    decreases |order|
  {
    if order == [] {
      assert kept + (set n | n in order) == kept;
    } else {
      LoadedLine(slots, kept, order[0]);
      assert Lines(slots, order)[1..] == Lines(slots, order[1..]);
      LoadedLines(slots, kept + {order[0]}, order[1..]);
      assert order == [order[0]] + order[1..];
      assert kept + {order[0]} + (set n | n in order[1..]) == kept + set n | n in order;
    }
  }

  /** Loading what was printed gives back the table, restricted to the nodes printed,
      whatever the order of the lines. */
  lemma PrintThenLoad(slots: seq<Owner>, order: seq<NodeId>)
    ensures LoadedAll(Empty(|slots|), Lines(slots, order)) == Restricted(slots, set n | n in order)
  {
    assert Restricted(slots, {}) == Empty(|slots|);
    LoadedLines(slots, {}, order);
    assert {} + (set n | n in order) == set n | n in order;
  }
}
