/**
 Hash slot ownership in Redis Cluster (cluster.c).

 One relation is stored three times: the slot table, a bitmap per node and the
 number of set bits per node.  `Consistent` says they agree; every operation keeps
 it, so the slot table alone determines the rest.
 */
module ClusterSlots {

  type NodeId = nat
  type Epoch = nat

  const CLUSTER_SLOTS: nat := 16384

  datatype Owner = Unassigned | Owned(node: NodeId)

  datatype NodeInfo = NodeInfo(configEpoch: Epoch, bits: seq<bool>, numslots: nat)

  /** Population count of a bitmap. */
  function Count(bits: seq<bool>): nat {
    if bits == [] then 0 else Count(bits[..|bits| - 1]) + (if bits[|bits| - 1] then 1 else 0)
  }

  lemma {:induction false} CountUpdate(bits: seq<bool>, j: nat, b: bool)
    requires j < |bits|
    ensures Count(bits[j := b]) == Count(bits) - (if bits[j] then 1 else 0) + (if b then 1 else 0)
    decreases |bits|
  {
    var n := |bits| - 1;
    if j == n {
      assert bits[j := b][..n] == bits[..n];
    } else {
      assert bits[j := b][..n] == bits[..n][j := b];
      CountUpdate(bits[..n], j, b);
    }
  }

  lemma {:induction false} CountPositive(bits: seq<bool>)
    ensures Count(bits) == 0 <==> forall j | 0 <= j < |bits| :: !bits[j]
    decreases |bits|
  {
    if bits != [] {
      CountPositive(bits[..|bits| - 1]);
      assert forall j | 0 <= j < |bits| - 1 :: bits[..|bits| - 1][j] == bits[j];
    }
  }

  // ---------------------------------------------------------------- Consistency

  predicate NodeConsistent(slots: seq<Owner>, n: NodeId, info: NodeInfo) {
    |info.bits| == |slots| && info.numslots == Count(info.bits) &&
    forall j | 0 <= j < |slots| :: info.bits[j] <==> slots[j] == Owned(n)
  }

  predicate Consistent(slots: seq<Owner>, nodes: map<NodeId, NodeInfo>) {
    (forall j | 0 <= j < |slots| :: slots[j].Owned? ==> slots[j].node in nodes) &&
    (forall n | n in nodes :: NodeConsistent(slots, n, nodes[n]))
  }

  /** The bitmap a consistent table holds for `n`. */
  function BitsOf(slots: seq<Owner>, n: NodeId): seq<bool> {
    seq(|slots|, j requires 0 <= j < |slots| => slots[j] == Owned(n))
  }

  /** The table determines every bitmap and every count. */
  lemma ConsistentDetermines(slots: seq<Owner>, nodes: map<NodeId, NodeInfo>, n: NodeId)
    requires Consistent(slots, nodes) && n in nodes
    ensures nodes[n].bits == BitsOf(slots, n) && nodes[n].numslots == Count(BitsOf(slots, n))
  {
  }

  // ------------------------------------------------------------ Slot rebinding

  /** What one node knows about the claims of others. */
  datatype Claim = Claim(sender: NodeId, epoch: Epoch, slots: seq<bool>)

  predicate OwnersKnown(slots: seq<Owner>, epochs: map<NodeId, Epoch>) {
    forall j | 0 <= j < |slots| :: slots[j].Owned? ==> slots[j].node in epochs
  }

  /** Slot `j` goes to the claimant: it is claimed, not being imported, and free or held under an older epoch. */
  predicate Taken(slots: seq<Owner>, epochs: map<NodeId, Epoch>, c: Claim, importing: seq<bool>, j: nat)
    requires j < |slots| == |c.slots| == |importing| && OwnersKnown(slots, epochs)
  {
    c.slots[j] && slots[j] != Owned(c.sender) && !importing[j] &&
    (slots[j].Unassigned? || epochs[slots[j].node] < c.epoch)
  }

  predicate Shaped(slots: seq<Owner>, epochs: map<NodeId, Epoch>, c: Claim, importing: seq<bool>) {
    |slots| == |c.slots| == |importing| && OwnersKnown(slots, epochs)
  }

  /** The slot table after the first `n` slots of a claim. */
  function Rebound(slots: seq<Owner>, epochs: map<NodeId, Epoch>, c: Claim, importing: seq<bool>, n: nat): seq<Owner>
    requires Shaped(slots, epochs, c, importing)
  {
    seq(|slots|, j requires 0 <= j < |slots| =>
      if j < n && Taken(slots, epochs, c, importing, j) then Owned(c.sender) else slots[j])
  }

  lemma ReboundNext(slots: seq<Owner>, epochs: map<NodeId, Epoch>, c: Claim, importing: seq<bool>, n: nat)
    requires Shaped(slots, epochs, c, importing) && n < |slots|
    ensures var r := Rebound(slots, epochs, c, importing, n);
            r[n] == slots[n] && |r| == |slots| &&
            Rebound(slots, epochs, c, importing, n + 1) ==
            if Taken(slots, epochs, c, importing, n) then r[n := Owned(c.sender)] else r
    ensures Rebound(slots, epochs, c, importing, 0) == slots
  {}

  /** After a claim a slot is the claimant's exactly if it was, or the claimant claims it, it is not being
      imported, and nobody had it or its owner's epoch is older; else it is whose it was. */
  lemma ReboundExactly(slots: seq<Owner>, epochs: map<NodeId, Epoch>, c: Claim, importing: seq<bool>, j: nat)
    requires Shaped(slots, epochs, c, importing) && j < |slots|
    ensures var r := Rebound(slots, epochs, c, importing, |slots|);
            |r| == |slots| && (r[j] == Owned(c.sender) || r[j] == slots[j]) &&
            (r[j] == Owned(c.sender) <==>
             slots[j] == Owned(c.sender) ||
             (c.slots[j] && !importing[j] && (slots[j].Owned? ==> epochs[slots[j].node] < c.epoch)))
  {
  }

  /** Which of the first `n` slots a claim takes away from `who`. */
  function LostBy(who: Owner, slots: seq<Owner>, epochs: map<NodeId, Epoch>, c: Claim, importing: seq<bool>, n: nat)
    : seq<bool>
    requires Shaped(slots, epochs, c, importing) && n <= |slots|
  {
    seq(n, j requires 0 <= j < n => slots[j] == who && Taken(slots, epochs, c, importing, j))
  }

  lemma LostNext(who: Owner, slots: seq<Owner>, epochs: map<NodeId, Epoch>, c: Claim, importing: seq<bool>, n: nat)
    requires Shaped(slots, epochs, c, importing) && n < |slots|
    ensures Count(LostBy(who, slots, epochs, c, importing, n + 1)) ==
            Count(LostBy(who, slots, epochs, c, importing, n)) +
            (if slots[n] == who && Taken(slots, epochs, c, importing, n) then 1 else 0)
  {
    var l := LostBy(who, slots, epochs, c, importing, n + 1);
    assert l[..n] == LostBy(who, slots, epochs, c, importing, n);
  }

  /** What else the receiver of a claim knows. */
  datatype Receiver = Receiver(
    myself: NodeId, curMaster: Owner,             // this node or the one it replicates, if it knows which
    importing: seq<bool>, hasKeys: seq<bool>,
    noRedirection: bool, allowMigration: bool
  )

  /** Crashes: a master that is not known has no number of slots to look at. */
  datatype Outcome = Stays(deleteKeysIn: seq<nat>) | BecomesReplica | Crashes

  /** This node's view of the cluster, updated in place. */
  class SlotTable {
    const slots: array<Owner>
    var nodes: map<NodeId, NodeInfo>

    ghost predicate Valid()
      reads this, slots
    {
      slots.Length == CLUSTER_SLOTS && Consistent(slots[..], nodes)
    }

    /** Config epochs of all nodes; slot operations leave them alone. */
    ghost function Epochs(): map<NodeId, Epoch>
      reads this
    {
      map n | n in nodes :: nodes[n].configEpoch
    }

    constructor (known: map<NodeId, Epoch>)
      ensures Valid() && fresh(slots)
      ensures forall j | 0 <= j < slots.Length :: slots[j] == Unassigned
      ensures Epochs() == known
    {
      slots := new Owner[CLUSTER_SLOTS](_ => Unassigned);
      nodes := map n | n in known :: NodeInfo(known[n], seq(CLUSTER_SLOTS, _ => false), 0);
      new;
      CountPositive(seq(CLUSTER_SLOTS, _ => false));
    }

    method NodeSetSlotBit(n: NodeId, slot: nat) returns (old_: bool)
      requires n in nodes && slot < |nodes[n].bits| && nodes[n].numslots == Count(nodes[n].bits)
      modifies this
      ensures old_ == old(nodes[n].bits[slot])
      ensures n in nodes && nodes == old(nodes)[n := nodes[n]] && nodes[n].configEpoch == old(nodes[n].configEpoch)
      ensures nodes[n].bits == old(nodes[n].bits)[slot := true] && nodes[n].numslots == Count(nodes[n].bits)
    {
      old_ := nodes[n].bits[slot];
      CountUpdate(nodes[n].bits, slot, true);
      nodes := nodes[n := nodes[n].(bits := nodes[n].bits[slot := true])];
      if !old_ {
        nodes := nodes[n := nodes[n].(numslots := nodes[n].numslots + 1)];
      }
    }

    method NodeClearSlotBit(n: NodeId, slot: nat) returns (old_: bool)
      requires n in nodes && slot < |nodes[n].bits| && nodes[n].numslots == Count(nodes[n].bits)
      modifies this
      ensures old_ == old(nodes[n].bits[slot])
      ensures n in nodes && nodes == old(nodes)[n := nodes[n]] && nodes[n].configEpoch == old(nodes[n].configEpoch)
      ensures nodes[n].bits == old(nodes[n].bits)[slot := false] && nodes[n].numslots == Count(nodes[n].bits)
    {
      old_ := nodes[n].bits[slot];
      CountUpdate(nodes[n].bits, slot, false);
      var count := nodes[n].numslots;
      if old_ { count := count - 1; }
      nodes := nodes[n := nodes[n].(bits := nodes[n].bits[slot := false], numslots := count)];
    }

    /** False, and nothing changed, if the slot already has an owner. */
    method AddSlot(n: NodeId, slot: nat) returns (ok: bool)
      requires Valid() && n in nodes && slot < CLUSTER_SLOTS
      modifies this, slots
      ensures Valid() && Epochs() == old(Epochs())
      ensures ok == old(slots[slot]).Unassigned?
      ensures slots[..] == if ok then old(slots[..])[slot := Owned(n)] else old(slots[..])
    {
      hide Consistent;
      if slots[slot].Owned? { return false; }
      ghost var was, before := slots[..], nodes;
      ConsistentNode(was, before, n);
      var _ := NodeSetSlotBit(n, slot);
      AddedConsistent(was, before, nodes, n, slot);
      slots[slot] := Owned(n);
      assert slots[..] == was[slot := Owned(n)];
      ok := true;
    }

    /** False, and nothing changed, if the slot has no owner. */
    method DelSlot(slot: nat) returns (ok: bool)
      requires Valid() && slot < CLUSTER_SLOTS
      modifies this, slots
      ensures Valid() && Epochs() == old(Epochs())
      ensures ok == old(slots[slot]).Owned?
      ensures slots[..] == old(slots[..])[slot := Unassigned]
    {
      hide Consistent;
      ghost var was, before := slots[..], nodes;
      if slots[slot].Unassigned? {
        assert slots[..] == was[slot := Unassigned];
        return false;
      }
      var n := slots[slot].node;
      ConsistentOwner(was, before, slot);
      var bit := NodeClearSlotBit(n, slot);
      assert bit;
      RemovedConsistent(was, before, nodes, n, slot);
      slots[slot] := Unassigned;
      assert slots[..] == was[slot := Unassigned];
      ok := true;
    }

    /** Takes every slot from `node`. */
    method DelNodeSlots(node: NodeId) returns (deleted: nat)
      requires Valid() && node in nodes
      modifies this, slots
      ensures Valid() && Epochs() == old(Epochs())
      ensures deleted == old(nodes[node].numslots)
      ensures slots[..] == Without(old(slots[..]), node, CLUSTER_SLOTS)
    {
      hide Consistent;
      deleted := 0;
      ghost var start, bits := slots[..], nodes[node].bits;
      ConsistentNode(start, nodes, node);
      for j := 0 to CLUSTER_SLOTS
        invariant Valid() && Epochs() == old(Epochs()) && node in Epochs()
        invariant slots[..] == Without(start, node, j)
        invariant deleted == Count(bits[..j])
      {
        ConsistentNode(slots[..], nodes, node);
        assert bits[..j + 1][..j] == bits[..j];
        assert slots[j] == slots[..][j] == start[j];
        WithoutNext(start, node, j);
        if nodes[node].bits[j] {
          var _ := DelSlot(j);
          deleted := deleted + 1;
        }
      }
      assert bits[..CLUSTER_SLOTS] == bits;
    }

    method Rebind(n: NodeId, slot: nat)
      requires Valid() && n in nodes && slot < CLUSTER_SLOTS
      modifies this, slots
      ensures Valid() && Epochs() == old(Epochs())
      ensures slots[..] == old(slots[..])[slot := Owned(n)]
    {
      hide Consistent;
      assert n in Epochs();
      var _ := DelSlot(slot);
      assert n in Epochs();
      assert slots[slot] == slots[..][slot];
      var _ := AddSlot(n, slot);
    }

    /** Slots claimed under a newer epoch move to the claimant; see `Taken`. */
    method UpdateSlotsConfigWith(c: Claim, me: Receiver) returns (outcome: Outcome)
      requires Valid() && c.sender in nodes && (me.curMaster.Owned? ==> me.curMaster.node in nodes)
      requires |c.slots| == |me.importing| == |me.hasKeys| == CLUSTER_SLOTS
      modifies this, slots
      ensures Valid() && Epochs() == old(Epochs())
      ensures Shaped(old(slots[..]), old(Epochs()), c, me.importing)
      ensures c.sender == me.myself ==> slots[..] == old(slots[..]) && outcome == Stays([])
      ensures c.sender != me.myself ==>
                slots[..] == Rebound(old(slots[..]), old(Epochs()), c, me.importing, CLUSTER_SLOTS)
      ensures c.sender != me.myself ==>
                var lost := Count(LostBy(me.curMaster, old(slots[..]), old(Epochs()), c, me.importing, CLUSTER_SLOTS));
                (outcome.Crashes? <==> !me.noRedirection && lost > 0 && me.curMaster.Unassigned?) &&
                (outcome.BecomesReplica? <==>
                 !me.noRedirection && lost > 0 && me.curMaster.Owned? && me.curMaster.node in nodes &&
                 nodes[me.curMaster.node].numslots == 0 && (me.allowMigration || Count(c.slots) == lost))
      ensures c.sender != me.myself && outcome.Stays? && !me.noRedirection ==>
                forall j :: j in outcome.deleteKeysIn <==>
                            0 <= j < CLUSTER_SLOTS && old(slots[..])[j] == Owned(me.myself) && me.hasKeys[j] &&
                            Taken(old(slots[..]), old(Epochs()), c, me.importing, j)
      ensures me.noRedirection ==> outcome == Stays([])
    {
      hide Consistent, Taken, Count;
      ghost var start, epochs := slots[..], Epochs();
      assert OwnersKnown(start, epochs) by { ConsistentOwners(start, nodes); }
      if c.sender == me.myself { return Stays([]); }
      var dirty: seq<nat> := [];
      var senderSlots, migrated := 0, 0;
      CountEmpty();
      assert LostBy(me.curMaster, start, epochs, c, me.importing, 0) == [];
      ReboundNext(start, epochs, c, me.importing, 0);
      for j := 0 to CLUSTER_SLOTS
        invariant Valid() && Epochs() == epochs
        invariant slots[..] == Rebound(start, epochs, c, me.importing, j)
        invariant senderSlots == Count(c.slots[..j])
        invariant migrated == Count(LostBy(me.curMaster, start, epochs, c, me.importing, j))
        invariant forall i :: i in dirty <==>
                    0 <= i < j && start[i] == Owned(me.myself) && me.hasKeys[i] &&
                    Taken(start, epochs, c, me.importing, i)
      {
        ReboundNext(start, epochs, c, me.importing, j);
        LostNext(me.curMaster, start, epochs, c, me.importing, j);
        CountNext(c.slots, j);
        assert slots[j] == slots[..][j] == start[j];
        assert epochs.Keys == nodes.Keys;
        TakenIs(start, epochs, c, me.importing, j);
        if c.slots[j] {
          senderSlots := senderSlots + 1;
          if slots[j] != Owned(c.sender) && !me.importing[j] &&
             (slots[j].Unassigned? || nodes[slots[j].node].configEpoch < c.epoch)
          {
            if slots[j] == Owned(me.myself) && me.hasKeys[j] { dirty := dirty + [j]; }
            if slots[j] == me.curMaster { migrated := migrated + 1; }
            Rebind(c.sender, j);
          }
        }
      }
      assert c.slots[..CLUSTER_SLOTS] == c.slots;
      assert epochs.Keys == nodes.Keys;
      if me.noRedirection { return Stays([]); }
      if migrated > 0 && me.curMaster.Unassigned? { return Crashes; }
      if migrated > 0 && nodes[me.curMaster.node].numslots == 0 && (me.allowMigration || senderSlots == migrated) {
        outcome := BecomesReplica;
      } else {
        outcome := Stays(dirty);
      }
    }
  }

  lemma ConsistentOwners(slots: seq<Owner>, nodes: map<NodeId, NodeInfo>)
    requires Consistent(slots, nodes)
    ensures forall j | 0 <= j < |slots| :: slots[j].Owned? ==> slots[j].node in nodes
  {}

  lemma CountEmpty()
    ensures Count([]) == 0
  {}

  lemma CountNext(bits: seq<bool>, j: nat)
    requires j < |bits|
    ensures Count(bits[..j + 1]) == Count(bits[..j]) + (if bits[j] then 1 else 0)
  {
    assert bits[..j + 1][..j] == bits[..j];
  }

  lemma TakenIs(slots: seq<Owner>, epochs: map<NodeId, Epoch>, c: Claim, importing: seq<bool>, j: nat)
    requires Shaped(slots, epochs, c, importing) && j < |slots|
    ensures Taken(slots, epochs, c, importing, j) <==>
            c.slots[j] && slots[j] != Owned(c.sender) && !importing[j] &&
            (slots[j].Unassigned? || epochs[slots[j].node] < c.epoch)
  {}

  /** The table with the first `j` slots taken from `node`. */
  function Without(slots: seq<Owner>, node: NodeId, j: nat): seq<Owner> {
    seq(|slots|, i requires 0 <= i < |slots| =>
      if i < j && slots[i] == Owned(node) then Unassigned else slots[i])
  }

  lemma WithoutNext(slots: seq<Owner>, node: NodeId, j: nat)
    requires j < |slots|
    ensures Without(slots, node, j + 1) ==
            if slots[j] == Owned(node) then Without(slots, node, j)[j := Unassigned] else Without(slots, node, j)
    ensures Without(slots, node, 0) == slots
  {}

  lemma ConsistentNode(slots: seq<Owner>, nodes: map<NodeId, NodeInfo>, n: NodeId)
    requires Consistent(slots, nodes) && n in nodes
    ensures NodeConsistent(slots, n, nodes[n])
  {}

  lemma ConsistentOwner(slots: seq<Owner>, nodes: map<NodeId, NodeInfo>, slot: nat)
    requires Consistent(slots, nodes) && slot < |slots| && slots[slot].Owned?
    ensures slots[slot].node in nodes && NodeConsistent(slots, slots[slot].node, nodes[slots[slot].node])
  {}

  lemma AddedConsistent(slots: seq<Owner>, nodes: map<NodeId, NodeInfo>, nodes': map<NodeId, NodeInfo>,
                        n: NodeId, slot: nat)
    requires Consistent(slots, nodes) && slot < |slots| && slots[slot].Unassigned? && n in nodes
    requires n in nodes' && nodes' == nodes[n := nodes'[n]] && nodes'[n].numslots == Count(nodes'[n].bits)
    requires nodes'[n].bits == nodes[n].bits[slot := true]
    ensures Consistent(slots[slot := Owned(n)], nodes')
  {
    forall k | k in nodes' ensures NodeConsistent(slots[slot := Owned(n)], k, nodes'[k]) {
      assert NodeConsistent(slots, k, nodes[k]);
    }
  }

  lemma RemovedConsistent(slots: seq<Owner>, nodes: map<NodeId, NodeInfo>, nodes': map<NodeId, NodeInfo>,
                          n: NodeId, slot: nat)
    requires Consistent(slots, nodes) && slot < |slots| && slots[slot] == Owned(n) && n in nodes
    requires n in nodes' && nodes' == nodes[n := nodes'[n]] && nodes'[n].numslots == Count(nodes'[n].bits)
    requires nodes'[n].bits == nodes[n].bits[slot := false]
    ensures Consistent(slots[slot := Unassigned], nodes')
  {
  }

  // ----------------------------------------------------------------- Confluence

  /** The slot table and the config epochs one node has gathered. */
  datatype View = View(slots: seq<Owner>, epochs: map<NodeId, Epoch>)

  /** Every master claims its slots under its own, distinct, config epoch. */
  predicate Claims(claims: map<NodeId, Claim>, size: nat) {
    (forall m | m in claims :: claims[m].sender == m && |claims[m].slots| == size) &&
    (forall m, k | m in claims && k in claims && claims[m].epoch == claims[k].epoch :: m == k)
  }

  function NotImporting(size: nat): seq<bool> { seq(size, _ => false) }

  /** This node starts from its own slots and knows the others only by name. */
  function StartView(claims: map<NodeId, Claim>, me: NodeId, size: nat): (v: View)
    requires Claims(claims, size) && me in claims
    ensures ViewOk(claims, size, v)
  {
    View(seq(size, j requires 0 <= j < size => if claims[me].slots[j] then Owned(me) else Unassigned),
         map m | m in claims :: if m == me then claims[m].epoch else 0)
  }

  predicate ViewOk(claims: map<NodeId, Claim>, size: nat, v: View) {
    |v.slots| == size && v.epochs.Keys == claims.Keys && OwnersKnown(v.slots, v.epochs)
  }

  /** A ping from master `m`: its epoch is recorded, and its slots are compared with the
      bitmap held for it before the table is touched. */
  function Deliver(claims: map<NodeId, Claim>, size: nat, v: View, m: NodeId): (v': View)
    requires Claims(claims, size) && ViewOk(claims, size, v) && m in claims
    ensures ViewOk(claims, size, v')
  {
    var epochs := if claims[m].epoch > v.epochs[m] then v.epochs[m := claims[m].epoch] else v.epochs;
    var dirty := BitsOf(v.slots, m) != claims[m].slots;
    View(if dirty then Rebound(v.slots, epochs, claims[m], NotImporting(size), size) else v.slots, epochs)
  }

  /** The deliveries come from the other masters, and each of them is heard at least once. */
  predicate Complete(claims: map<NodeId, Claim>, me: NodeId, ms: seq<NodeId>) {
    me in claims && me !in ms && FromMasters(claims, ms) && forall m | m in claims && m != me :: m in ms
  }

  predicate FromMasters(claims: map<NodeId, Claim>, ms: seq<NodeId>) {
    forall m | m in ms :: m in claims
  }

  function DeliverAll(claims: map<NodeId, Claim>, size: nat, v: View, ms: seq<NodeId>): (v': View)
    requires Claims(claims, size) && ViewOk(claims, size, v) && FromMasters(claims, ms)
    ensures ViewOk(claims, size, v')
    decreases |ms|
  {
    if ms == [] then v else DeliverAll(claims, size, Deliver(claims, size, v, ms[0]), ms[1..])
  }

  /** `n` claims slot `j`. */
  predicate ClaimsSlot(claims: map<NodeId, Claim>, n: NodeId, j: nat) {
    n in claims && j < |claims[n].slots| && claims[n].slots[j]
  }

  /** The owner of `j` is the highest-epoch claimant among `heard`. */
  predicate BoundToBest(claims: map<NodeId, Claim>, heard: set<NodeId>, owner: Owner, j: nat) {
    match owner
    case Unassigned => forall n | n in heard :: !ClaimsSlot(claims, n, j)
    case Owned(o) =>
      o in heard && ClaimsSlot(claims, o, j) &&
      forall n | n in heard && ClaimsSlot(claims, n, j) :: claims[n].epoch <= claims[o].epoch
  }

  predicate Settled(claims: map<NodeId, Claim>, size: nat, v: View, heard: set<NodeId>) {
    ViewOk(claims, size, v) && heard <= claims.Keys &&
    (forall n | n in heard :: v.epochs[n] == claims[n].epoch) &&
    (forall n | n in claims :: v.epochs[n] <= claims[n].epoch) &&
    (forall j | 0 <= j < size :: BoundToBest(claims, heard, v.slots[j], j))
  }

  lemma StartSettled(claims: map<NodeId, Claim>, size: nat, me: NodeId)
    requires Claims(claims, size) && me in claims
    ensures Settled(claims, size, StartView(claims, me, size), {me})
  {}

  /** The bitmap comparison never skips a claim that would have changed the table. */
  lemma CleanMeansNoChange(slots: seq<Owner>, epochs: map<NodeId, Epoch>, c: Claim)
    requires OwnersKnown(slots, epochs) && BitsOf(slots, c.sender) == c.slots
    ensures Rebound(slots, epochs, c, NotImporting(|slots|), |slots|) == slots
  {
  }

  lemma DeliverSettled(claims: map<NodeId, Claim>, size: nat, v: View, heard: set<NodeId>, m: NodeId)
    requires Claims(claims, size) && Settled(claims, size, v, heard) && m in claims
    ensures Settled(claims, size, Deliver(claims, size, v, m), heard + {m})
  {
    var v' := Deliver(claims, size, v, m);
    if BitsOf(v.slots, m) == claims[m].slots { CleanMeansNoChange(v.slots, v'.epochs, claims[m]); }
    assert v'.slots == Rebound(v.slots, v'.epochs, claims[m], NotImporting(size), size);
    forall j | 0 <= j < size ensures BoundToBest(claims, heard + {m}, v'.slots[j], j) {
      assert BoundToBest(claims, heard, v.slots[j], j);
      TakenIs(v.slots, v'.epochs, claims[m], NotImporting(size), j);
      hide Taken;
    }
  }

  lemma {:induction false} DeliverAllSettled(claims: map<NodeId, Claim>, size: nat, v: View, heard: set<NodeId>,
                                             ms: seq<NodeId>)
    requires Claims(claims, size) && Settled(claims, size, v, heard) && FromMasters(claims, ms)
    ensures Settled(claims, size, DeliverAll(claims, size, v, ms), heard + set m | m in ms)
    decreases |ms|
  {
    hide Claims, Deliver, BoundToBest;
    if ms == [] {
      assert heard + (set m | m in ms) == heard;
    } else {
      DeliverSettled(claims, size, v, heard, ms[0]);
      DeliverAllSettled(claims, size, Deliver(claims, size, v, ms[0]), heard + {ms[0]}, ms[1..]);
      assert ms == [ms[0]] + ms[1..];
      assert heard + {ms[0]} + (set m | m in ms[1..]) == heard + set m | m in ms;
    }
  }

  /** What node `me` believes after the deliveries `ms`. */
  function Believed(claims: map<NodeId, Claim>, size: nat, me: NodeId, ms: seq<NodeId>): (slots: seq<Owner>)
    requires Claims(claims, size) && Complete(claims, me, ms)
    ensures |slots| == size
  {
    DeliverAll(claims, size, StartView(claims, me, size), ms).slots
  }

  /** Whatever the order and however often, once every claim has arrived each slot
      belongs to its highest-epoch claimant. */
  lemma Confluence(claims: map<NodeId, Claim>, size: nat, me: NodeId, ms: seq<NodeId>, j: nat)
    requires Claims(claims, size) && Complete(claims, me, ms) && j < size
    ensures BoundToBest(claims, claims.Keys, Believed(claims, size, me, ms)[j], j)
  {
    StartSettled(claims, size, me);
    DeliverAllSettled(claims, size, StartView(claims, me, size), {me}, ms);
    assert {me} + (set m | m in ms) == claims.Keys;
  }

  /** Two nodes that heard all claims agree on the whole table. */
  lemma NodesAgree(claims: map<NodeId, Claim>, size: nat, a: NodeId, b: NodeId, as_: seq<NodeId>, bs: seq<NodeId>)
    requires Claims(claims, size) && Complete(claims, a, as_) && Complete(claims, b, bs)
    ensures Believed(claims, size, a, as_) == Believed(claims, size, b, bs)
  {
    forall j | 0 <= j < size ensures Believed(claims, size, a, as_)[j] == Believed(claims, size, b, bs)[j] {
      Confluence(claims, size, a, as_, j);
      Confluence(claims, size, b, bs, j);
    }
  }
}
