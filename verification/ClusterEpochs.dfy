/**
 Config epochs in Redis Cluster (cluster.c).

 Every node keeps a currentEpoch and, for each node it knows, the config epoch it has
 heard of.  Epochs travel in the header of every message and in UPDATE messages, names
 in the gossip of pings.  The invariant is that no config epoch ever runs ahead of the
 currentEpoch next to it, so that an epoch taken as currentEpoch + 1 is above everything
 the node knows.  It rests on a second one: an entry in handshake, whose messages do not
 raise currentEpoch, never bears the name of a node that sends.
 */
module ClusterEpochs {

  import opened Options

  type NodeId = nat     // node names in their lexicographic order
  type Epoch = nat

  datatype Role = NoRole | Master | Replica

  datatype Peer = Peer(configEpoch: Epoch, role: Role, handshake: bool, slaveOf: Option<NodeId>)

  type Table = map<NodeId, Peer>

  datatype Local = Local(me: NodeId, currentEpoch: Epoch, authEpoch: Epoch, peers: Table)

  datatype Header = Header(sender: NodeId, currentEpoch: Epoch, configEpoch: Epoch, role: Role,
                           slaveOf: Option<NodeId>)

  datatype Gossip = Gossip(name: NodeId, role: Role, handshake: bool)

  datatype Message =
    | Ping(hdr: Header, gossip: seq<Gossip>)
    | Update(hdr: Header, about: NodeId, reported: Epoch)

  /** What nodes.conf holds. */
  datatype File = File(currentEpoch: Epoch, peers: Table)

  // -------------------------------------------------------------------- Sending

  /** A replica announces its master's config epoch. */
  function BuildHeader(l: Local): Header
    requires l.me in l.peers
  {
    var self := l.peers[l.me];
    var master := if self.role.Replica? && self.slaveOf.Some? && self.slaveOf.value in l.peers
                  then self.slaveOf.value else l.me;
    Header(l.me, l.currentEpoch, l.peers[master].configEpoch, self.role, self.slaveOf)
  }

  /** Of the nodes picked, this node itself and those in handshake are left out. */
  function GossipOf(l: Local, picked: seq<NodeId>): seq<Gossip> {
    if picked == [] then []
    else
      var p := picked[0];
      (if p in l.peers && p != l.me && !l.peers[p].handshake
       then [Gossip(p, l.peers[p].role, l.peers[p].handshake)] else []) + GossipOf(l, picked[1..])
  }

  // ------------------------------------------------------------------- Receiving

  predicate Trusted(l: Local, n: NodeId) {
    n in l.peers && !l.peers[n].handshake
  }

  function OnHeader(l: Local, h: Header): Local {
    if !Trusted(l, h.sender) then l
    else
      var sender := l.peers[h.sender];
      l.(currentEpoch := if h.currentEpoch > l.currentEpoch then h.currentEpoch else l.currentEpoch,
         peers := if h.configEpoch > sender.configEpoch
                  then l.peers[h.sender := sender.(configEpoch := h.configEpoch)] else l.peers)
  }

  /** A sender without a master is a master; an unknown master leaves the old link. */
  function OnRole(l: Local, h: Header): Local {
    if h.sender !in l.peers then l
    else
      var sender := l.peers[h.sender];
      var role := if h.slaveOf.None? then Master else if sender.role.Master? then Replica else sender.role;
      var link := if h.slaveOf.None? || h.slaveOf.value in l.peers then h.slaveOf else sender.slaveOf;
      l.(peers := l.peers[h.sender := sender.(role := role, slaveOf := link)])
  }

  predicate Collides(l: Local, sender: NodeId) {
    l.me in l.peers && sender in l.peers &&
    l.peers[sender].configEpoch == l.peers[l.me].configEpoch &&
    l.peers[sender].role.Master? && l.peers[l.me].role.Master? && sender > l.me
  }

  function TakeNextEpoch(l: Local): Local
    requires l.me in l.peers
  {
    l.(currentEpoch := l.currentEpoch + 1,
       peers := l.peers[l.me := l.peers[l.me].(configEpoch := l.currentEpoch + 1)])
  }

  /** The node with the smaller name moves on. */
  function HandleCollision(l: Local, sender: NodeId): Local {
    if Collides(l, sender) then TakeNextEpoch(l) else l
  }

  function Relinked(p: Peer, from: NodeId, to: Option<NodeId>): Peer {
    if p.slaveOf == Some(from) then p.(slaveOf := to) else p
  }

  /** The table without a node: its replicas lose their master. */
  function Without(peers: Table, gone: NodeId): Table {
    map k | k in peers && k != gone :: Relinked(peers[k], gone, None)
  }

  /** The handshake is over: the entry gets the sender's name and role. */
  function Renamed(peers: Table, from: NodeId, h: Header): Table
    requires from in peers
  {
    var entry := peers[from].(handshake := false, role := if h.role.NoRole? then peers[from].role else h.role);
    map k | k in peers.Keys - {from} + {h.sender} ::
      Relinked(if k == h.sender then entry else peers[k], from, Some(h.sender))
  }

  /** Names not in the table and not refused are entered as the sender flags them. */
  function OnGossip(peers: Table, gossip: seq<Gossip>, refused: set<NodeId>): Table
    decreases |gossip|
  {
    if gossip == [] then peers
    else
      var g := gossip[0];
      OnGossip(if g.name in peers || g.name in refused then peers
               else peers[g.name := Peer(0, g.role, g.handshake, None)], gossip[1..], refused)
  }

  /** A known sender, and no handshake on the link: role, collision and gossip. */
  function OnKnown(l: Local, h: Header, announced: Epoch, gossip: seq<Gossip>, refused: set<NodeId>): Local
    requires l.me in l.peers
  {
    var l1 := OnRole(l, h);
    var l2 := if h.sender in l1.peers && l1.peers[l.me].role.Master? && l1.peers[h.sender].role.Master? &&
                 announced == l1.peers[l.me].configEpoch
              then HandleCollision(l1, h.sender) else l1;
    l2.(peers := OnGossip(l2.peers, gossip, refused))
  }

  /** PING, PONG and MEET.  A link this node has opened belongs to an entry of its table. */
  function OnPing(l: Local, link: Option<NodeId>, h: Header, gossip: seq<Gossip>, refused: set<NodeId>): Local
    requires l.me in l.peers
  {
    var l1 := OnHeader(l, h);
    if link.Some? && link.value in l.peers && l.peers[link.value].handshake then
      l1.(peers := if h.sender in l.peers then Without(l1.peers, link.value) else Renamed(l1.peers, link.value, h))
    else if link.Some? && link.value != h.sender then l1
    else if h.sender !in l.peers then l1
    else OnKnown(l1, h, if Trusted(l, h.sender) then h.configEpoch else 0, gossip, refused)
  }

  /** The report is new to this node. */
  predicate Applies(l: Local, h: Header, about: NodeId, reported: Epoch) {
    h.sender in l.peers && about in l.peers && l.peers[about].configEpoch < reported
  }

  function Reported(p: Peer, reported: Epoch): Peer {
    if p.role.Replica? then p.(configEpoch := reported, role := Master, slaveOf := None)
    else p.(configEpoch := reported)
  }

  function OnUpdate(l: Local, h: Header, about: NodeId, reported: Epoch): Local {
    var l1 := OnHeader(l, h);
    if Applies(l1, h, about, reported)
    then l1.(peers := l1.peers[about := Reported(l1.peers[about], reported)])
    else l1
  }

  /** An epoch at least every config epoch of the table and the current epoch, and one of them. */
  predicate IsMaxEpoch(l: Local, max: Epoch) {
    max >= l.currentEpoch && (forall n | n in l.peers :: l.peers[n].configEpoch <= max) &&
    (max == l.currentEpoch || exists n :: n in l.peers && l.peers[n].configEpoch == max)
  }

  predicate Bumps(l: Local, max: Epoch) {
    l.me in l.peers && (l.peers[l.me].configEpoch == 0 || l.peers[l.me].configEpoch != max)
  }

  // ------------------------------------------------------------------ nodes.conf

  /** Entries in handshake are not written. */
  function Saved(l: Local): File {
    File(l.currentEpoch, map n | n in l.peers && !l.peers[n].handshake :: l.peers[n])
  }

  /** A master that is named in the file and has no line gets an entry of its own. */
  function LoadedTable(peers: Table): Table {
    var masters := set n | n in peers && peers[n].slaveOf.Some? :: peers[n].slaveOf.value;
    map n | n in peers.Keys + masters :: if n in peers then peers[n] else Peer(0, NoRole, false, None)
  }

  function Loaded(me: NodeId, f: File): Local {
    Local(me, f.currentEpoch, 0, LoadedTable(f.peers))
  }

  /** The same state updated in place. */
  class EpochState {
    const me: NodeId
    var currentEpoch: Epoch
    var authEpoch: Epoch
    var peers: Table

    function Value(): Local
      reads this
    {
      Local(me, currentEpoch, authEpoch, peers)
    }

    constructor (l: Local)
      ensures Value() == l
    {
      me, currentEpoch, authEpoch, peers := l.me, l.currentEpoch, l.authEpoch, l.peers;
    }

    method ReceiveHeader(h: Header)
      modifies this
      ensures Value() == OnHeader(old(Value()), h)
    {
      if h.sender in peers && !peers[h.sender].handshake {
        if h.currentEpoch > currentEpoch { currentEpoch := h.currentEpoch; }
        if h.configEpoch > peers[h.sender].configEpoch {
          peers := peers[h.sender := peers[h.sender].(configEpoch := h.configEpoch)];
        }
      }
    }

    method GetMaxEpoch() returns (max: Epoch)
      ensures IsMaxEpoch(Value(), max)
    {
      max := 0;
      var todo := peers.Keys;
      while todo != {}
        invariant todo <= peers.Keys
        invariant forall n | n in peers && n !in todo :: peers[n].configEpoch <= max
        invariant max == 0 || exists n :: n in peers && peers[n].configEpoch == max
        decreases |todo|
      {
        var n :| n in todo;
        todo := todo - {n};
        if peers[n].configEpoch > max { max := peers[n].configEpoch; }
      }
      if max < currentEpoch { max := currentEpoch; }
    }

    method BumpConfigEpochWithoutConsensus() returns (ok: bool)
      requires me in peers
      modifies this
      ensures exists max :: IsMaxEpoch(old(Value()), max) && ok == Bumps(old(Value()), max)
      ensures Value() == if ok then TakeNextEpoch(old(Value())) else old(Value())
    {
      var maxEpoch := GetMaxEpoch();
      if peers[me].configEpoch == 0 || peers[me].configEpoch != maxEpoch {
        currentEpoch := currentEpoch + 1;
        peers := peers[me := peers[me].(configEpoch := currentEpoch)];
        return true;
      }
      ok := false;
    }

    method HandleConfigEpochCollision(sender: NodeId)
      requires me in peers && sender in peers
      modifies this
      ensures Value() == HandleCollision(old(Value()), sender)
    {
      if peers[sender].configEpoch != peers[me].configEpoch || !peers[sender].role.Master? ||
         !peers[me].role.Master? {
        return;
      }
      if sender <= me { return; }
      currentEpoch := currentEpoch + 1;
      peers := peers[me := peers[me].(configEpoch := currentEpoch)];
    }

    method ProcessGossipSection(gossip: seq<Gossip>, refused: set<NodeId>)
      modifies this`peers
      ensures peers == OnGossip(old(peers), gossip, refused)
    {
      var i := 0;
      while i < |gossip|
        invariant i <= |gossip|
        invariant OnGossip(peers, gossip[i..], refused) == OnGossip(old(peers), gossip, refused)
      {
        var g := gossip[i];
        assert gossip[i..][1..] == gossip[i + 1..];
        if g.name !in peers && g.name !in refused {
          peers := peers[g.name := Peer(0, g.role, g.handshake, None)];
        }
        i := i + 1;
      }
    }

    method UpdateRole(h: Header)
      requires h.sender in peers
      modifies this`peers
      ensures Value() == OnRole(old(Value()), h)
    {
      var sender := peers[h.sender];
      if h.slaveOf.None? {
        sender := sender.(role := Master, slaveOf := None);
      } else {
        if sender.role.Master? { sender := sender.(role := Replica); }
        if h.slaveOf.value in peers { sender := sender.(slaveOf := h.slaveOf); }
      }
      peers := peers[h.sender := sender];
    }

    method ReceivePing(link: Option<NodeId>, h: Header, gossip: seq<Gossip>, refused: set<NodeId>)
      requires me in peers && (link.Some? ==> link.value in peers)
      modifies this
      ensures Value() == OnPing(old(Value()), link, h, gossip, refused)
    {
      var known := h.sender in peers;
      var announced := if known && !peers[h.sender].handshake then h.configEpoch else 0;
      var inHandshake := link.Some? && peers[link.value].handshake;
      ReceiveHeader(h);
      if inHandshake {
        peers := if known then Without(peers, link.value) else Renamed(peers, link.value, h);
        return;
      }
      if link.Some? && link.value != h.sender { return; }
      if !known { return; }
      UpdateRole(h);
      if peers[me].role.Master? && peers[h.sender].role.Master? && announced == peers[me].configEpoch {
        HandleConfigEpochCollision(h.sender);
      }
      ProcessGossipSection(gossip, refused);
    }

    method ReceiveUpdate(h: Header, about: NodeId, reported: Epoch)
      modifies this
      ensures Value() == OnUpdate(old(Value()), h, about, reported)
    {
      ReceiveHeader(h);
      if h.sender !in peers { return; }
      if about !in peers { return; }
      if peers[about].configEpoch >= reported { return; }
      if peers[about].role.Replica? {
        peers := peers[about := peers[about].(role := Master, slaveOf := None)];
      }
      peers := peers[about := peers[about].(configEpoch := reported)];
    }
  }

  // ------------------------------------------------------------- Local invariant

  predicate EpochsOk(l: Local) {
    l.me in l.peers && l.authEpoch <= l.currentEpoch &&
    forall n | n in l.peers :: l.peers[n].configEpoch <= l.currentEpoch
  }

  /** An entry in handshake bears no sender's name. */
  predicate NamesOk(peers: Table, senders: set<NodeId>) {
    forall n | n in peers && peers[n].handshake :: n !in senders
  }

  predicate HeaderOk(h: Header, senders: set<NodeId>) {
    h.configEpoch <= h.currentEpoch && h.sender in senders
  }

  predicate GossipOk(gossip: seq<Gossip>) {
    forall g | g in gossip :: !g.handshake
  }

  predicate MessageOk(m: Message, senders: set<NodeId>) {
    HeaderOk(m.hdr, senders) && (m.Update? ==> m.reported <= m.hdr.currentEpoch) &&
    (m.Ping? ==> GossipOk(m.gossip))
  }

  predicate LocalOk(l: Local, senders: set<NodeId>) {
    EpochsOk(l) && NamesOk(l.peers, senders) && l.me in senders
  }

  /** With the invariant, currentEpoch is the greatest epoch a node knows. */
  lemma MaxIsCurrent(l: Local, max: Epoch)
    requires EpochsOk(l) && IsMaxEpoch(l, max)
    ensures max == l.currentEpoch
  {}

  /** A unilateral bump or a collision moves this node above every epoch it knows. */
  lemma NextEpochIsAbove(l: Local)
    requires EpochsOk(l)
    ensures var l' := TakeNextEpoch(l);
            EpochsOk(l') && l'.peers[l.me].configEpoch == l'.currentEpoch &&
            forall n | n in l'.peers && n != l.me :: l'.peers[n].configEpoch < l'.peers[l.me].configEpoch
  {}

  /** A refused bump means this node already holds the greatest epoch. */
  lemma RefusedBumpIsGreatest(l: Local, max: Epoch)
    requires EpochsOk(l) && IsMaxEpoch(l, max) && !Bumps(l, max)
    ensures l.peers[l.me].configEpoch == l.currentEpoch > 0
  {
    MaxIsCurrent(l, max);
  }

  /** Of two masters with one epoch, the one with the smaller name moves above, the other stays. */
  lemma CollisionSeparates(a: Local, b: Local)
    requires EpochsOk(a) && EpochsOk(b) && a.me < b.me && b.me in a.peers && a.me in b.peers
    requires a.peers[a.me].role.Master? && a.peers[b.me].role.Master?
    requires b.peers[b.me].role.Master? && b.peers[a.me].role.Master?
    requires a.peers[a.me].configEpoch == a.peers[b.me].configEpoch
    ensures HandleCollision(a, b.me).peers[a.me].configEpoch > a.peers[b.me].configEpoch
    ensures HandleCollision(b, a.me) == b
  {
    NextEpochIsAbove(a);
  }

  /** The greatest epoch found in a file, whatever it holds, becomes the current one. */
  lemma LoadRepairs(me: NodeId, f: File, max: Epoch)
    requires me in f.peers && IsMaxEpoch(Loaded(me, f), max)
    ensures EpochsOk(Loaded(me, f).(currentEpoch := max))
  {}

  // ---------------------------------------------------------- What a node learns

  function Max(a: Epoch, b: Epoch): Epoch { if a < b then b else a }

  /** A trusted sender's header raises the current epoch and its own entry to what it announces,
      if they were below; every other entry stays.  Any other header changes nothing. */
  lemma HeaderTeaches(l: Local, h: Header)
    ensures var r := OnHeader(l, h);
            if Trusted(l, h.sender) then
              r.currentEpoch == Max(l.currentEpoch, h.currentEpoch) && r.authEpoch == l.authEpoch && r.me == l.me &&
              r.peers == l.peers[h.sender := l.peers[h.sender].(
                configEpoch := Max(l.peers[h.sender].configEpoch, h.configEpoch))]
            else r == l
  {
    if Trusted(l, h.sender) {
      assert l.peers[h.sender := l.peers[h.sender]] == l.peers;
    }
  }

  /** A node that announces no master is one, one that announces a master is not, and the link is
      the one announced if that master is known, else the old one. */
  lemma RoleTeaches(l: Local, h: Header)
    requires h.sender in l.peers && !l.peers[h.sender].role.NoRole?
    ensures var r := OnRole(l, h);
            r.peers.Keys == l.peers.Keys && (r.peers[h.sender].role.Master? <==> h.slaveOf.None?) &&
            (h.slaveOf.None? ==> r.peers[h.sender].slaveOf.None?) &&
            (h.slaveOf.Some? ==> r.peers[h.sender].slaveOf == if h.slaveOf.value in l.peers then h.slaveOf
                                                              else l.peers[h.sender].slaveOf) &&
            r.peers[h.sender].configEpoch == l.peers[h.sender].configEpoch &&
            forall k | k in l.peers && k != h.sender :: r.peers[k] == l.peers[k]
  {}

  predicate Mentions(gossip: seq<Gossip>, name: NodeId) { exists g :: g in gossip && g.name == name }

  /** Gossip enters exactly the names that are new and not refused, flagged as some sender's
      entry says and without an epoch, and leaves the others alone. */
  lemma {:induction false} GossipExactly(peers: Table, gossip: seq<Gossip>, refused: set<NodeId>)
    ensures var r := OnGossip(peers, gossip, refused);
            (forall n :: n in r <==> n in peers || (Mentions(gossip, n) && n !in refused)) &&
            (forall n | n in peers :: r[n] == peers[n]) &&
            forall n | n in r && n !in peers ::
              exists g :: g in gossip && g.name == n && r[n] == Peer(0, g.role, g.handshake, None)
    decreases |gossip|
  {
    if gossip != [] {
      var g, rest := gossip[0], gossip[1..];
      var next := if g.name in peers || g.name in refused then peers
                  else peers[g.name := Peer(0, g.role, g.handshake, None)];
      GossipExactly(next, rest, refused);
      assert forall x :: x in gossip <==> x == g || x in rest;
      forall n ensures Mentions(gossip, n) <==> n == g.name || Mentions(rest, n) {
        if n == g.name { assert g in gossip; }
      }
      hide Mentions;
    }
  }

  /** What is sent is about exactly the picked nodes that are known, not this one and not in
      handshake. */
  lemma {:induction false} GossipOfExactly(l: Local, picked: seq<NodeId>, n: NodeId)
    ensures Mentions(GossipOf(l, picked), n) <==> n in picked && n in l.peers && n != l.me && !l.peers[n].handshake
    ensures forall g | g in GossipOf(l, picked) :: g.name in l.peers && g.role == l.peers[g.name].role
    decreases |picked|
  {
    if picked != [] {
      var p, rest := picked[0], picked[1..];
      GossipOfExactly(l, rest, n);
      assert n in picked <==> n == p || n in rest;
      if p in l.peers && p != l.me && !l.peers[p].handshake {
        var g := Gossip(p, l.peers[p].role, l.peers[p].handshake);
        assert GossipOf(l, picked) == [g] + GossipOf(l, rest);
        assert forall x :: x in GossipOf(l, picked) <==> x == g || x in GossipOf(l, rest);
        if n == p { assert g in GossipOf(l, picked); }
      } else {
        assert GossipOf(l, picked) == [] + GossipOf(l, rest) == GossipOf(l, rest);
      }
    }
  }

  /** A dropped entry is gone and its replicas have lost their master; a renamed one stands under
      the sender's name, out of handshake, with the role announced.  The others stay. */
  lemma HandshakeEnds(peers: Table, from: NodeId, h: Header)
    requires from in peers && peers[from].handshake
    ensures var r := Without(peers, from);
            r.Keys == peers.Keys - {from} &&
            forall k | k in r :: r[k] == peers[k].(slaveOf := if peers[k].slaveOf == Some(from) then None
                                                             else peers[k].slaveOf)
    ensures h.sender !in peers ==>
              var r := Renamed(peers, from, h);
              r.Keys == peers.Keys - {from} + {h.sender} && !r[h.sender].handshake &&
              r[h.sender].configEpoch == peers[from].configEpoch &&
              (!h.role.NoRole? ==> r[h.sender].role == h.role) &&
              forall k | k in peers && k != from ::
                r[k] == peers[k].(slaveOf := if peers[k].slaveOf == Some(from) then Some(h.sender)
                                             else peers[k].slaveOf)
  {
    if h.sender !in peers { assert Renamed(peers, from, h).Keys == peers.Keys - {from} + {h.sender}; }
  }

  /** Two masters with one epoch that hear of each other: the one with the smaller name takes a new
      epoch above all it knows, the other keeps its own. */
  lemma PingSeparates(l: Local, link: Option<NodeId>, h: Header, gossip: seq<Gossip>, refused: set<NodeId>)
    requires EpochsOk(l) && Trusted(l, h.sender) && h.sender != l.me && h.configEpoch <= h.currentEpoch
    requires link == None || link == Some(h.sender)
    requires l.peers[l.me].role.Master? && h.slaveOf.None?
    requires h.configEpoch == l.peers[l.me].configEpoch && l.peers[h.sender].configEpoch <= h.configEpoch
    ensures var r := OnPing(l, link, h, gossip, refused);
            l.me in r.peers && h.sender in r.peers && r.peers[h.sender].configEpoch == h.configEpoch &&
            if l.me < h.sender
            then r.peers[l.me].configEpoch == r.currentEpoch > h.configEpoch && r.currentEpoch > l.currentEpoch
            else r.peers[l.me] == l.peers[l.me] && r.currentEpoch == Max(l.currentEpoch, h.currentEpoch)
  {
    HeaderTeaches(l, h);
    var l1 := OnRole(OnHeader(l, h), h);
    var l2 := HandleCollision(l1, h.sender);
    GossipExactly(l2.peers, gossip, refused);
    hide OnGossip, OnHeader;
  }

  lemma KnownLearns(l: Local, h: Header, announced: Epoch, gossip: seq<Gossip>, refused: set<NodeId>, k: NodeId)
    requires EpochsOk(l) && k in l.peers
    ensures var r := OnKnown(l, h, announced, gossip, refused);
            k in r.peers && l.peers[k].configEpoch <= r.peers[k].configEpoch &&
            (k != l.me ==> r.peers[k].configEpoch == l.peers[k].configEpoch)
  {
    var l1 := OnRole(l, h);
    assert l1.peers.Keys == l.peers.Keys;
    assert forall n | n in l.peers :: l1.peers[n].configEpoch == l.peers[n].configEpoch;
    GossipExactly(l1.peers, gossip, refused);
    GossipExactly(TakeNextEpoch(l1).peers, gossip, refused);
    hide OnGossip, OnRole;
  }

  /** No ping lowers an epoch of a node out of handshake. */
  lemma PingGrows(l: Local, link: Option<NodeId>, h: Header, gossip: seq<Gossip>, refused: set<NodeId>, k: NodeId)
    requires EpochsOk(l) && h.configEpoch <= h.currentEpoch && Trusted(l, k)
    ensures var r := OnPing(l, link, h, gossip, refused);
            k in r.peers && l.peers[k].configEpoch <= r.peers[k].configEpoch
  {
    HeaderTeaches(l, h);
    var l1 := OnHeader(l, h);
    assert EpochsOk(l1);
    KnownLearns(l1, h, if Trusted(l, h.sender) then h.configEpoch else 0, gossip, refused, k);
    if link.Some? && link.value in l1.peers && l1.peers[link.value].handshake {
      HandshakeEnds(l1.peers, link.value, h);
    }
    hide OnHeader, OnKnown, Without, Renamed;
  }

  /** Of two masters that announce the same config epoch, and no others, the one with the smaller name
      takes the next epoch; in every other case a known sender moves neither of this node's epochs. */
  lemma MovesExactly(l: Local, h: Header, announced: Epoch, gossip: seq<Gossip>, refused: set<NodeId>)
    requires l.me in l.peers && h.sender in l.peers && h.sender != l.me
    ensures var r := OnKnown(l, h, announced, gossip, refused);
            var moves := l.me < h.sender && announced == l.peers[l.me].configEpoch == l.peers[h.sender].configEpoch &&
                         l.peers[l.me].role.Master? && OnRole(l, h).peers[h.sender].role.Master?;
            l.me in r.peers && r.currentEpoch == l.currentEpoch + (if moves then 1 else 0) &&
            r.peers[l.me].configEpoch == if moves then r.currentEpoch else l.peers[l.me].configEpoch
  {
    var l1 := OnRole(l, h);
    var l2 := if announced == l1.peers[l.me].configEpoch then HandleCollision(l1, h.sender) else l1;
    GossipExactly(l2.peers, gossip, refused);
    GossipExactly(l1.peers, gossip, refused);
    hide OnGossip;
  }

  /** A ping from another node than the one the link leads to teaches its header and nothing else. */
  lemma MismatchIsIgnored(l: Local, link: NodeId, h: Header, gossip: seq<Gossip>, refused: set<NodeId>)
    requires l.me in l.peers && link != h.sender && (link in l.peers ==> !l.peers[link].handshake)
    ensures OnPing(l, Some(link), h, gossip, refused) == OnHeader(l, h)
  {
    hide OnHeader, OnKnown, Without, Renamed;
  }

  /** Whatever else a ping does, the sender's entry is at least at the epoch it announced. */
  lemma PingTeaches(l: Local, link: Option<NodeId>, h: Header, gossip: seq<Gossip>, refused: set<NodeId>)
    requires EpochsOk(l) && h.configEpoch <= h.currentEpoch && Trusted(l, h.sender)
    ensures var r := OnPing(l, link, h, gossip, refused);
            h.sender in r.peers && h.configEpoch <= r.peers[h.sender].configEpoch && h.currentEpoch <= r.currentEpoch
  {
    HeaderTeaches(l, h);
    var l1 := OnHeader(l, h);
    assert EpochsOk(l1);
    KnownLearns(l1, h, h.configEpoch, gossip, refused, h.sender);
    if link.Some? && link.value in l1.peers && l1.peers[link.value].handshake {
      HandshakeEnds(l1.peers, link.value, h);
    }
    KnownEpoch(l1, h, h.configEpoch, gossip, refused);
    hide OnHeader, OnKnown, Without, Renamed;
  }

  lemma KnownEpoch(l: Local, h: Header, announced: Epoch, gossip: seq<Gossip>, refused: set<NodeId>)
    requires l.me in l.peers
    ensures l.currentEpoch <= OnKnown(l, h, announced, gossip, refused).currentEpoch
  {
    hide OnGossip;
  }

  /** An UPDATE of a trusted sender raises the entry of the node it is about to the epoch reported,
      if it was below, and then that node is no replica; of the others only the sender's may rise,
      by the header.  An UPDATE of an unknown sender changes nothing. */
  lemma UpdateTeaches(l: Local, h: Header, about: NodeId, reported: Epoch)
    ensures var l1, r := OnHeader(l, h), OnUpdate(l, h, about, reported);
            (h.sender !in l.peers ==> r == l) && (about !in l.peers ==> r == l1) &&
            (h.sender in l.peers && about in l.peers ==>
               r.peers.Keys == l.peers.Keys && r.currentEpoch == l1.currentEpoch &&
               r.peers[about].configEpoch == Max(l1.peers[about].configEpoch, reported) &&
               (l1.peers[about].configEpoch < reported ==> !r.peers[about].role.Replica?) &&
               forall k | k in l.peers && k != about :: r.peers[k] == l1.peers[k])
  {
    HeaderTeaches(l, h);
    hide OnHeader;
  }

  lemma HeaderKeeps(l: Local, h: Header, senders: set<NodeId>)
    requires LocalOk(l, senders) && h.configEpoch <= h.currentEpoch
    ensures LocalOk(OnHeader(l, h), senders)
    ensures Trusted(l, h.sender) ==> h.currentEpoch <= OnHeader(l, h).currentEpoch
  {}

  lemma {:induction false} GossipKeeps(l: Local, gossip: seq<Gossip>, refused: set<NodeId>, senders: set<NodeId>)
    requires LocalOk(l, senders) && GossipOk(gossip)
    ensures LocalOk(l.(peers := OnGossip(l.peers, gossip, refused)), senders)
    decreases |gossip|
  {
    if gossip != [] {
      var g := gossip[0];
      assert g in gossip;
      if g.name !in l.peers && g.name !in refused {
        GossipKeeps(l.(peers := l.peers[g.name := Peer(0, g.role, g.handshake, None)]), gossip[1..], refused, senders);
      } else {
        GossipKeeps(l, gossip[1..], refused, senders);
      }
    }
  }

  lemma KnownKeeps(l: Local, h: Header, announced: Epoch, gossip: seq<Gossip>, refused: set<NodeId>,
                   senders: set<NodeId>)
    requires LocalOk(l, senders) && HeaderOk(h, senders) && GossipOk(gossip)
    ensures LocalOk(OnKnown(l, h, announced, gossip, refused), senders)
    ensures var l' := OnKnown(l, h, announced, gossip, refused); l'.me == l.me && l.currentEpoch <= l'.currentEpoch
  {
    hide OnGossip;
    var l1 := OnRole(l, h);
    assert LocalOk(l1, senders);
    NextEpochIsAbove(l1);
    GossipKeeps(l1, gossip, refused, senders);
    GossipKeeps(TakeNextEpoch(l1), gossip, refused, senders);
  }

  /** The link's entry gives way, or takes the sender's name and leaves the handshake. */
  lemma HandshakeKeeps(l: Local, from: NodeId, h: Header, senders: set<NodeId>)
    requires LocalOk(l, senders) && from in l.peers && l.peers[from].handshake
    ensures LocalOk(l.(peers := Without(l.peers, from)), senders)
    ensures h.sender !in l.peers ==> LocalOk(l.(peers := Renamed(l.peers, from, h)), senders)
  {}

  lemma PingKeeps(l: Local, link: Option<NodeId>, h: Header, gossip: seq<Gossip>, refused: set<NodeId>,
                  senders: set<NodeId>)
    requires LocalOk(l, senders) && HeaderOk(h, senders) && GossipOk(gossip)
    ensures LocalOk(OnPing(l, link, h, gossip, refused), senders)
    ensures var l' := OnPing(l, link, h, gossip, refused); l'.me == l.me && l.currentEpoch <= l'.currentEpoch
  {
    hide OnKnown, Without, Renamed;
    HeaderKeeps(l, h, senders);
    var l1 := OnHeader(l, h);
    if link.Some? && link.value in l.peers && l.peers[link.value].handshake {
      HandshakeKeeps(l1, link.value, h, senders);
    } else {
      KnownKeeps(l1, h, if Trusted(l, h.sender) then h.configEpoch else 0, gossip, refused, senders);
    }
  }

  /** Of the handler alone: only a report from a sender in handshake, whose header is not
      taken into account, puts a config epoch ahead of currentEpoch. */
  lemma UpdateKeepsExactly(l: Local, h: Header, about: NodeId, reported: Epoch)
    requires EpochsOk(l) && h.configEpoch <= h.currentEpoch && reported <= h.currentEpoch
    ensures EpochsOk(OnUpdate(l, h, about, reported)) <==>
            !(Applies(l, h, about, reported) && l.peers[h.sender].handshake && reported > l.currentEpoch)
  {
    if h.sender in l.peers && l.peers[h.sender].handshake && about in l.peers && reported > l.currentEpoch {
      assert OnUpdate(l, h, about, reported).peers[about].configEpoch == reported;
    }
  }

  /** No sender's name is in handshake, so an UPDATE keeps the invariant. */
  lemma UpdateKeeps(l: Local, h: Header, about: NodeId, reported: Epoch, senders: set<NodeId>)
    requires LocalOk(l, senders) && HeaderOk(h, senders) && reported <= h.currentEpoch
    ensures LocalOk(OnUpdate(l, h, about, reported), senders)
    ensures OnUpdate(l, h, about, reported).me == l.me && l.currentEpoch <= OnUpdate(l, h, about, reported).currentEpoch
  {
    UpdateKeepsExactly(l, h, about, reported);
    HeaderKeeps(l, h, senders);
  }

  lemma HeaderIsOk(l: Local, senders: set<NodeId>)
    requires LocalOk(l, senders)
    ensures HeaderOk(BuildHeader(l), senders) && BuildHeader(l).currentEpoch == l.currentEpoch
  {}

  lemma {:induction false} GossipIsOk(l: Local, picked: seq<NodeId>)
    ensures GossipOk(GossipOf(l, picked))
  {
    if picked != [] {
      GossipIsOk(l, picked[1..]);
    }
  }

  // ------------------------------------------------------------ Global invariant

  /** All nodes, their files, and every message ever sent: delivery may repeat, reorder and lose. */
  datatype System = System(nodes: map<NodeId, Local>, files: map<NodeId, File>, sent: set<Message>)

  datatype Event =
    | SendPing(node: NodeId, picked: seq<NodeId>)
    | SendUpdate(node: NodeId, about: NodeId)
    | DeliverPing(node: NodeId, msg: Message, link: Option<NodeId>, refused: set<NodeId>)
    | DeliverUpdate(node: NodeId, msg: Message)
    | Bump(node: NodeId, max: Epoch)
    | StartElection(node: NodeId)
    | WinElection(node: NodeId)
    | SetMaster(node: NodeId, master: NodeId)
    | Meet(node: NodeId, name: NodeId)
    | Forget(node: NodeId, peer: NodeId)
    | SetConfigEpoch(node: NodeId, epoch: Epoch)
    | Reset(node: NodeId)
    | Save(node: NodeId)
    | Restart(node: NodeId, max: Epoch)

  /** Meet stands for CLUSTER MEET and for a MEET received: the entry gets a random name,
      that is one no node bears and the table does not hold.  Forget stands for CLUSTER
      FORGET and for the end of a handshake that took too long.  Reset is CLUSTER RESET SOFT. */
  predicate Enabled(sys: System, e: Event) {
    e.node in sys.nodes &&
    var l := sys.nodes[e.node];
    match e
    case SendPing(_, _) => true
    case SendUpdate(_, about) => about in l.peers
    case DeliverPing(_, m, link, _) => m in sys.sent && m.Ping? && (link.Some? ==> link.value in l.peers)
    case DeliverUpdate(_, m) => m in sys.sent && m.Update?
    case Bump(_, max) => IsMaxEpoch(l, max)
    case StartElection(_) => true
    case WinElection(_) => true
    case SetMaster(_, master) => master in l.peers && master != e.node
    case Meet(_, name) => name !in l.peers && name !in sys.nodes
    case Forget(_, peer) => peer in l.peers && peer != e.node
    case SetConfigEpoch(_, _) => Fresh(l)
    case Reset(_) => true
    case Save(_) => true
    case Restart(n, max) => n in sys.files && IsMaxEpoch(Loaded(n, sys.files[n]), max)
  }

  predicate FileOk(n: NodeId, f: File, senders: set<NodeId>) {
    n in f.peers && NamesOk(f.peers, senders)
  }

  predicate SystemOk(sys: System) {
    var senders := sys.nodes.Keys;
    (forall n | n in sys.nodes :: sys.nodes[n].me == n && LocalOk(sys.nodes[n], senders)) &&
    (forall n | n in sys.files :: n in sys.nodes && FileOk(n, sys.files[n], senders)) &&
    (forall m | m in sys.sent :: MessageOk(m, senders))
  }

  /** Every node knows itself alone. */
  predicate Init(sys: System) {
    sys.files == map[] && sys.sent == {} &&
    forall n | n in sys.nodes :: sys.nodes[n] == Local(n, 0, 0, map[n := Peer(0, Master, false, None)])
  }

  lemma InitOk(sys: System)
    requires Init(sys)
    ensures SystemOk(sys)
  {}

  function Promoted(l: Local): Local
    requires l.me in l.peers
  {
    var self := l.peers[l.me];
    var raised := if self.configEpoch < l.authEpoch then self.(configEpoch := l.authEpoch) else self;
    l.(peers := l.peers[l.me := if raised.role.Master? || raised.slaveOf.None? then raised
                                else raised.(role := Master, slaveOf := None)])
  }

  /** No other node known and no config epoch yet. */
  predicate Fresh(l: Local) {
    l.peers.Keys == {l.me} && l.peers[l.me].configEpoch == 0
  }

  function WithConfigEpoch(l: Local, epoch: Epoch): Local
    requires l.me in l.peers
  {
    l.(currentEpoch := if l.currentEpoch < epoch then epoch else l.currentEpoch,
       peers := l.peers[l.me := l.peers[l.me].(configEpoch := epoch)])
  }

  /** A replica turns into a master, and every other node is forgotten. */
  function SoftReset(l: Local): Local
    requires l.me in l.peers
  {
    var self := l.peers[l.me];
    l.(peers := map[l.me := self.(role := if self.role.Replica? then Master else self.role, slaveOf := None)])
  }

  /** Besides, the epochs start again at 0 under a new name; that of the last election stays. */
  function HardReset(l: Local, name: NodeId): Local
    requires l.me in l.peers
  {
    var self := SoftReset(l).peers[l.me];
    Local(name, 0, l.authEpoch, map[name := self.(configEpoch := 0)])
  }

  /** A hard reset leaves no config epoch above the current one; the epoch of an election that
      the node had started before is, if there was one. */
  lemma HardResetExactly(l: Local, name: NodeId)
    requires EpochsOk(l)
    ensures var r := HardReset(l, name);
            (forall n | n in r.peers :: r.peers[n].configEpoch <= r.currentEpoch) &&
            (EpochsOk(r) <==> l.authEpoch == 0)
  {}

  function LocalStep(l: Local, e: Event): Local
    requires l.me in l.peers
  {
    match e
    case DeliverPing(_, m, link, refused) => if m.Ping? then OnPing(l, link, m.hdr, m.gossip, refused) else l
    case DeliverUpdate(_, m) => if m.Update? then OnUpdate(l, m.hdr, m.about, m.reported) else l
    case Bump(_, max) => if Bumps(l, max) then TakeNextEpoch(l) else l
    case StartElection(_) => l.(currentEpoch := l.currentEpoch + 1, authEpoch := l.currentEpoch + 1)
    case WinElection(_) => Promoted(l)
    case SetMaster(_, master) =>
      l.(peers := l.peers[l.me := l.peers[l.me].(role := Replica, slaveOf := Some(master))])
    case Meet(_, name) => l.(peers := l.peers[name := Peer(0, NoRole, true, None)])
    case Forget(_, peer) => l.(peers := Without(l.peers, peer))
    case SetConfigEpoch(_, epoch) => WithConfigEpoch(l, epoch)
    case Reset(_) => SoftReset(l)
    case SendPing(_, _) => l
    case SendUpdate(_, _) => l
    case Save(_) => l
    case Restart(_, _) => l
  }

  function Next(sys: System, e: Event): System
    requires Enabled(sys, e) && sys.nodes[e.node].me in sys.nodes[e.node].peers
  {
    var l := sys.nodes[e.node];
    match e
    case SendPing(_, picked) => sys.(sent := sys.sent + {Ping(BuildHeader(l), GossipOf(l, picked))})
    case SendUpdate(_, about) =>
      sys.(sent := sys.sent + {Update(BuildHeader(l), about, l.peers[about].configEpoch)})
    case Save(n) => sys.(files := sys.files[n := Saved(l)])
    case Restart(n, max) => sys.(nodes := sys.nodes[n := Loaded(n, sys.files[n]).(currentEpoch := max)])
    case _ => sys.(nodes := sys.nodes[e.node := LocalStep(l, e)])
  }

  /** The epoch of an election that was started and won is above all that was known before. */
  lemma WonEpochIsAbove(l: Local)
    requires EpochsOk(l)
    ensures var r := LocalStep(LocalStep(l, StartElection(l.me)), WinElection(l.me));
            l.me in r.peers && r.peers[l.me].configEpoch == r.currentEpoch == l.currentEpoch + 1 &&
            (l.peers[l.me].slaveOf.Some? ==> r.peers[l.me].role.Master?) &&
            forall k | k in l.peers && k != l.me :: k in r.peers && r.peers[k] == l.peers[k] &&
                                                    r.peers[k].configEpoch < r.peers[l.me].configEpoch
  {}

  lemma LocalStepKeeps(l: Local, e: Event, senders: set<NodeId>)
    requires LocalOk(l, senders)
    requires e.DeliverPing? || e.DeliverUpdate? ==> MessageOk(e.msg, senders)
    requires e.Meet? ==> e.name !in senders
    requires e.Forget? ==> e.peer != l.me
    ensures l.me in l.peers && LocalOk(LocalStep(l, e), senders) && LocalStep(l, e).me == l.me
    ensures l.currentEpoch <= LocalStep(l, e).currentEpoch
  {
    hide OnPing, OnUpdate;
    match e
    case DeliverPing(_, m, link, refused) =>
      if m.Ping? { PingKeeps(l, link, m.hdr, m.gossip, refused, senders); }
    case DeliverUpdate(_, m) =>
      if m.Update? { UpdateKeeps(l, m.hdr, m.about, m.reported, senders); }
    case Bump(_, max) => NextEpochIsAbove(l);
    case _ =>
  }

  lemma RestartKeeps(n: NodeId, f: File, max: Epoch, senders: set<NodeId>)
    requires FileOk(n, f, senders) && n in senders && IsMaxEpoch(Loaded(n, f), max)
    ensures LocalOk(Loaded(n, f).(currentEpoch := max), senders) && Loaded(n, f).me == n
  {
    LoadRepairs(n, f, max);
  }

  lemma SendKeeps(sys: System, m: Message)
    requires SystemOk(sys) && MessageOk(m, sys.nodes.Keys)
    ensures SystemOk(sys.(sent := sys.sent + {m}))
  {}

  lemma SaveKeeps(sys: System, n: NodeId)
    requires SystemOk(sys) && n in sys.nodes
    ensures SystemOk(sys.(files := sys.files[n := Saved(sys.nodes[n])]))
  {}

  lemma MoveKeeps(sys: System, n: NodeId, l: Local)
    requires SystemOk(sys) && n in sys.nodes && l.me == n && LocalOk(l, sys.nodes.Keys)
    ensures var sys' := sys.(nodes := sys.nodes[n := l]); SystemOk(sys') && sys'.nodes.Keys == sys.nodes.Keys
  {
    assert sys.nodes[n := l].Keys == sys.nodes.Keys;
  }

  lemma PartsOk(sys: System, e: Event)
    requires SystemOk(sys) && Enabled(sys, e)
    ensures var l := sys.nodes[e.node]; l.me == e.node && e.node in l.peers && LocalOk(l, sys.nodes.Keys)
    ensures e.SendUpdate? ==> sys.nodes[e.node].peers[e.about].configEpoch <= sys.nodes[e.node].currentEpoch
    ensures e.DeliverPing? || e.DeliverUpdate? ==> MessageOk(e.msg, sys.nodes.Keys)
    ensures e.Restart? ==> FileOk(e.node, sys.files[e.node], sys.nodes.Keys)
  {}

  lemma StepKeeps(sys: System, e: Event)
    requires SystemOk(sys) && Enabled(sys, e)
    ensures sys.nodes[e.node].me in sys.nodes[e.node].peers
    ensures SystemOk(Next(sys, e)) && Next(sys, e).nodes.Keys == sys.nodes.Keys
  {
    hide SystemOk, LocalOk, EpochsOk, LocalStep, BuildHeader, GossipOf, Loaded, Saved, LoadedTable, IsMaxEpoch;
    PartsOk(sys, e);
    var senders := sys.nodes.Keys;
    var l := sys.nodes[e.node];
    HeaderIsOk(l, senders);
    match e
    case SendPing(_, picked) =>
      GossipIsOk(l, picked);
      SendKeeps(sys, Ping(BuildHeader(l), GossipOf(l, picked)));
    case SendUpdate(_, about) => SendKeeps(sys, Update(BuildHeader(l), about, l.peers[about].configEpoch));
    case Save(n) => SaveKeeps(sys, n);
    case Restart(n, max) =>
      RestartKeeps(n, sys.files[n], max, senders);
      MoveKeeps(sys, n, Loaded(n, sys.files[n]).(currentEpoch := max));
    case _ =>
      LocalStepKeeps(l, e, senders);
      MoveKeeps(sys, e.node, LocalStep(l, e));
  }

  predicate IsRun(sys: System, run: seq<Event>)
    requires SystemOk(sys)
    decreases |run|
  {
    run == [] ||
    (Enabled(sys, run[0]) && (StepKeeps(sys, run[0]); IsRun(Next(sys, run[0]), run[1..])))
  }

  function Final(sys: System, run: seq<Event>): (end: System)
    requires SystemOk(sys) && IsRun(sys, run)
    ensures SystemOk(end) && end.nodes.Keys == sys.nodes.Keys
    decreases |run|
  {
    if run == [] then sys else StepKeeps(sys, run[0]); Final(Next(sys, run[0]), run[1..])
  }

  /** In every state reached from nodes that know only themselves, at every node, taking the
      next epoch is taking one above everything in its table, what it puts on the wire is in
      order, and no entry in handshake bears the name of a node. */
  lemma GlobalEpochInvariant(sys: System, run: seq<Event>, n: NodeId)
    requires Init(sys) && n in sys.nodes && (InitOk(sys); IsRun(sys, run))
    ensures var l := Final(sys, run).nodes[n];
            EpochsOk(l) &&
            (forall k | k in l.peers && k != n :: l.peers[k].configEpoch < TakeNextEpoch(l).peers[n].configEpoch) &&
            BuildHeader(l).configEpoch <= BuildHeader(l).currentEpoch &&
            (forall k | k in l.peers && l.peers[k].handshake :: k !in sys.nodes)
    ensures forall m | m in Final(sys, run).sent :: MessageOk(m, sys.nodes.Keys)
  {
    var l := Final(sys, run).nodes[n];
    NextEpochIsAbove(l);
    HeaderIsOk(l, sys.nodes.Keys);
  }

  // ----------------------------------------------------------- Learning over runs

  /** Events at node `n` after which it may know less about node `k`. */
  predicate Forgets(e: Event, n: NodeId, k: NodeId) {
    e.node == n && (e.Reset? || e.Restart? || (e.Forget? && e.peer == k))
  }

  lemma LocalStepGrows(l: Local, e: Event, senders: set<NodeId>, k: NodeId)
    requires LocalOk(l, senders) && k in senders && k in l.peers && !Forgets(e, l.me, k) && e.node == l.me
    requires e.DeliverPing? || e.DeliverUpdate? ==> MessageOk(e.msg, senders)
    requires e.Meet? ==> e.name !in senders
    requires e.SetConfigEpoch? ==> Fresh(l)
    ensures var r := LocalStep(l, e); k in r.peers && l.peers[k].configEpoch <= r.peers[k].configEpoch
  {
    hide OnPing, OnUpdate, OnHeader;
    match e
    case DeliverPing(_, m, link, refused) =>
      if m.Ping? { PingGrows(l, link, m.hdr, m.gossip, refused, k); }
    case DeliverUpdate(_, m) =>
      if m.Update? {
        HeaderTeaches(l, m.hdr);
        UpdateTeaches(l, m.hdr, m.about, m.reported);
      }
    case _ =>
  }

  /** What a node knows of another never gets older, unless it forgets the node, is reset or restarts. */
  lemma StepGrows(sys: System, e: Event, n: NodeId, k: NodeId)
    requires SystemOk(sys) && Enabled(sys, e) && n in sys.nodes && k in sys.nodes && k in sys.nodes[n].peers
    requires !Forgets(e, n, k)
    ensures sys.nodes[e.node].me in sys.nodes[e.node].peers
    ensures var sys' := Next(sys, e);
            n in sys'.nodes && k in sys'.nodes[n].peers &&
            sys.nodes[n].peers[k].configEpoch <= sys'.nodes[n].peers[k].configEpoch
  {
    PartsOk(sys, e);
    MeetsNewName(sys, e);
    NodeAfter(sys, e, n);
    hide SystemOk, LocalOk, LocalStep, Next, Enabled;
    if e.node == n && IsLocal(e) {
      LocalStepGrows(sys.nodes[n], e, sys.nodes.Keys, k);
    }
  }

  predicate IsLocal(e: Event) { !e.SendPing? && !e.SendUpdate? && !e.Save? && !e.Restart? }

  lemma MeetsNewName(sys: System, e: Event)
    requires Enabled(sys, e)
    ensures e.Meet? ==> e.name !in sys.nodes
    ensures e.SetConfigEpoch? ==> Fresh(sys.nodes[e.node])
  {}

  lemma NodeAfter(sys: System, e: Event, n: NodeId)
    requires Enabled(sys, e) && sys.nodes[e.node].me in sys.nodes[e.node].peers && n in sys.nodes
    ensures n in Next(sys, e).nodes
    ensures n != e.node ==> Next(sys, e).nodes[n] == sys.nodes[n]
    ensures n == e.node && IsLocal(e) ==> Next(sys, e).nodes[n] == LocalStep(sys.nodes[n], e)
    ensures n == e.node && (e.SendPing? || e.SendUpdate? || e.Save?) ==> Next(sys, e).nodes[n] == sys.nodes[n]
  {
    hide LocalStep, BuildHeader, GossipOf, Loaded, Saved;
  }

  predicate NeverForgets(run: seq<Event>, n: NodeId, k: NodeId) {
    forall i | 0 <= i < |run| :: !Forgets(run[i], n, k)
  }

  lemma {:induction false} RunGrows(sys: System, run: seq<Event>, n: NodeId, k: NodeId)
    requires SystemOk(sys) && IsRun(sys, run) && n in sys.nodes && k in sys.nodes && k in sys.nodes[n].peers
    requires NeverForgets(run, n, k)
    ensures var end := Final(sys, run);
            k in end.nodes[n].peers && sys.nodes[n].peers[k].configEpoch <= end.nodes[n].peers[k].configEpoch
    decreases |run|
  {
    hide SystemOk, Next, Enabled;
    if run != [] {
      StepKeeps(sys, run[0]);
      StepGrows(sys, run[0], n, k);
      assert forall i | 0 <= i < |run[1..]| :: run[1..][i] == run[i + 1];
      RunGrows(Next(sys, run[0]), run[1..], n, k);
    }
  }

  /** What a delivered message says of node `k`. */
  predicate Tells(e: Event, n: NodeId, k: NodeId, epoch: Epoch) {
    e.node == n &&
    ((e.DeliverPing? && e.msg.Ping? && e.msg.hdr.sender == k && e.msg.hdr.configEpoch == epoch) ||
     (e.DeliverUpdate? && e.msg.Update? && e.msg.about == k && e.msg.reported == epoch))
  }

  lemma StepTeaches(sys: System, e: Event, n: NodeId, k: NodeId, epoch: Epoch)
    requires SystemOk(sys) && Enabled(sys, e) && Tells(e, n, k, epoch) && k in sys.nodes
    requires k in sys.nodes[n].peers && e.msg.hdr.sender in sys.nodes[n].peers
    ensures sys.nodes[e.node].me in sys.nodes[e.node].peers
    ensures var sys' := Next(sys, e);
            n in sys'.nodes && k in sys'.nodes[n].peers && epoch <= sys'.nodes[n].peers[k].configEpoch
  {
    PartsOk(sys, e);
    hide OnPing, OnUpdate, OnHeader, SystemOk;
    var l, m := sys.nodes[n], e.msg;
    if e.DeliverPing? {
      PingTeaches(l, e.link, m.hdr, m.gossip, e.refused);
    } else {
      HeaderTeaches(l, m.hdr);
      UpdateTeaches(l, m.hdr, m.about, m.reported);
    }
  }

  /** Whatever happens after a ping of node `k`, or an UPDATE about it, from a node known to `n` was
      delivered to `n`: as long as `n` does not forget `k`, its entry is at least at that epoch. */
  lemma LearnsAndKeeps(sys: System, e: Event, run: seq<Event>, n: NodeId, k: NodeId, epoch: Epoch)
    requires SystemOk(sys) && Enabled(sys, e) && Tells(e, n, k, epoch) && k in sys.nodes
    requires k in sys.nodes[n].peers && e.msg.hdr.sender in sys.nodes[n].peers
    requires IsRun(sys, [e] + run) && NeverForgets(run, n, k)
    ensures var end := Final(sys, [e] + run);
            k in end.nodes[n].peers && epoch <= end.nodes[n].peers[k].configEpoch
  {
    hide SystemOk, Next, Enabled, Tells, NeverForgets;
    StepKeeps(sys, e);
    StepTeaches(sys, e, n, k, epoch);
    assert ([e] + run)[1..] == run && ([e] + run)[0] == e;
    TellsNode(e, n, k, epoch);
    RunGrows(Next(sys, e), run, n, k);
  }

  lemma TellsNode(e: Event, n: NodeId, k: NodeId, epoch: Epoch)
    requires Tells(e, n, k, epoch)
    ensures e.node == n
  {}

  /** A file that was just saved gives back all entries but those in handshake, and the epoch.  Every
      master that they name has an entry, if need be a new one without an epoch. */
  lemma SavedThenLoaded(l: Local)
    requires EpochsOk(l) && !l.peers[l.me].handshake
    ensures var r := Loaded(l.me, Saved(l));
            IsMaxEpoch(r, l.currentEpoch) && r.currentEpoch == l.currentEpoch && r.me == l.me &&
            (forall n | n in l.peers && !l.peers[n].handshake :: n in r.peers && r.peers[n] == l.peers[n]) &&
            (forall n | n in r.peers :: (n in l.peers && !l.peers[n].handshake) ||
                                        exists k :: k in l.peers && l.peers[k].slaveOf == Some(n)) &&
            (forall n | n in r.peers && r.peers[n].slaveOf.Some? :: r.peers[n].slaveOf.value in r.peers) &&
            (forall n | n in r.peers && (n !in l.peers || l.peers[n].handshake) ::
               r.peers[n] == Peer(0, NoRole, false, None))
  {}

  /** A soft reset leaves a node that knows only itself, as a master, with its epochs. */
  lemma SoftResetForgets(l: Local)
    requires l.me in l.peers
    ensures var r := SoftReset(l);
            r.peers.Keys == {l.me} && !r.peers[l.me].role.Replica? && r.peers[l.me].slaveOf.None? &&
            r.peers[l.me].configEpoch == l.peers[l.me].configEpoch && r.currentEpoch == l.currentEpoch
  {}

  /** The header of a replica announces the config epoch of its master. */
  lemma HeaderAnnounces(l: Local, master: NodeId)
    requires l.me in l.peers && master in l.peers
    ensures var h := BuildHeader(l);
            h.sender == l.me && h.currentEpoch == l.currentEpoch && h.slaveOf == l.peers[l.me].slaveOf &&
            (l.peers[l.me].role.Replica? && h.slaveOf == Some(master) ==>
               h.configEpoch == l.peers[master].configEpoch) &&
            (!l.peers[l.me].role.Replica? ==> h.configEpoch == l.peers[l.me].configEpoch)
  {}
}
