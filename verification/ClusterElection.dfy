/**
 Replica elections of Redis Cluster (cluster.c).

 `Failover` is the part of `server.cluster` an election reads and writes.  The
 handlers are given twice: as functions on that record, which the protocol below
 steps with, and as methods of `FailoverState`, which update it in place.

 `System` puts the nodes and the messages in flight together.  `votes`, `reasons` and
 `wins` record the past; no step reads them.
 */
module ClusterElection {

  import opened Options

  type NodeId = nat
  type Epoch = nat

  datatype Failover = Failover(
    isMaster: bool,          // role of this node in its own configuration
    currentEpoch: Epoch,
    lastVoteEpoch: Epoch,
    configEpoch: Epoch,
    authEpoch: Epoch,        // failover_auth_epoch
    authCount: nat,          // failover_auth_count
    authSent: bool,          // failover_auth_sent
    authTime: int,           // failover_auth_time
    authRank: nat            // failover_auth_rank
  )

  // ----------------------------------------------------------------- Handlers

  /** Every known sender's header raises currentEpoch. */
  function OnHeader(f: Failover, senderEpoch: Epoch): Failover {
    if senderEpoch > f.currentEpoch then f.(currentEpoch := senderEpoch) else f
  }

  /** What the header of a vote request claims. */
  datatype VoteRequest = VoteRequest(epoch: Epoch, configEpoch: Epoch, claimed: seq<bool>, forceAck: bool)

  /** What the receiver of a vote request knows about the sender and about the slots. */
  datatype VoteView = VoteView(
    servesSlots: bool,                 // this node is a master serving at least one slot
    senderIsMaster: bool,
    senderMasterKnown: bool,
    senderMasterFailed: bool,
    sinceLastVoteForMaster: int,       // milliseconds
    nodeTimeout: int,
    owners: seq<Option<Epoch>>         // config epoch of the owner of each slot
  )

  /** No claimed slot is served under a newer configuration than the requester's. */
  predicate SlotsAllow(view: VoteView, req: VoteRequest) {
    forall j | 0 <= j < |view.owners| && j < |req.claimed| && req.claimed[j] ::
      view.owners[j].None? || view.owners[j].value <= req.configEpoch
  }

  predicate Grants(f: Failover, view: VoteView, req: VoteRequest) {
    view.servesSlots &&
    req.epoch >= f.currentEpoch &&
    f.lastVoteEpoch != f.currentEpoch &&
    !view.senderIsMaster && view.senderMasterKnown && (view.senderMasterFailed || req.forceAck) &&
    view.sinceLastVoteForMaster >= view.nodeTimeout * 2 &&
    SlotsAllow(view, req)
  }

  /** Receiving a vote request: the header first, then the vote. */
  function OnAuthRequest(f: Failover, view: VoteView, req: VoteRequest): (Failover, bool) {
    var g := OnHeader(f, req.epoch);
    if Grants(g, view, req) then (g.(lastVoteEpoch := g.currentEpoch), true) else (g, false)
  }

  /** Every claimed slot whose owner the voter knows is served under an epoch that is not newer
      than that of the request. */
  predicate NoNewerOwner(view: VoteView, req: VoteRequest) {
    forall j | 0 <= j < |req.claimed| && j < |view.owners| ::
      req.claimed[j] && view.owners[j].Some? ==> view.owners[j].value <= req.configEpoch
  }

  /** A replica of a known master that has failed, or whose request is forced, asks a master that
      serves slots and has not voted for another of its replicas for a while. */
  predicate MayAsk(view: VoteView, req: VoteRequest) {
    view.servesSlots && !view.senderIsMaster && view.senderMasterKnown &&
    (view.senderMasterFailed || req.forceAck) && view.sinceLastVoteForMaster >= 2 * view.nodeTimeout
  }

  /** The vote, exactly: for an epoch that is not behind, in which no vote was given yet, to a
      replica that may ask and claims no slot with a newer owner.  It is recorded, and nothing
      else changes but the current epoch. */
  lemma GrantedExactly(f: Failover, view: VoteView, req: VoteRequest)
    requires f.lastVoteEpoch <= f.currentEpoch
    ensures var (g, granted) := OnAuthRequest(f, view, req);
            granted <==> f.currentEpoch <= req.epoch && f.lastVoteEpoch < req.epoch &&
                         MayAsk(view, req) && NoNewerOwner(view, req)
    ensures var (g, granted) := OnAuthRequest(f, view, req);
            g == f.(currentEpoch := if f.currentEpoch < req.epoch then req.epoch else f.currentEpoch,
                    lastVoteEpoch := if granted then req.epoch else f.lastVoteEpoch)
  {
  }

  /** A vote counts if its sender may vote and its epoch is not older than the election. */
  predicate CountsAck(f: Failover, senderServesSlots: bool, ackEpoch: Epoch) {
    senderServesSlots && ackEpoch >= f.authEpoch
  }

  function OnAuthAck(f: Failover, senderServesSlots: bool, ackEpoch: Epoch): Failover {
    var g := OnHeader(f, ackEpoch);
    if CountsAck(g, senderServesSlots, ackEpoch) then g.(authCount := g.authCount + 1) else g
  }

  /** An answer raises the current epoch, and counts exactly if a master with slots sent it in an
      epoch that is not before the election. */
  lemma CountedExactly(f: Failover, senderServesSlots: bool, ackEpoch: Epoch)
    ensures OnAuthAck(f, senderServesSlots, ackEpoch)
         == f.(currentEpoch := if f.currentEpoch < ackEpoch then ackEpoch else f.currentEpoch,
               authCount := f.authCount + if senderServesSlots && f.authEpoch <= ackEpoch then 1 else 0)
  {
  }

  /** Everything else clusterHandleSlaveFailover looks at. */
  datatype Situation = Situation(
    now: int, nodeTimeout: int,
    mfEnd: bool, mfCanStart: bool,               // manual failover in progress, and cleared to start
    masterKnown: bool, masterFailed: bool, masterServesSlots: bool,
    noFailover: bool,
    validityFactor: nat, pingPeriod: nat, dataAge: int,
    rank: nat, jitter: nat                       // clusterGetSlaveRank() and random() % 500
  )

  datatype Action = Nothing | Scheduled | VotesRequested | Promoted

  function AuthTimeout(s: Situation): int {
    if s.nodeTimeout * 2 < 2000 then 2000 else s.nodeTimeout * 2
  }

  predicate ManualFailover(s: Situation) { s.mfEnd && s.mfCanStart }

  predicate MayFailover(f: Failover, s: Situation) {
    !f.isMaster && s.masterKnown && (s.masterFailed || ManualFailover(s)) &&
    (!s.noFailover || ManualFailover(s)) && s.masterServesSlots
  }

  predicate DataTooOld(s: Situation) {
    var age := if s.dataAge > s.nodeTimeout then s.dataAge - s.nodeTimeout else s.dataAge;
    s.validityFactor != 0 && age > s.pingPeriod * 1000 + s.nodeTimeout * s.validityFactor &&
    !ManualFailover(s)
  }

  /** A fresh attempt: the count is cleared now, the epoch only when votes are requested. */
  function Reschedule(f: Failover, s: Situation): Failover {
    f.(authCount := 0, authSent := false,
       authRank := if s.mfEnd then 0 else s.rank,
       authTime := if s.mfEnd then s.now else s.now + 500 + s.jitter + s.rank * 1000)
  }

  function DelayByRank(f: Failover, s: Situation): Failover {
    if !f.authSent && !s.mfEnd && s.rank > f.authRank
    then f.(authTime := f.authTime + (s.rank - f.authRank) * 1000, authRank := s.rank)
    else f
  }

  function Quorum(size: nat): nat { size / 2 + 1 }

  function HandleSlaveFailover(f: Failover, size: nat, s: Situation): (Failover, Action) {
    var authAge := s.now - f.authTime;
    if !MayFailover(f, s) || DataTooOld(s) then (f, Nothing)
    else if authAge > AuthTimeout(s) * 2 then (Reschedule(f, s), Scheduled)
    else
      var g := DelayByRank(f, s);
      if s.now < g.authTime || authAge > AuthTimeout(s) then (g, Nothing)
      else if !g.authSent then
        (g.(currentEpoch := g.currentEpoch + 1, authEpoch := g.currentEpoch + 1, authSent := true), VotesRequested)
      else if g.authCount >= Quorum(size) then
        (g.(configEpoch := if g.configEpoch < g.authEpoch then g.authEpoch else g.configEpoch, isMaster := true),
         Promoted)
      else (g, Nothing)
  }

  /** Votes are asked for exactly by a replica of a known master with slots that has failed or is
      to be replaced by hand, with recent data, once its time has come and is not over. */
  lemma AsksExactly(f: Failover, size: nat, s: Situation)
    ensures var byHand := s.mfEnd && s.mfCanStart;
            var timeout := if s.nodeTimeout < 1000 then 2000 else 2 * s.nodeTimeout;
            var age := if s.dataAge > s.nodeTimeout then s.dataAge - s.nodeTimeout else s.dataAge;
            var late := if !s.mfEnd && s.rank > f.authRank then 1000 * (s.rank - f.authRank) else 0;
            HandleSlaveFailover(f, size, s).1 == VotesRequested <==>
            !f.isMaster && s.masterKnown && s.masterServesSlots && (s.masterFailed || byHand) &&
            (byHand || !s.noFailover) &&
            (byHand || s.validityFactor == 0 || age <= 1000 * s.pingPeriod + s.nodeTimeout * s.validityFactor) &&
            !f.authSent && f.authTime + late <= s.now <= f.authTime + timeout
  {
  }

  /** An attempt is set up anew exactly after twice the timeout, and clears what was counted. */
  lemma RetriesLate(f: Failover, size: nat, s: Situation)
    ensures var (g, action) := HandleSlaveFailover(f, size, s);
            (action == Scheduled <==>
               MayFailover(f, s) && !DataTooOld(s) &&
               s.now > f.authTime + 4000 && s.now > f.authTime + 4 * s.nodeTimeout) &&
            (action == Scheduled ==>
              g.authCount == 0 && !g.authSent && g.authTime >= s.now && g.currentEpoch == f.currentEpoch)
  {
  }

  /** A replica that is behind another starts later, whatever the random delays. */
  lemma BetterRankFirst(f1: Failover, f2: Failover, s: Situation, rank: nat, jitter: nat)
    requires !s.mfEnd && s.rank < rank && s.jitter < 500 && jitter < 500
    ensures var t1, t2 := Reschedule(f1, s).authTime, Reschedule(f2, s.(rank := rank, jitter := jitter)).authTime;
            s.now + 500 <= t1 < t2
  {
  }

  /** A rank that gets worse meanwhile delays the start as if it had been known from the first. */
  lemma WorseRankDelays(f: Failover, s: Situation, worse: Situation)
    requires !s.mfEnd && !worse.mfEnd && s.rank <= worse.rank
    ensures var g := DelayByRank(Reschedule(f, s), worse);
            g == Reschedule(f, s.(rank := worse.rank))
  {
  }

  /** A failover by hand does not wait. */
  lemma ByHandAtOnce(f: Failover, size: nat, s: Situation)
    requires s.mfEnd
    ensures var (g, action) := HandleSlaveFailover(f, size, s);
            action == Scheduled && s.mfCanStart ==> HandleSlaveFailover(g, size, s).1 == VotesRequested
  {
  }

  /** A replica is promoted exactly with a quorum of votes in its running election, and then its
      config epoch is at least that of the election. */
  lemma PromotedExactly(f: Failover, size: nat, s: Situation)
    requires MayFailover(f, s) && !DataTooOld(s) && f.authTime <= s.now <= f.authTime + AuthTimeout(s) && f.authSent
    ensures var (g, action) := HandleSlaveFailover(f, size, s);
            (action == Promoted <==> 2 * f.authCount > size) &&
            (action == Promoted ==> g.isMaster && g.configEpoch >= g.authEpoch == f.authEpoch &&
                                    (g.configEpoch == f.authEpoch || g.configEpoch == f.configEpoch))
  {
  }

  /** The same state updated in place, as `server.cluster` is. */
  class FailoverState {
    var isMaster: bool
    var currentEpoch: Epoch
    var lastVoteEpoch: Epoch
    var configEpoch: Epoch
    var authEpoch: Epoch
    var authCount: nat
    var authSent: bool
    var authTime: int
    var authRank: nat

    function Value(): Failover
      reads this
    {
      Failover(isMaster, currentEpoch, lastVoteEpoch, configEpoch, authEpoch, authCount, authSent, authTime, authRank)
    }

    constructor (f: Failover)
      ensures Value() == f
    {
      isMaster, currentEpoch, lastVoteEpoch, configEpoch := f.isMaster, f.currentEpoch, f.lastVoteEpoch, f.configEpoch;
      authEpoch, authCount, authSent := f.authEpoch, f.authCount, f.authSent;
      authTime, authRank := f.authTime, f.authRank;
    }

    method ReceiveHeader(senderEpoch: Epoch)
      modifies this
      ensures Value() == OnHeader(old(Value()), senderEpoch)
    {
      if senderEpoch > currentEpoch { currentEpoch := senderEpoch; }
    }

    method SendFailoverAuthIfNeeded(view: VoteView, req: VoteRequest) returns (granted: bool)
      requires |view.owners| == |req.claimed|
      modifies this
      ensures (Value(), granted) == OnAuthRequest(old(Value()), view, req)
    {
      ReceiveHeader(req.epoch);
      if !view.servesSlots { return false; }
      if req.epoch < currentEpoch { return false; }
      if lastVoteEpoch == currentEpoch { return false; }
      if view.senderIsMaster || !view.senderMasterKnown || (!view.senderMasterFailed && !req.forceAck) {
        return false;
      }
      if view.sinceLastVoteForMaster < view.nodeTimeout * 2 { return false; }
      for j := 0 to |view.owners|
        invariant forall i | 0 <= i < j && req.claimed[i] ::
                    view.owners[i].None? || view.owners[i].value <= req.configEpoch
      {
        if req.claimed[j] && view.owners[j].Some? && view.owners[j].value > req.configEpoch {
          return false;
        }
      }
      lastVoteEpoch := currentEpoch;
      granted := true;
    }

    method ReceiveAck(senderServesSlots: bool, ackEpoch: Epoch)
      modifies this
      ensures Value() == OnAuthAck(old(Value()), senderServesSlots, ackEpoch)
    {
      ReceiveHeader(ackEpoch);
      if senderServesSlots && ackEpoch >= authEpoch { authCount := authCount + 1; }
    }

    method SlaveFailover(size: nat, s: Situation) returns (action: Action)
      modifies this
      ensures (Value(), action) == HandleSlaveFailover(old(Value()), size, s)
    {
      var authAge := s.now - authTime;
      var manual := s.mfEnd && s.mfCanStart;
      var authTimeout := s.nodeTimeout * 2;
      if authTimeout < 2000 { authTimeout := 2000; }
      if isMaster || !s.masterKnown || (!s.masterFailed && !manual) || (s.noFailover && !manual) ||
         !s.masterServesSlots
      {
        return Nothing;
      }
      var dataAge := s.dataAge;
      if dataAge > s.nodeTimeout { dataAge := dataAge - s.nodeTimeout; }
      if s.validityFactor != 0 && dataAge > s.pingPeriod * 1000 + s.nodeTimeout * s.validityFactor {
        if !manual { return Nothing; }
      }
      if authAge > authTimeout * 2 {
        authTime := s.now + 500 + s.jitter;
        authCount := 0;
        authSent := false;
        authRank := s.rank;
        authTime := authTime + authRank * 1000;
        if s.mfEnd {
          authTime := s.now;
          authRank := 0;
        }
        return Scheduled;
      }
      if !authSent && !s.mfEnd {
        if s.rank > authRank {
          authTime := authTime + (s.rank - authRank) * 1000;
          authRank := s.rank;
        }
      }
      if s.now < authTime { return Nothing; }
      if authAge > authTimeout { return Nothing; }
      if !authSent {
        currentEpoch := currentEpoch + 1;
        authEpoch := currentEpoch;
        authSent := true;
        return VotesRequested;
      }
      if authCount >= size / 2 + 1 {
        if configEpoch < authEpoch { configEpoch := authEpoch; }
        isMaster := true;
        return Promoted;
      }
      action := Nothing;
    }
  }

  // ----------------------------------------------------------------- The protocol

  datatype Message =
    | AuthRequest(src: NodeId, dst: NodeId, request: VoteRequest)
    | AuthAck(src: NodeId, dst: NodeId, epoch: Epoch)
    | Ping(src: NodeId, dst: NodeId, epoch: Epoch)

  datatype Vote = Vote(voter: NodeId, epoch: Epoch, candidate: NodeId)

  /** What a vote was granted on: the request, and what the voter knew. */
  datatype Reason = Reason(request: VoteRequest, view: VoteView)

  /** A replica that passed the quorum test, with the votes of that epoch it had counted
      and the number of acknowledgements it had counted before requesting them. */
  datatype Win = Win(candidate: NodeId, epoch: Epoch, supporters: set<NodeId>, stale: nat)

  /** How a replica's current count came about. */
  datatype Tally = Tally(supporters: set<NodeId>, stale: nat)

  datatype System = System(
    voters: set<NodeId>,               // the masters serving slots, fixed and known to all
    nodes: map<NodeId, Failover>,
    net: multiset<Message>,
    votes: set<Vote>,
    reasons: map<Vote, Reason>,
    tallies: map<NodeId, Tally>,
    wins: set<Win>
  )

  datatype Event =
    | Tick(node: NodeId, s: Situation, req: VoteRequest, recipients: set<NodeId>)
    | DeliverRequest(msg: Message, view: VoteView)
    | DeliverAck(msg: Message)
    | DeliverPing(msg: Message)
    | SendPing(src: NodeId, dst: NodeId)
    | Bump(node: NodeId)
    | Lose(msg: Message)

  /** Nodes know each other; a voter is a master serving slots and nothing else votes. */
  predicate Enabled(sys: System, e: Event) {
    match e
    case Tick(n, s, _, _) => n in sys.nodes
    case DeliverRequest(m, view) =>
      m in sys.net && m.AuthRequest? && m.dst in sys.nodes && (view.servesSlots <==> m.dst in sys.voters)
    case DeliverAck(m) => m in sys.net && m.AuthAck? && m.dst in sys.nodes
    case DeliverPing(m) => m in sys.net && m.Ping? && m.dst in sys.nodes
    case SendPing(a, b) => a in sys.nodes
    case Bump(n) => n in sys.nodes
    case Lose(m) => m in sys.net
  }

  function Requests(src: NodeId, req: VoteRequest, recipients: set<NodeId>): multiset<Message> {
    multiset(set d | d in recipients :: AuthRequest(src, d, req))
  }

  function TallyOf(sys: System, n: NodeId): Tally {
    if n in sys.tallies then sys.tallies[n] else Tally({}, 0)
  }

  function TickStep(sys: System, n: NodeId, s: Situation, req: VoteRequest, recipients: set<NodeId>): System
    requires n in sys.nodes
  {
    var (f, action) := HandleSlaveFailover(sys.nodes[n], |sys.voters|, s);
    var next := sys.(nodes := sys.nodes[n := f]);
    match action
    case Nothing => next
    case Scheduled => next.(tallies := sys.tallies[n := Tally({}, 0)])
    case VotesRequested =>
      next.(net := sys.net + Requests(n, req.(epoch := f.currentEpoch, forceAck := s.mfEnd), recipients))
    case Promoted =>
      next.(wins := sys.wins + {Win(n, f.authEpoch, TallyOf(sys, n).supporters, TallyOf(sys, n).stale)})
  }

  function RequestStep(sys: System, m: Message, view: VoteView): System
    requires m.AuthRequest? && m.dst in sys.nodes
  {
    var (f, granted) := OnAuthRequest(sys.nodes[m.dst], view, m.request);
    var next := sys.(nodes := sys.nodes[m.dst := f], net := sys.net - multiset{m});
    if granted then
      next.(net := next.net + multiset{AuthAck(m.dst, m.src, f.currentEpoch)},
            votes := sys.votes + {Vote(m.dst, f.currentEpoch, m.src)},
            reasons := sys.reasons[Vote(m.dst, f.currentEpoch, m.src) := Reason(m.request, view)])
    else next
  }

  function AckStep(sys: System, m: Message): System
    requires m.AuthAck? && m.dst in sys.nodes
  {
    var f := sys.nodes[m.dst];
    var next := sys.(nodes := sys.nodes[m.dst := OnAuthAck(f, m.src in sys.voters, m.epoch)],
                     net := sys.net - multiset{m});
    var t := TallyOf(sys, m.dst);
    if !CountsAck(f, m.src in sys.voters, m.epoch) then next
    else if f.authSent then next.(tallies := sys.tallies[m.dst := t.(supporters := t.supporters + {m.src})])
    else next.(tallies := sys.tallies[m.dst := t.(stale := t.stale + 1)])
  }

  function Next(sys: System, e: Event): System
    requires Enabled(sys, e)
  {
    match e
    case Tick(n, s, req, recipients) => TickStep(sys, n, s, req, recipients)
    case DeliverRequest(m, view) => RequestStep(sys, m, view)
    case DeliverAck(m) => AckStep(sys, m)
    case DeliverPing(m) =>
      sys.(nodes := sys.nodes[m.dst := OnHeader(sys.nodes[m.dst], m.epoch)], net := sys.net - multiset{m})
    case SendPing(a, b) => sys.(net := sys.net + multiset{Ping(a, b, sys.nodes[a].currentEpoch)})
    case Bump(n) =>
      sys.(nodes := sys.nodes[n := sys.nodes[n].(currentEpoch := sys.nodes[n].currentEpoch + 1)])
    case Lose(m) => sys.(net := sys.net - multiset{m})
  }

  predicate IsRun(sys: System, run: seq<Event>)
    decreases |run|
  {
    run == [] || (Enabled(sys, run[0]) && IsRun(Next(sys, run[0]), run[1..]))
  }

  function Final(sys: System, run: seq<Event>): System
    requires IsRun(sys, run)
    decreases |run|
  {
    if run == [] then sys else Final(Next(sys, run[0]), run[1..])
  }

  /** No election has happened yet; epochs are arbitrary. */
  predicate Init(sys: System) {
    sys.voters <= sys.nodes.Keys && sys.net == multiset{} && sys.votes == {} && sys.wins == {} &&
    sys.tallies == map[] && sys.reasons == map[] &&
    forall n | n in sys.nodes ::
      var f := sys.nodes[n];
      f.lastVoteEpoch <= f.currentEpoch && f.authEpoch <= f.currentEpoch && f.authCount == 0 && !f.authSent
  }

  // ------------------------------------------------------------------ Invariants

  /** A voter votes at most once per epoch, and never ahead of its own clock. */
  predicate VotesInv(sys: System) {
    (forall n | n in sys.nodes :: sys.nodes[n].lastVoteEpoch <= sys.nodes[n].currentEpoch) &&
    (forall v | v in sys.votes ::
       v.voter in sys.nodes && v.voter in sys.voters && v.epoch <= sys.nodes[v.voter].lastVoteEpoch) &&
    (forall v, w | v in sys.votes && w in sys.votes ::
       v.voter == w.voter && v.epoch == w.epoch ==> v.candidate == w.candidate)
  }

  /** Messages only carry epochs of elections their candidate has started, and every
      acknowledgement in flight is a recorded vote. */
  predicate NetInv(sys: System) {
    (forall n | n in sys.nodes :: sys.nodes[n].authEpoch <= sys.nodes[n].currentEpoch) &&
    (forall m | m in sys.net && m.AuthRequest? ::
       m.src in sys.nodes && m.request.epoch <= sys.nodes[m.src].authEpoch) &&
    (forall v | v in sys.votes ::
       v.candidate in sys.nodes && v.epoch <= sys.nodes[v.candidate].authEpoch) &&
    (forall m | m in sys.net && m.AuthAck? ::
       Vote(m.src, m.epoch, m.dst) in sys.votes && sys.net[m] == 1)
  }

  /** The count of a replica is its supporters in the running election plus the stale ones. */
  predicate TallyInv(sys: System) {
    forall n | n in sys.nodes ::
      var f, t := sys.nodes[n], TallyOf(sys, n);
      f.authCount == |t.supporters| + t.stale &&
      (!f.authSent ==> t.supporters == {}) &&
      (forall v | v in t.supporters ::
         Vote(v, f.authEpoch, n) in sys.votes && AuthAck(v, n, f.authEpoch) !in sys.net)
  }

  predicate WinsInv(sys: System) {
    forall w | w in sys.wins ::
      |w.supporters| + w.stale >= Quorum(|sys.voters|) &&
      forall v | v in w.supporters :: Vote(v, w.epoch, w.candidate) in sys.votes
  }

  predicate Inv(sys: System) {
    VotesInv(sys) && NetInv(sys) && TallyInv(sys) && WinsInv(sys)
  }

  lemma InitInv(sys: System)
    requires Init(sys)
    ensures Inv(sys)
  {}

  lemma RequestsContents(src: NodeId, req: VoteRequest, recipients: set<NodeId>)
    ensures forall m | m in Requests(src, req, recipients) :: m.AuthRequest? && m.src == src && m.request == req
  {}

  /** What one call of clusterHandleSlaveFailover may change, by outcome. */
  lemma HandlerFacts(f: Failover, size: nat, s: Situation)
    ensures var (g, action) := HandleSlaveFailover(f, size, s);
            g.lastVoteEpoch == f.lastVoteEpoch &&
            match action
            case Nothing =>
              g.currentEpoch == f.currentEpoch && g.authEpoch == f.authEpoch && g.authCount == f.authCount &&
              g.authSent == f.authSent
            case Scheduled =>
              g.currentEpoch == f.currentEpoch && g.authEpoch == f.authEpoch && g.authCount == 0 && !g.authSent
            case VotesRequested =>
              g.currentEpoch == f.currentEpoch + 1 && g.authEpoch == g.currentEpoch && g.authCount == f.authCount &&
              !f.authSent
            case Promoted =>
              g.currentEpoch == f.currentEpoch && g.authEpoch == f.authEpoch && g.authCount == f.authCount &&
              g.authSent == f.authSent && f.authCount >= Quorum(size)
  {}

  /** Nodes only move forward, and keep their last vote. */
  predicate Forward(a: System, b: System) {
    a.voters == b.voters && a.nodes.Keys == b.nodes.Keys &&
    forall n | n in a.nodes ::
      var f, g := a.nodes[n], b.nodes[n];
      f.lastVoteEpoch == g.lastVoteEpoch && f.currentEpoch <= g.currentEpoch &&
      f.authEpoch <= g.authEpoch && (g.authEpoch <= g.currentEpoch || g.authEpoch == f.authEpoch)
  }

  /** Messages are removed, or are requests of a started election, or are pings. */
  predicate NetMoves(a: System, b: System) {
    forall m | m in b.net ::
      b.net[m] <= a.net[m] || m.Ping? ||
      (m.AuthRequest? && m.src in b.nodes && m.request.epoch <= b.nodes[m.src].authEpoch)
  }

  /** Counting state of every node but `n` is as before. */
  predicate CountsUnchangedBut(a: System, b: System, n: NodeId) {
    forall k | k in a.nodes && k in b.nodes && k != n ::
      a.nodes[k].authCount == b.nodes[k].authCount && a.nodes[k].authSent == b.nodes[k].authSent &&
      a.nodes[k].authEpoch == b.nodes[k].authEpoch && TallyOf(a, k) == TallyOf(b, k)
  }

  predicate CountsSame(a: System, b: System) {
    forall k | k in a.nodes && k in b.nodes ::
      a.nodes[k].authCount == b.nodes[k].authCount && a.nodes[k].authSent == b.nodes[k].authSent &&
      a.nodes[k].authEpoch == b.nodes[k].authEpoch && TallyOf(a, k) == TallyOf(b, k)
  }

  lemma FrameVotes(a: System, b: System)
    requires VotesInv(a) && Forward(a, b) && a.votes == b.votes
    ensures VotesInv(b)
  {}

  lemma FrameNet(a: System, b: System)
    requires NetInv(a) && Forward(a, b) && NetMoves(a, b) && a.votes == b.votes
    ensures NetInv(b)
  {
    forall m | m in b.net && m.AuthAck?
      ensures Vote(m.src, m.epoch, m.dst) in b.votes && b.net[m] == 1
    {
      assert m in a.net;
    }
    forall m | m in b.net && m.AuthRequest?
      ensures m.src in b.nodes && m.request.epoch <= b.nodes[m.src].authEpoch
    {
      if b.net[m] <= a.net[m] { assert m in a.net; }
    }
  }

  predicate TallyOk(sys: System, n: NodeId)
    requires n in sys.nodes
  {
    var f, t := sys.nodes[n], TallyOf(sys, n);
    f.authCount == |t.supporters| + t.stale &&
    (!f.authSent ==> t.supporters == {}) &&
    (forall v | v in t.supporters ::
       Vote(v, f.authEpoch, n) in sys.votes && AuthAck(v, n, f.authEpoch) !in sys.net)
  }

  lemma FrameTally(a: System, b: System, n: NodeId)
    requires TallyInv(a) && a.nodes.Keys == b.nodes.Keys && a.votes <= b.votes
    requires NetMoves(a, b) && CountsUnchangedBut(a, b, n)
    requires n in b.nodes ==> TallyOk(b, n)
    ensures TallyInv(b)
  {
    forall k | k in b.nodes ensures TallyOk(b, k) {
      if k != n {
        assert TallyOk(a, k);
        forall v | v in TallyOf(b, k).supporters ensures AuthAck(v, k, b.nodes[k].authEpoch) !in b.net {
          assert AuthAck(v, k, a.nodes[k].authEpoch) !in a.net;
        }
      }
    }
  }

  lemma FrameTallyAll(a: System, b: System)
    requires TallyInv(a) && a.nodes.Keys == b.nodes.Keys && a.votes <= b.votes
    requires NetMoves(a, b) && CountsSame(a, b)
    ensures TallyInv(b)
  {
    forall k | k in b.nodes ensures TallyOk(b, k) {
      assert TallyOk(a, k);
      forall v | v in TallyOf(b, k).supporters ensures AuthAck(v, k, b.nodes[k].authEpoch) !in b.net {
        assert AuthAck(v, k, a.nodes[k].authEpoch) !in a.net;
      }
    }
  }

  lemma TickMoves(sys: System, n: NodeId, s: Situation, req: VoteRequest, recipients: set<NodeId>)
    requires n in sys.nodes && sys.nodes[n].authEpoch <= sys.nodes[n].currentEpoch
    ensures var sys' := TickStep(sys, n, s, req, recipients);
            Forward(sys, sys') && NetMoves(sys, sys') && CountsUnchangedBut(sys, sys', n)
  {
    hide HandleSlaveFailover, Requests, Quorum;
    HandlerFacts(sys.nodes[n], |sys.voters|, s);
    var epoch := HandleSlaveFailover(sys.nodes[n], |sys.voters|, s).0.currentEpoch;
    RequestsContents(n, req.(epoch := epoch, forceAck := s.mfEnd), recipients);
  }

  lemma TickTally(sys: System, n: NodeId, s: Situation, req: VoteRequest, recipients: set<NodeId>)
    requires Inv(sys) && n in sys.nodes
    ensures var sys' := TickStep(sys, n, s, req, recipients);
            TallyOk(sys', n) && WinsInv(sys')
  {
    hide HandleSlaveFailover, Requests, Quorum;
    HandlerFacts(sys.nodes[n], |sys.voters|, s);
    var epoch := HandleSlaveFailover(sys.nodes[n], |sys.voters|, s).0.currentEpoch;
    RequestsContents(n, req.(epoch := epoch, forceAck := s.mfEnd), recipients);
    assert TallyOk(sys, n);
  }

  lemma TickInv(sys: System, n: NodeId, s: Situation, req: VoteRequest, recipients: set<NodeId>)
    requires Inv(sys) && n in sys.nodes
    ensures Inv(TickStep(sys, n, s, req, recipients))
  {
    var sys' := TickStep(sys, n, s, req, recipients);
    TickMoves(sys, n, s, req, recipients);
    TickTally(sys, n, s, req, recipients);
    assert sys'.votes == sys.votes && n in sys'.nodes && sys'.nodes.Keys == sys.nodes.Keys;
    hide *;
    assert Inv(sys') by {
      FrameVotes(sys, sys');
      FrameNet(sys, sys');
      FrameTally(sys, sys', n);
    }
  }

  lemma RequestVotesInv(sys: System, m: Message, view: VoteView)
    requires Inv(sys) && Enabled(sys, DeliverRequest(m, view))
    ensures VotesInv(RequestStep(sys, m, view))
  {
    hide TallyInv, WinsInv, SlotsAllow;
  }

  lemma FreshAck(sys: System, m: Message, view: VoteView)
    requires Inv(sys) && Enabled(sys, DeliverRequest(m, view))
    requires OnAuthRequest(sys.nodes[m.dst], view, m.request).1
    ensures var g := OnAuthRequest(sys.nodes[m.dst], view, m.request).0;
            g.currentEpoch == m.request.epoch &&
            (forall c :: Vote(m.dst, g.currentEpoch, c) !in sys.votes) &&
            (forall c :: AuthAck(m.dst, c, g.currentEpoch) !in sys.net)
  {
    hide TallyInv, WinsInv, SlotsAllow;
  }

  /** The vote changes nothing but the voter's header epoch and last vote. */
  lemma OnAuthRequestFacts(f: Failover, view: VoteView, req: VoteRequest)
    ensures var (g, granted) := OnAuthRequest(f, view, req);
            g.currentEpoch >= f.currentEpoch && g.authEpoch == f.authEpoch && g.authCount == f.authCount &&
            g.authSent == f.authSent && (!granted ==> g.lastVoteEpoch == f.lastVoteEpoch)
  {}

  lemma GrantNetInv(a: System, b: System, ack: Message)
    requires NetInv(a) && a.nodes.Keys == b.nodes.Keys && ack.AuthAck? && ack !in a.net
    requires forall n | n in a.nodes ::
               a.nodes[n].authEpoch == b.nodes[n].authEpoch && a.nodes[n].currentEpoch <= b.nodes[n].currentEpoch
    requires forall k | k in b.net :: k == ack || b.net[k] <= a.net[k]
    requires b.net[ack] == 1 && b.votes == a.votes + {Vote(ack.src, ack.epoch, ack.dst)}
    requires ack.dst in b.nodes && ack.epoch <= b.nodes[ack.dst].authEpoch
    ensures NetInv(b)
  {
    forall k | k in b.net && k.AuthAck? ensures Vote(k.src, k.epoch, k.dst) in b.votes && b.net[k] == 1 {
      if k != ack { assert k in a.net; }
    }
    forall k | k in b.net && k.AuthRequest?
      ensures k.src in b.nodes && k.request.epoch <= b.nodes[k.src].authEpoch
    {
      assert k in a.net;
    }
  }

  lemma RequestNetInv(sys: System, m: Message, view: VoteView)
    requires Inv(sys) && Enabled(sys, DeliverRequest(m, view))
    ensures NetInv(RequestStep(sys, m, view))
  {
    var (f, granted) := OnAuthRequest(sys.nodes[m.dst], view, m.request);
    var sys' := RequestStep(sys, m, view);
    OnAuthRequestFacts(sys.nodes[m.dst], view, m.request);
    if granted {
      FreshAck(sys, m, view);
      hide OnAuthRequest, TallyInv, WinsInv, VotesInv;
      GrantNetInv(sys, sys', AuthAck(m.dst, m.src, f.currentEpoch));
    } else {
      hide OnAuthRequest, TallyInv, WinsInv, VotesInv;
      FrameNet(sys, sys');
    }
  }

  lemma GrantTallyInv(a: System, b: System, ack: Message)
    requires TallyInv(a) && CountsSame(a, b) && a.nodes.Keys == b.nodes.Keys && a.votes <= b.votes
    requires ack.AuthAck? && Vote(ack.src, ack.epoch, ack.dst) !in a.votes
    requires forall k | k in b.net && k != ack :: k.AuthAck? ==> k in a.net
    ensures TallyInv(b)
  {
    forall k | k in b.nodes ensures TallyOk(b, k) {
      assert TallyOk(a, k);
      forall v | v in TallyOf(b, k).supporters ensures AuthAck(v, k, b.nodes[k].authEpoch) !in b.net {
        assert Vote(v, a.nodes[k].authEpoch, k) in a.votes && AuthAck(v, k, a.nodes[k].authEpoch) !in a.net;
      }
    }
  }

  lemma RequestFrame(sys: System, m: Message, view: VoteView)
    requires Enabled(sys, DeliverRequest(m, view))
    ensures var sys' := RequestStep(sys, m, view);
            CountsSame(sys, sys') && sys.nodes.Keys == sys'.nodes.Keys && sys.votes <= sys'.votes &&
            sys'.wins == sys.wins && sys'.voters == sys.voters
  {
    OnAuthRequestFacts(sys.nodes[m.dst], view, m.request);
    hide OnAuthRequest;
    assert forall k :: TallyOf(RequestStep(sys, m, view), k) == TallyOf(sys, k);
  }

  lemma MoreVotesWins(a: System, b: System)
    requires WinsInv(a) && a.wins == b.wins && a.votes <= b.votes && a.voters == b.voters
    ensures WinsInv(b)
  {
    hide Quorum;
  }

  lemma RequestTallyInv(sys: System, m: Message, view: VoteView)
    requires Inv(sys) && Enabled(sys, DeliverRequest(m, view))
    ensures TallyInv(RequestStep(sys, m, view)) && WinsInv(RequestStep(sys, m, view))
  {
    hide OnAuthRequest, TallyInv, VotesInv, NetInv, WinsInv, CountsSame;
    var (f, granted) := OnAuthRequest(sys.nodes[m.dst], view, m.request);
    var sys' := RequestStep(sys, m, view);
    RequestFrame(sys, m, view);
    MoreVotesWins(sys, sys');
    if granted {
      FreshAck(sys, m, view);
      GrantTallyInv(sys, sys', AuthAck(m.dst, m.src, f.currentEpoch));
    } else {
      RemovalMoves(sys, sys', m);
      FrameTallyAll(sys, sys');
    }
  }

  /** An acknowledgement that counts while votes are requested is a new vote of this very election. */
  lemma CountedAck(sys: System, m: Message)
    requires Inv(sys) && Enabled(sys, DeliverAck(m))
    requires CountsAck(sys.nodes[m.dst], m.src in sys.voters, m.epoch)
    ensures m.epoch == sys.nodes[m.dst].authEpoch
    ensures m.src !in TallyOf(sys, m.dst).supporters
    ensures Vote(m.src, m.epoch, m.dst) in sys.votes && m !in sys.net - multiset{m}
  {
    hide VotesInv, WinsInv;
  }

  lemma AckTally(sys: System, m: Message)
    requires Inv(sys) && Enabled(sys, DeliverAck(m))
    ensures TallyOk(AckStep(sys, m), m.dst)
  {
    var f, t, sys' := sys.nodes[m.dst], TallyOf(sys, m.dst), AckStep(sys, m);
    assert TallyOk(sys, m.dst);
    if CountsAck(f, m.src in sys.voters, m.epoch) { CountedAck(sys, m); }
    hide Inv;
    assert forall k :: k !in sys.net ==> k !in sys'.net;
    if CountsAck(f, m.src in sys.voters, m.epoch) && f.authSent {
      assert |t.supporters + {m.src}| == |t.supporters| + 1;
    }
  }

  lemma AckMoves(sys: System, m: Message)
    requires Enabled(sys, DeliverAck(m))
    ensures var sys' := AckStep(sys, m);
            Forward(sys, sys') && NetMoves(sys, sys') && CountsUnchangedBut(sys, sys', m.dst)
  {
    var f, sys' := sys.nodes[m.dst], AckStep(sys, m);
    var g := OnAuthAck(f, m.src in sys.voters, m.epoch);
    assert g.currentEpoch >= f.currentEpoch && g.authEpoch == f.authEpoch && g.lastVoteEpoch == f.lastVoteEpoch;
    assert sys'.net == sys.net - multiset{m} && sys'.nodes == sys.nodes[m.dst := g];
    assert forall k | k != m.dst :: TallyOf(sys', k) == TallyOf(sys, k);
    hide AckStep, OnAuthAck, TallyOf;
    assert Forward(sys, sys');
    assert NetMoves(sys, sys');
    assert CountsUnchangedBut(sys, sys', m.dst);
  }

  lemma AckFrame(sys: System, m: Message)
    requires Enabled(sys, DeliverAck(m))
    ensures var sys' := AckStep(sys, m);
            sys'.votes == sys.votes && sys'.wins == sys.wins && sys'.voters == sys.voters &&
            m.dst in sys'.nodes && sys'.nodes.Keys == sys.nodes.Keys
  {
    hide OnAuthAck, CountsAck, TallyOf;
  }

  lemma AckInv(sys: System, m: Message)
    requires Inv(sys) && Enabled(sys, DeliverAck(m))
    ensures Inv(AckStep(sys, m))
  {
    hide AckStep, VotesInv, NetInv, TallyInv, WinsInv, Forward, NetMoves, CountsUnchangedBut, TallyOk;
    var sys' := AckStep(sys, m);
    AckTally(sys, m);
    AckMoves(sys, m);
    AckFrame(sys, m);
    MoreVotesWins(sys, sys');
    FrameVotes(sys, sys');
    FrameNet(sys, sys');
    FrameTally(sys, sys', m.dst);
  }

  predicate IsOther(e: Event) { e.DeliverPing? || e.SendPing? || e.Bump? || e.Lose? }

  lemma RemovalMoves(a: System, b: System, m: Message)
    requires b.net == a.net - multiset{m}
    ensures NetMoves(a, b)
  {}

  lemma OtherNet(sys: System, e: Event)
    requires Enabled(sys, e) && IsOther(e)
    ensures NetMoves(sys, Next(sys, e))
  {
    if e.DeliverPing? || e.Lose? { RemovalMoves(sys, Next(sys, e), e.msg); }
  }

  /** What a ping, a bump or a loss leaves alone. */
  predicate OnlyNodesAndNet(a: System, b: System) {
    b == a.(nodes := b.nodes, net := b.net) && b.nodes.Keys == a.nodes.Keys
  }

  lemma OneNodeMoves(sys: System, n: NodeId, f: Failover, net: multiset<Message>)
    requires n in sys.nodes
    ensures OnlyNodesAndNet(sys, sys.(nodes := sys.nodes[n := f], net := net))
  {
    assert sys.nodes[n := f].Keys == sys.nodes.Keys;
  }

  lemma OtherFrame(sys: System, e: Event)
    requires Enabled(sys, e) && IsOther(e)
    ensures OnlyNodesAndNet(sys, Next(sys, e))
  {
    hide TickStep, RequestStep, AckStep, OnlyNodesAndNet, OnHeader;
    match e
    case DeliverPing(m) => OneNodeMoves(sys, m.dst, OnHeader(sys.nodes[m.dst], m.epoch), sys.net - multiset{m});
    case Bump(n) =>
      OneNodeMoves(sys, n, sys.nodes[n].(currentEpoch := sys.nodes[n].currentEpoch + 1), sys.net);
    case SendPing(a, b) => SameNodes(sys, sys.net + multiset{Ping(a, b, sys.nodes[a].currentEpoch)});
    case Lose(m) => SameNodes(sys, sys.net - multiset{m});
  }

  lemma SameNodes(sys: System, net: multiset<Message>)
    ensures OnlyNodesAndNet(sys, sys.(net := net))
  {}

  /** A ping or a bump can only raise a current epoch. */
  lemma OtherNodes(sys: System, e: Event, n: NodeId)
    requires Enabled(sys, e) && IsOther(e) && n in sys.nodes
    ensures n in Next(sys, e).nodes
    ensures var f, g := sys.nodes[n], Next(sys, e).nodes[n];
            g == f.(currentEpoch := g.currentEpoch) && f.currentEpoch <= g.currentEpoch
  {
    hide TickStep, RequestStep, AckStep;
  }

  lemma OtherMoves(sys: System, e: Event)
    requires Enabled(sys, e) && IsOther(e)
    ensures var sys' := Next(sys, e);
            Forward(sys, sys') && CountsSame(sys, sys') && sys'.votes == sys.votes && sys'.wins == sys.wins
  {
    hide Next, Enabled;
    var sys' := Next(sys, e);
    OtherFrame(sys, e);
    forall n | n in sys.nodes
      ensures n in sys'.nodes && sys'.nodes[n] == sys.nodes[n].(currentEpoch := sys'.nodes[n].currentEpoch)
      ensures sys.nodes[n].currentEpoch <= sys'.nodes[n].currentEpoch
    {
      OtherNodes(sys, e, n);
    }
    assert forall n :: TallyOf(sys', n) == TallyOf(sys, n);
  }

  lemma OtherInv(sys: System, e: Event)
    requires Inv(sys) && Enabled(sys, e) && IsOther(e)
    ensures Inv(Next(sys, e))
  {
    var sys' := Next(sys, e);
    OtherMoves(sys, e);
    OtherNet(sys, e);
    assert WinsInv(sys');
    hide Next, VotesInv, NetInv, WinsInv, TallyInv;
    FrameVotes(sys, sys');
    FrameNet(sys, sys');
    FrameTallyAll(sys, sys');
  }

  lemma StepInv(sys: System, e: Event)
    requires Inv(sys) && Enabled(sys, e)
    ensures Inv(Next(sys, e))
  {
    hide Inv, TickStep, RequestStep, AckStep;
    match e
    case Tick(n, s, req, recipients) => TickInv(sys, n, s, req, recipients);
    case DeliverRequest(m, view) => RequestInv(sys, m, view);
    case DeliverAck(m) => AckInv(sys, m);
    case _ => OtherInv(sys, e);
  }

  lemma RequestInv(sys: System, m: Message, view: VoteView)
    requires Inv(sys) && Enabled(sys, DeliverRequest(m, view))
    ensures Inv(RequestStep(sys, m, view))
  {
    hide RequestStep, VotesInv, NetInv, TallyInv, WinsInv;
    RequestVotesInv(sys, m, view);
    RequestNetInv(sys, m, view);
    RequestTallyInv(sys, m, view);
  }

  lemma {:induction false} RunInv(sys: System, run: seq<Event>)
    requires Inv(sys) && IsRun(sys, run)
    ensures Inv(Final(sys, run))
    decreases |run|
  {
    hide Inv, Next;
    if run != [] {
      StepInv(sys, run[0]);
      RunInv(Next(sys, run[0]), run[1..]);
    }
  }

  // ------------------------------------------------------- What votes and wins rest on

  predicate Justified(v: Vote, r: Reason) {
    r.request.epoch == v.epoch && MayAsk(r.view, r.request) && NoNewerOwner(r.view, r.request)
  }

  /** Every vote was granted on a request of its epoch by a replica that may ask, without a claim
      to a slot of which the voter knew a newer owner. */
  predicate ReasonsInv(sys: System) {
    forall v | v in sys.votes :: v in sys.reasons && Justified(v, sys.reasons[v])
  }

  /** Every winner is a master under an epoch that is not below that of its election. */
  predicate WinnersInv(sys: System) {
    forall w | w in sys.wins ::
      w.candidate in sys.nodes && sys.nodes[w.candidate].isMaster && w.epoch <= sys.nodes[w.candidate].configEpoch
  }

  lemma RequestReasons(sys: System, m: Message, view: VoteView)
    requires Inv(sys) && ReasonsInv(sys) && Enabled(sys, DeliverRequest(m, view))
    ensures ReasonsInv(RequestStep(sys, m, view))
  {
    GrantedExactly(sys.nodes[m.dst], view, m.request);
    hide OnAuthRequest, Inv, MayAsk, NoNewerOwner;
  }

  lemma TickWinners(sys: System, n: NodeId, s: Situation, req: VoteRequest, recipients: set<NodeId>)
    requires WinnersInv(sys) && n in sys.nodes
    ensures WinnersInv(TickStep(sys, n, s, req, recipients))
  {
    MasterStays(sys.nodes[n], |sys.voters|, s);
    hide HandleSlaveFailover, Requests;
  }

  lemma MasterStays(f: Failover, size: nat, s: Situation)
    ensures var (g, action) := HandleSlaveFailover(f, size, s);
            (f.isMaster ==> g.isMaster) && f.configEpoch <= g.configEpoch &&
            (action == Promoted ==> g.isMaster && g.authEpoch <= g.configEpoch)
  {
  }

  lemma StepReasons(sys: System, e: Event)
    requires Inv(sys) && ReasonsInv(sys) && WinnersInv(sys) && Enabled(sys, e)
    ensures ReasonsInv(Next(sys, e)) && WinnersInv(Next(sys, e))
  {
    match e
    case Tick(n, s, req, recipients) =>
      TickWinners(sys, n, s, req, recipients);
      TickVotes(sys, n, s, req, recipients);
    case DeliverRequest(m, view) =>
      RequestReasons(sys, m, view);
      RequestWinners(sys, m, view);
    case DeliverAck(m) => AckReasons(sys, m);
    case _ => OtherReasons(sys, e);
  }

  lemma TickVotes(sys: System, n: NodeId, s: Situation, req: VoteRequest, recipients: set<NodeId>)
    requires ReasonsInv(sys) && n in sys.nodes
    ensures ReasonsInv(TickStep(sys, n, s, req, recipients))
  {
    hide HandleSlaveFailover, Requests, Justified;
  }

  lemma RequestWinners(sys: System, m: Message, view: VoteView)
    requires WinnersInv(sys) && m.AuthRequest? && m.dst in sys.nodes
    ensures WinnersInv(RequestStep(sys, m, view))
  {
    var f := sys.nodes[m.dst];
    assert OnAuthRequest(f, view, m.request).0.isMaster == f.isMaster;
    assert OnAuthRequest(f, view, m.request).0.configEpoch == f.configEpoch;
    hide OnAuthRequest;
  }

  lemma AckReasons(sys: System, m: Message)
    requires ReasonsInv(sys) && WinnersInv(sys) && m.AuthAck? && m.dst in sys.nodes
    ensures ReasonsInv(AckStep(sys, m)) && WinnersInv(AckStep(sys, m))
  {
    hide Justified;
  }

  lemma OtherReasons(sys: System, e: Event)
    requires ReasonsInv(sys) && WinnersInv(sys) && Enabled(sys, e) && IsOther(e)
    ensures ReasonsInv(Next(sys, e)) && WinnersInv(Next(sys, e))
  {
    OtherFrame(sys, e);
    forall w | w in sys.wins { OtherNodes(sys, e, w.candidate); }
    hide Next, Enabled, Justified;
  }

  lemma {:induction false} RunReasons(sys: System, run: seq<Event>)
    requires Inv(sys) && ReasonsInv(sys) && WinnersInv(sys) && IsRun(sys, run)
    ensures ReasonsInv(Final(sys, run)) && WinnersInv(Final(sys, run))
    decreases |run|
  {
    hide Inv, Next, ReasonsInv, WinnersInv;
    if run != [] {
      StepInv(sys, run[0]);
      StepReasons(sys, run[0]);
      RunReasons(Next(sys, run[0]), run[1..]);
    }
  }

  /** Over every run: a winner is a master under the epoch of its election or a newer one, and no
      supporter of it knew of a newer owner of a slot that the request claimed, or of a master
      that was up unless the request was forced. */
  lemma WinsAreSound(sys: System, run: seq<Event>, w: Win, v: NodeId)
    requires Init(sys) && IsRun(sys, run) && w in Final(sys, run).wins && v in w.supporters
    ensures var end := Final(sys, run);
            w.candidate in end.nodes && end.nodes[w.candidate].isMaster &&
            w.epoch <= end.nodes[w.candidate].configEpoch &&
            var vote := Vote(v, w.epoch, w.candidate);
            vote in end.reasons &&
            var r := end.reasons[vote];
            r.request.epoch == w.epoch && (r.view.senderMasterFailed || r.request.forceAck) &&
            forall j | 0 <= j < |r.request.claimed| && j < |r.view.owners| ::
              r.request.claimed[j] && r.view.owners[j].Some? ==> r.view.owners[j].value <= r.request.configEpoch
  {
    InitInv(sys);
    RunInv(sys, run);
    RunReasons(sys, run);
    hide IsRun, Final;
    assert Vote(v, w.epoch, w.candidate) in Final(sys, run).votes;
  }

  // ---------------------------------------------------------------------- Safety

  /** Two winners of one epoch share no supporter, so together they must have counted
      at least as many stale acknowledgements as two quorums exceed the electorate. */
  lemma SameEpochWinsNeedStaleAcks(sys: System, w1: Win, w2: Win)
    requires Inv(sys) && w1 in sys.wins && w2 in sys.wins
    requires w1.epoch == w2.epoch && w1.candidate != w2.candidate
    ensures w1.stale + w2.stale >= 2 * Quorum(|sys.voters|) - |sys.voters|
    ensures w1.stale + w2.stale >= 1
  {
    assert forall v | v in w1.supporters :: Vote(v, w1.epoch, w1.candidate) in sys.votes;
    assert forall v | v in w2.supporters :: Vote(v, w1.epoch, w2.candidate) in sys.votes;
    forall v | v in w1.supporters + w2.supporters ensures v in sys.voters {
      assert Vote(v, w1.epoch, w1.candidate) in sys.votes || Vote(v, w1.epoch, w2.candidate) in sys.votes;
    }
    assert w1.supporters * w2.supporters == {};
    assert |w1.supporters + w2.supporters| == |w1.supporters| + |w2.supporters|;
    SubsetSize(w1.supporters + w2.supporters, sys.voters);
  }

  lemma SubsetSize<T>(a: set<T>, b: set<T>)
    requires a <= b
    ensures |a| <= |b|
  {
    assert b == a + (b - a);
    assert |b| == |a| + |b - a|;
  }

  /** The acknowledgement would be counted while no election is running. */
  predicate InStaleWindow(sys: System, e: Event) {
    e.DeliverAck? && e.msg.AuthAck? && e.msg.dst in sys.nodes && !sys.nodes[e.msg.dst].authSent &&
    CountsAck(sys.nodes[e.msg.dst], e.msg.src in sys.voters, e.msg.epoch)
  }

  function StaleHere(sys: System, e: Event): nat { if InStaleWindow(sys, e) then 1 else 0 }

  function StaleHereTo(sys: System, e: Event, n: NodeId): nat {
    if InStaleWindow(sys, e) && e.msg.dst == n then 1 else 0
  }

  /** How many acknowledgements arrive in the window in a run. */
  function WindowAcks(sys: System, run: seq<Event>): nat
    requires IsRun(sys, run)
    decreases |run|
  {
    if run == [] then 0 else StaleHere(sys, run[0]) + WindowAcks(Next(sys, run[0]), run[1..])
  }

  /** The same, of one replica. */
  function WindowAcksTo(sys: System, run: seq<Event>, n: NodeId): nat
    requires IsRun(sys, run)
    decreases |run|
  {
    if run == [] then 0 else StaleHereTo(sys, run[0], n) + WindowAcksTo(Next(sys, run[0]), run[1..], n)
  }

  lemma {:induction false} TwoReplicas(sys: System, run: seq<Event>, a: NodeId, b: NodeId)
    requires IsRun(sys, run) && a != b
    ensures WindowAcksTo(sys, run, a) + WindowAcksTo(sys, run, b) <= WindowAcks(sys, run)
    decreases |run|
  {
    hide InStaleWindow, Next;
    if run != [] { TwoReplicas(Next(sys, run[0]), run[1..], a, b); }
  }

  predicate StaleAtMost(sys: System, n: NodeId, k: nat) {
    TallyOf(sys, n).stale <= k && forall w | w in sys.wins && w.candidate == n :: w.stale <= k
  }

  lemma StaleStep(sys: System, e: Event, n: NodeId, k: nat)
    requires Enabled(sys, e) && StaleAtMost(sys, n, k)
    ensures StaleAtMost(Next(sys, e), n, k + StaleHereTo(sys, e, n))
  {
    hide HandleSlaveFailover, Requests, OnAuthRequest, OnAuthAck;
  }

  lemma {:induction false} RunStale(sys: System, run: seq<Event>, n: NodeId, k: nat)
    requires IsRun(sys, run) && StaleAtMost(sys, n, k)
    ensures StaleAtMost(Final(sys, run), n, k + WindowAcksTo(sys, run, n))
    decreases |run|
  {
    hide StaleAtMost, Next, StaleHereTo;
    if run != [] {
      StaleStep(sys, run[0], n, k);
      RunStale(Next(sys, run[0]), run[1..], n, k + StaleHereTo(sys, run[0], n));
    }
  }

  predicate OneWinnerPerEpoch(sys: System) {
    forall w1, w2 | w1 in sys.wins && w2 in sys.wins && w1.epoch == w2.epoch :: w1.candidate == w2.candidate
  }

  /** By how much two quorums exceed the electorate: one if its size is odd, two if even. */
  function Excess(size: nat): nat { 2 * Quorum(size) - size }

  /** Two winners of one epoch need that many answers in the window. */
  lemma TwoWinnersNeedStaleAcks(sys: System, run: seq<Event>, w1: Win, w2: Win)
    requires Init(sys) && IsRun(sys, run) && w1 in Final(sys, run).wins && w2 in Final(sys, run).wins
    requires w1.epoch == w2.epoch && w1.candidate != w2.candidate
    ensures WindowAcks(sys, run) >= Excess(|sys.voters|)
  {
    hide IsRun, Final, WindowAcks, WindowAcksTo, Inv, Quorum;
    InitInv(sys);
    RunInv(sys, run);
    RunVoters(sys, run);
    SameEpochWinsNeedStaleAcks(Final(sys, run), w1, w2);
    RunStale(sys, run, w1.candidate, 0);
    RunStale(sys, run, w2.candidate, 0);
    TwoReplicas(sys, run, w1.candidate, w2.candidate);
  }

  /** Election safety: no epoch has two winners, over every run in which fewer answers than
      that arrive in the window. */
  lemma ElectionSafety(sys: System, run: seq<Event>)
    requires Init(sys) && IsRun(sys, run) && WindowAcks(sys, run) < Excess(|sys.voters|)
    ensures OneWinnerPerEpoch(Final(sys, run))
  {
    hide Init, IsRun, Final, WindowAcks, Excess;
    var end := Final(sys, run);
    forall w1, w2 | w1 in end.wins && w2 in end.wins && w1.epoch == w2.epoch
      ensures w1.candidate == w2.candidate
    {
      if w1.candidate != w2.candidate { TwoWinnersNeedStaleAcks(sys, run, w1, w2); }
    }
  }

  lemma {:induction false} RunVoters(sys: System, run: seq<Event>)
    requires IsRun(sys, run)
    ensures Final(sys, run).voters == sys.voters
    decreases |run|
  {
    if run != [] { RunVoters(Next(sys, run[0]), run[1..]); }
  }

  // ------------------------------------------------- The window does break safety

  /** One can get from `a` to `b` with at most `k` answers arriving in the window. */
  ghost predicate Reaches(a: System, b: System, k: nat) {
    exists run :: IsRun(a, run) && Final(a, run) == b && WindowAcks(a, run) <= k
  }

  lemma {:induction false} RunConcat(sys: System, a: seq<Event>, b: seq<Event>)
    requires IsRun(sys, a) && IsRun(Final(sys, a), b)
    ensures IsRun(sys, a + b) && Final(sys, a + b) == Final(Final(sys, a), b)
    ensures WindowAcks(sys, a + b) == WindowAcks(sys, a) + WindowAcks(Final(sys, a), b)
    decreases |a|
  {
    hide Next, Enabled, InStaleWindow;
    if a == [] {
      assert a + b == b;
    } else {
      assert (a + b)[1..] == a[1..] + b;
      RunConcat(Next(sys, a[0]), a[1..], b);
    }
  }

  lemma ReachesSelf(a: System)
    ensures Reaches(a, a, 0)
  {
    var run: seq<Event> := [];
    assert IsRun(a, run) && Final(a, run) == a;
  }

  lemma OneEvent(a: System, e: Event)
    requires Enabled(a, e)
    ensures IsRun(a, [e]) && Final(a, [e]) == Next(a, e) && WindowAcks(a, [e]) == StaleHere(a, e)
  {
    hide Next, Enabled, StaleHere;
    assert [e][1..] == [];
    var b := Next(a, e);
    assert IsRun(b, []) && Final(b, []) == b && WindowAcks(b, []) == 0;
  }

  lemma ReachesNext(a: System, e: Event)
    requires Enabled(a, e)
    ensures Reaches(a, Next(a, e), if InStaleWindow(a, e) then 1 else 0)
  {
    hide Next, Enabled, InStaleWindow, IsRun, Final, WindowAcks;
    OneEvent(a, e);
  }

  lemma ReachesOn(a: System, b: System, c: System, j: nat, k: nat)
    requires Reaches(a, b, j) && Reaches(b, c, k)
    ensures Reaches(a, c, j + k)
  {
    hide Next, Enabled, InStaleWindow, IsRun, Final, WindowAcks;
    var r1 :| IsRun(a, r1) && Final(a, r1) == b && WindowAcks(a, r1) <= j;
    var r2 :| IsRun(b, r2) && Final(b, r2) == c && WindowAcks(b, r2) <= k;
    RunConcat(a, r1, r2);
  }

  const SLOTS := 16384

  const Idle := Failover(false, 0, 0, 0, 0, 0, false, 0, 0)
  const Serving := Idle.(isMaster := true)

  /** A manual failover, so that every master answers, that of the replica too. */
  function At(now: int): Situation {
    Situation(now, 1000, true, true, true, false, true, false, 0, 0, 0, 0, 0)
  }

  function Ask(epoch: Epoch): VoteRequest { VoteRequest(epoch, 0, seq(SLOTS, _ => true), true) }

  const Willing := VoteView(true, false, true, false, 4000, 1000, seq(SLOTS, _ => Some(0)))

  /** The masters and two replicas, before any election. */
  function Start(voters: set<NodeId>, a: NodeId, b: NodeId): System {
    System(voters, map n | n in voters + {a, b} :: if n in voters then Serving else Idle, multiset{}, {}, map[], map[],
           {})
  }

  /** `b` has the nodes of `a` but those in `moved`, its wins, and its messages but those that
      replica `c` asked or was answered. */
  predicate Kept(a: System, b: System, moved: set<NodeId>, c: NodeId) {
    a.voters == b.voters && a.wins <= b.wins && a.nodes.Keys == b.nodes.Keys &&
    (forall n | n in a.nodes && n !in moved :: b.nodes[n] == a.nodes[n]) &&
    forall m | m in a.net && m.AuthRequest? && m.src != c :: m in b.net
  }

  function Elems(vs: seq<NodeId>): set<NodeId> { set v | v in vs }

  predicate NoRepeats(vs: seq<NodeId>) {
    forall i, j | 0 <= i < j < |vs| :: vs[i] != vs[j]
  }

  predicate Open(sys: System, v: NodeId, e: Epoch) {
    v in sys.voters && v in sys.nodes && sys.nodes[v].currentEpoch <= e && sys.nodes[v].lastVoteEpoch < e
  }

  lemma VoteEvent(sys: System, v: NodeId, c: NodeId, e: Epoch)
    requires AuthRequest(c, v, Ask(e)) in sys.net && Open(sys, v, e)
    ensures var ev := DeliverRequest(AuthRequest(c, v, Ask(e)), Willing);
            Enabled(sys, ev) && !InStaleWindow(sys, ev) &&
            var next := Next(sys, ev);
            next.voters == sys.voters && next.wins == sys.wins &&
            next.nodes == sys.nodes[v := sys.nodes[v].(currentEpoch := e, lastVoteEpoch := e)] &&
            next.net == sys.net - multiset{AuthRequest(c, v, Ask(e))} + multiset{AuthAck(v, c, e)}
  {
    var f := sys.nodes[v];
    assert Ask(e).epoch == e && SlotsAllow(Willing, Ask(e));
    hide SlotsAllow, Ask;
    assert OnAuthRequest(f, Willing, Ask(e)) == (f.(currentEpoch := e, lastVoteEpoch := e), true);
    hide OnAuthRequest;
  }

  /** From `a` to `b` the masters `vs` have answered replica `c`; the answers are in flight. */
  predicate Answered(a: System, b: System, c: NodeId, e: Epoch, vs: seq<NodeId>) {
    Kept(a, b, Elems(vs), c) && (forall m | m in a.net && m.AuthAck? :: m in b.net) &&
    forall v | v in vs ::
      v in b.nodes && v in a.nodes && AuthAck(v, c, e) in b.net &&
      b.nodes[v] == a.nodes[v].(currentEpoch := e, lastVoteEpoch := e)
  }

  predicate Asking(sys: System, c: NodeId, e: Epoch, vs: seq<NodeId>) {
    forall v | v in vs :: AuthRequest(c, v, Ask(e)) in sys.net && Open(sys, v, e)
  }

  lemma StillAskingRest(sys: System, next: System, c: NodeId, e: Epoch, vs: seq<NodeId>)
    requires NoRepeats(vs) && vs != [] && Asking(sys, c, e, vs) && next.voters == sys.voters && vs[0] in sys.nodes
    requires next.nodes == sys.nodes[vs[0] := sys.nodes[vs[0]].(currentEpoch := e, lastVoteEpoch := e)]
    requires next.net == sys.net - multiset{AuthRequest(c, vs[0], Ask(e))} + multiset{AuthAck(vs[0], c, e)}
    ensures NoRepeats(vs[1..]) && vs[0] !in vs[1..] && Asking(next, c, e, vs[1..])
  {
    hide Ask;
  }

  lemma AnsweredFirst(sys: System, next: System, end: System, c: NodeId, e: Epoch, vs: seq<NodeId>)
    requires vs != [] && vs[0] !in vs[1..] && Answered(next, end, c, e, vs[1..])
    requires next.voters == sys.voters && next.wins == sys.wins && vs[0] in sys.nodes
    requires next.nodes == sys.nodes[vs[0] := sys.nodes[vs[0]].(currentEpoch := e, lastVoteEpoch := e)]
    requires next.net == sys.net - multiset{AuthRequest(c, vs[0], Ask(e))} + multiset{AuthAck(vs[0], c, e)}
    ensures Answered(sys, end, c, e, vs)
  {
    hide Ask;
    assert forall v | v in vs :: v == vs[0] || v in vs[1..];
  }

  lemma {:induction false} VoteBatch(sys: System, c: NodeId, e: Epoch, vs: seq<NodeId>) returns (end: System)
    requires NoRepeats(vs) && Asking(sys, c, e, vs)
    ensures Reaches(sys, end, 0) && Answered(sys, end, c, e, vs)
    decreases |vs|
  {
    hide Next, Enabled, InStaleWindow, Reaches, Ask;
    if vs == [] {
      ReachesSelf(sys);
      end := sys;
    } else {
      var ev := DeliverRequest(AuthRequest(c, vs[0], Ask(e)), Willing);
      VoteEvent(sys, vs[0], c, e);
      ReachesNext(sys, ev);
      StillAskingRest(sys, Next(sys, ev), c, e, vs);
      end := VoteBatch(Next(sys, ev), c, e, vs[1..]);
      AnsweredFirst(sys, Next(sys, ev), end, c, e, vs);
      ReachesOn(sys, Next(sys, ev), end, 0, 0);
    }
  }

  lemma AckEvent(sys: System, v: NodeId, c: NodeId, e: Epoch)
    requires AuthAck(v, c, e) in sys.net && v in sys.voters && c in sys.nodes
    requires sys.nodes[c].authEpoch <= e <= sys.nodes[c].currentEpoch
    ensures var ev := DeliverAck(AuthAck(v, c, e));
            Enabled(sys, ev) && (InStaleWindow(sys, ev) <==> !sys.nodes[c].authSent) &&
            var next := Next(sys, ev);
            next.voters == sys.voters && next.wins == sys.wins &&
            next.nodes == sys.nodes[c := sys.nodes[c].(authCount := sys.nodes[c].authCount + 1)] &&
            next.net == sys.net - multiset{AuthAck(v, c, e)}
  {}

  /** The answers of `vs` arrive. */
  lemma {:induction false} AckBatch(sys: System, c: NodeId, e: Epoch, vs: seq<NodeId>) returns (end: System)
    requires NoRepeats(vs) && forall v | v in vs :: AuthAck(v, c, e) in sys.net && v in sys.voters
    requires c in sys.nodes && sys.nodes[c].authEpoch <= e <= sys.nodes[c].currentEpoch
    ensures Reaches(sys, end, if sys.nodes[c].authSent then 0 else |vs|) && Kept(sys, end, {c}, c)
    ensures c in end.nodes && end.nodes[c] == sys.nodes[c].(authCount := sys.nodes[c].authCount + |vs|)
    decreases |vs|
  {
    hide Next, Enabled, InStaleWindow, Reaches;
    if vs == [] {
      ReachesSelf(sys);
      end := sys;
    } else {
      var v, rest := vs[0], vs[1..];
      AckEvent(sys, v, c, e);
      var next := Next(sys, DeliverAck(AuthAck(v, c, e)));
      ReachesNext(sys, DeliverAck(AuthAck(v, c, e)));
      assert v !in rest;
      end := AckBatch(next, c, e, rest);
      if sys.nodes[c].authSent {
        ReachesOn(sys, next, end, 0, 0);
      } else {
        ReachesOn(sys, next, end, 1, |rest|);
      }
    }
  }

  predicate Won(sys: System, n: NodeId, e: Epoch) {
    exists w :: w in sys.wins && w.epoch == e && w.candidate == n
  }

  /** A tick of replica `c` at time `now`. */
  function TickAt(c: NodeId, now: int, vs: set<NodeId>): Event { Tick(c, At(now), Ask(0), vs) }

  /** The first attempt, or one after the last has expired, is set up for this very time. */
  lemma ScheduleEvent(sys: System, c: NodeId, now: int) returns (end: System)
    requires c in sys.nodes && !sys.nodes[c].isMaster && now - sys.nodes[c].authTime > 4000
    ensures Reaches(sys, end, 0) && Kept(sys, end, {c}, c) && end.net == sys.net
    ensures c in end.nodes && end.nodes[c] ==
              sys.nodes[c].(authCount := 0, authSent := false, authRank := 0, authTime := now)
  {
    hide Ask, Reaches;
    var f := sys.nodes[c];
    assert HandleSlaveFailover(f, |sys.voters|, At(now)) ==
           (f.(authCount := 0, authSent := false, authRank := 0, authTime := now), Scheduled);
    hide HandleSlaveFailover;
    end := Next(sys, TickAt(c, now, {}));
    ReachesNext(sys, TickAt(c, now, {}));
  }

  lemma AskEvent(sys: System, c: NodeId, now: int, vs: seq<NodeId>) returns (end: System)
    requires c in sys.nodes && !sys.nodes[c].isMaster && sys.nodes[c].authTime == now && !sys.nodes[c].authSent
    ensures var e := sys.nodes[c].currentEpoch + 1;
            Reaches(sys, end, 0) && Kept(sys, end, {c}, c) && c in end.nodes &&
            end.nodes[c] == sys.nodes[c].(currentEpoch := e, authEpoch := e, authSent := true) &&
            (forall v | v in vs :: AuthRequest(c, v, Ask(e)) in end.net)
    ensures forall m | m in sys.net :: m in end.net
  {
    hide Reaches;
    var f, e := sys.nodes[c], sys.nodes[c].currentEpoch + 1;
    var ds := Elems(vs);
    assert HandleSlaveFailover(f, |sys.voters|, At(now)) ==
           (f.(currentEpoch := e, authEpoch := e, authSent := true), VotesRequested);
    assert Ask(0).(epoch := e, forceAck := At(now).mfEnd) == Ask(e);
    hide HandleSlaveFailover, Ask;
    end := Next(sys, TickAt(c, now, ds));
    ReachesNext(sys, TickAt(c, now, ds));
    forall v | v in vs ensures AuthRequest(c, v, Ask(e)) in end.net {
      assert AuthRequest(c, v, Ask(e)) in Requests(c, Ask(e), ds);
    }
  }

  lemma WinEvent(sys: System, c: NodeId, now: int) returns (end: System)
    requires c in sys.nodes && !sys.nodes[c].isMaster && sys.nodes[c].authSent
    requires sys.nodes[c].authTime <= now <= sys.nodes[c].authTime + 2000
    requires sys.nodes[c].authCount >= Quorum(|sys.voters|)
    ensures Reaches(sys, end, 0) && Kept(sys, end, {c}, c) && Won(end, c, sys.nodes[c].authEpoch)
  {
    hide Ask, Reaches;
    var f := sys.nodes[c];
    var (g, action) := HandleSlaveFailover(f, |sys.voters|, At(now));
    assert action == Promoted && g.authEpoch == f.authEpoch;
    hide HandleSlaveFailover, Quorum;
    end := Next(sys, TickAt(c, now, {}));
    ReachesNext(sys, TickAt(c, now, {}));
    assert Win(c, f.authEpoch, TallyOf(sys, c).supporters, TallyOf(sys, c).stale) in end.wins;
  }

  lemma PingEvents(sys: System, a: NodeId, b: NodeId) returns (end: System)
    requires a in sys.nodes && b in sys.nodes && sys.nodes[a].currentEpoch >= sys.nodes[b].currentEpoch
    ensures Reaches(sys, end, 0) && Kept(sys, end, {b}, b) && (forall m | m in sys.net :: m in end.net)
    ensures b in end.nodes && end.nodes[b] == sys.nodes[b].(currentEpoch := sys.nodes[a].currentEpoch)
  {
    hide Reaches;
    var e := sys.nodes[a].currentEpoch;
    var s := Next(sys, SendPing(a, b));
    end := Next(s, DeliverPing(Ping(a, b, e)));
    ReachesNext(sys, SendPing(a, b));
    ReachesNext(s, DeliverPing(Ping(a, b, e)));
    ReachesOn(sys, s, end, 0, 0);
  }

  /** Nothing has happened to the masters and replica `b` but votes of epoch 1 and a ping. */
  predicate Halfway(sys: System, vs: seq<NodeId>, b: NodeId) {
    sys.voters == Elems(vs) && (forall v | v in vs :: Open(sys, v, 2)) &&
    b in sys.nodes && sys.nodes[b] == Idle.(currentEpoch := 1)
  }

  /** The masters, in some order, and two replicas. */
  predicate Cast(vs: seq<NodeId>, a: NodeId, b: NodeId) {
    NoRepeats(vs) && a !in vs && b !in vs && a != b
  }

  lemma Asks(vs: seq<NodeId>, a: NodeId, b: NodeId, late: nat) returns (end: System)
    requires Cast(vs, a, b) && late <= |vs|
    ensures Reaches(Start(Elems(vs), a, b), end, 0) && end.voters == Elems(vs) && a in end.nodes && b in end.nodes
    ensures forall v | v in vs :: v in end.nodes && end.nodes[v] == Serving
    ensures end.nodes[a] == Idle.(currentEpoch := 1, authEpoch := 1, authSent := true, authTime := 10000)
    ensures end.nodes[b] == Idle && Asking(end, a, 1, vs[..late])
  {
    hide Reaches, Ask, At;
    var s0 := Start(Elems(vs), a, b);
    var s1 := ScheduleEvent(s0, a, 10000);
    end := AskEvent(s1, a, 10000, vs[..late]);
    ReachesOn(s0, s1, end, 0, 0);
  }

  /** Replica `a` asks the first masters for epoch 1; their answers are on the way. */
  lemma FirstAttempt(vs: seq<NodeId>, a: NodeId, b: NodeId, late: nat) returns (end: System)
    requires Cast(vs, a, b) && late <= |vs|
    ensures Reaches(Start(Elems(vs), a, b), end, 0) && Halfway(end, vs, b) && a in end.nodes
    ensures end.nodes[a] == Idle.(currentEpoch := 1, authEpoch := 1, authSent := true, authTime := 10000)
    ensures forall v | v in vs[..late] :: AuthAck(v, a, 1) in end.net
  {
    hide Reaches, Ask, At, Start;
    var s0 := Start(Elems(vs), a, b);
    var s1 := Asks(vs, a, b, late);
    var s2 := VoteBatch(s1, a, 1, vs[..late]);
    assert forall v | v in vs :: v in s2.nodes && s2.nodes[v].currentEpoch <= 1 && s2.nodes[v].lastVoteEpoch <= 1;
    end := PingEvents(s2, a, b);
    ReachesOn(s0, s1, s2, 0, 0);
    ReachesOn(s0, s2, end, 0, 0);
  }

  /** It gives up, and only then they arrive. */
  lemma LateVotes(vs: seq<NodeId>, a: NodeId, b: NodeId, late: nat) returns (end: System)
    requires Cast(vs, a, b) && late <= |vs|
    ensures Reaches(Start(Elems(vs), a, b), end, late) && Halfway(end, vs, b) && a in end.nodes
    ensures end.nodes[a] == Idle.(currentEpoch := 1, authEpoch := 1, authCount := late, authTime := 14001)
  {
    hide Reaches, Start;
    var s0 := Start(Elems(vs), a, b);
    var s1 := FirstAttempt(vs, a, b, late);
    var s2 := ScheduleEvent(s1, a, 14001);
    end := AckBatch(s2, a, 1, vs[..late]);
    ReachesOn(s0, s1, s2, 0, 0);
    ReachesOn(s0, s2, end, 0, late);
  }

  /** A replica that has asked and is answered by `vs` has enough. */
  lemma Elected(sys: System, c: NodeId, vs: seq<NodeId>) returns (end: System)
    requires NoRepeats(vs) && c !in vs && c in sys.nodes
    requires Asking(sys, c, 2, vs)
    requires var f := sys.nodes[c];
             !f.isMaster && f.authSent && f.authEpoch == 2 == f.currentEpoch && f.authTime == 14001 &&
             f.authCount + |vs| >= Quorum(|sys.voters|)
    ensures Reaches(sys, end, 0) && Kept(sys, end, Elems(vs) + {c}, c) && Won(end, c, 2)
  {
    hide Reaches, Ask, At, Quorum;
    var s1 := VoteBatch(sys, c, 2, vs);
    var s2 := AckBatch(s1, c, 2, vs);
    end := WinEvent(s2, c, 14002);
    ReachesOn(sys, s1, s2, 0, 0);
    ReachesOn(sys, s2, end, 0, 0);
  }

  /** Both replicas ask for epoch 2. */
  lemma BothAsk(sys: System, vs: seq<NodeId>, a: NodeId, b: NodeId, late: nat, p: seq<NodeId>, r: seq<NodeId>)
    returns (end: System)
    requires Cast(vs, a, b) && Halfway(sys, vs, b) && a in sys.nodes
    requires sys.nodes[a] == Idle.(currentEpoch := 1, authEpoch := 1, authCount := late, authTime := 14001)
    requires forall v | v in p || v in r :: v in vs
    ensures Reaches(sys, end, 0) && end.voters == sys.voters && a in end.nodes && b in end.nodes
    ensures Asking(end, a, 2, p) && Asking(end, b, 2, r)
    ensures var f := Idle.(currentEpoch := 2, authEpoch := 2, authSent := true, authTime := 14001);
            end.nodes[a] == f.(authCount := late) && end.nodes[b] == f
  {
    hide Reaches, Ask, At;
    var s1 := ScheduleEvent(sys, b, 14001);
    var s2 := AskEvent(s1, a, 14001, p);
    end := AskEvent(s2, b, 14001, r);
    ReachesOn(sys, s1, s2, 0, 0);
    ReachesOn(sys, s2, end, 0, 0);
  }

  /** The late answers and the votes of `p` make `a` win epoch 2, those of `r` replica `b`. */
  lemma BothElected(sys: System, vs: seq<NodeId>, a: NodeId, b: NodeId, late: nat, p: seq<NodeId>, r: seq<NodeId>)
    returns (end: System)
    requires Cast(vs, a, b) && Halfway(sys, vs, b) && a in sys.nodes
    requires sys.nodes[a] == Idle.(currentEpoch := 1, authEpoch := 1, authCount := late, authTime := 14001)
    requires NoRepeats(p) && NoRepeats(r) && Elems(p) <= Elems(vs) && Elems(r) == Elems(vs) - Elems(p)
    requires late + |p| >= Quorum(|sys.voters|) && |r| >= Quorum(|sys.voters|)
    ensures Reaches(sys, end, 0) && Won(end, a, 2) && Won(end, b, 2)
  {
    assert (forall v | v in p :: v in Elems(p)) && (forall v | v in r :: v in Elems(r));
    assert forall v | v in vs :: v in Elems(vs);
    hide Reaches, Ask, Won, Quorum, Halfway, Open, Elems;
    var s1 := BothAsk(sys, vs, a, b, late, p, r);
    var s2 := Elected(s1, a, p);
    StillAsking(s1, s2, p, a, r, b);
    end := Elected(s2, b, r);
    WonStays(s2, end, a, 2);
    ReachesOn(sys, s1, s2, 0, 0);
    ReachesOn(sys, s2, end, 0, 0);
  }

  /** An election leaves the requests of another replica and the masters they went to alone. */
  lemma StillAsking(s: System, t: System, p: seq<NodeId>, a: NodeId, r: seq<NodeId>, b: NodeId)
    requires Kept(s, t, Elems(p) + {a}, a) && a != b && b !in p && b in s.nodes && a !in r
    requires (forall v | v in r :: v !in p) && Asking(s, b, 2, r)
    ensures b in t.nodes && t.nodes[b] == s.nodes[b] && Asking(t, b, 2, r)
  {
    hide Ask;
  }

  lemma WonStays(a: System, b: System, n: NodeId, e: Epoch)
    requires Won(a, n, e) && a.wins <= b.wins
    ensures Won(b, n, e)
  {}

  lemma {:induction false} InOrder(s: set<NodeId>) returns (vs: seq<NodeId>)
    ensures NoRepeats(vs) && |vs| == |s| && Elems(vs) == s
    decreases |s|
  {
    if s == {} {
      vs := [];
    } else {
      var v :| v in s;
      var rest := InOrder(s - {v});
      assert v !in rest by { assert v !in Elems(rest); }
      vs := [v] + rest;
      assert Elems(vs) == {v} + Elems(rest);
    }
  }

  lemma {:induction false} Outsider(s: set<NodeId>) returns (a: NodeId)
    ensures forall n | n in s :: n < a
    decreases |s|
  {
    if s == {} {
      a := 0;
    } else {
      var n :| n in s;
      var m := Outsider(s - {n});
      a := if m <= n then n + 1 else m;
      assert forall k | k in s :: k == n || k in s - {n};
    }
  }

  /** For every electorate: a run from the start with as many late answers as two quorums
      exceed it, in which two replicas win one epoch. */
  lemma StaleWindowBreaksSafety(voters: set<NodeId>) returns (sys: System, run: seq<Event>)
    requires voters != {}
    ensures Init(sys) && sys.voters == voters && IsRun(sys, run) && WindowAcks(sys, run) <= Excess(|voters|)
    ensures !OneWinnerPerEpoch(Final(sys, run))
  {
    hide Reaches, IsRun, Final, WindowAcks, Excess;
    var vs := InOrder(voters);
    var a := Outsider(voters);
    assert forall v | v in vs :: v in Elems(vs);
    sys := Start(voters, a, a + 1);
    assert Init(sys);
    ExcessFits(|vs|);
    var s1 := LateVotes(vs, a, a + 1, Excess(|vs|));
    var p, r := Halves(vs, Quorum(|vs|) - Excess(|vs|));
    var s2 := BothElected(s1, vs, a, a + 1, Excess(|vs|), p, r);
    ReachesOn(sys, s1, s2, Excess(|vs|), 0);
    run := ReachedBy(sys, s2, Excess(|vs|));
  }

  lemma Halves(vs: seq<NodeId>, k: nat) returns (p: seq<NodeId>, r: seq<NodeId>)
    requires NoRepeats(vs) && k <= |vs|
    ensures NoRepeats(p) && NoRepeats(r) && |p| == k && |r| == |vs| - k
    ensures Elems(p) <= Elems(vs) && Elems(r) == Elems(vs) - Elems(p)
  {
    p, r := vs[..k], vs[k..];
  }

  lemma ExcessFits(size: nat)
    requires size > 0
    ensures Excess(size) <= Quorum(size) <= size && size - (Quorum(size) - Excess(size)) == Quorum(size)
    ensures Excess(size) == if size % 2 == 0 then 2 else 1
  {}

  lemma ReachedBy(a: System, b: System, k: nat) returns (run: seq<Event>)
    requires Reaches(a, b, k)
    ensures IsRun(a, run) && Final(a, run) == b && WindowAcks(a, run) <= k
  {
    run :| IsRun(a, run) && Final(a, run) == b && WindowAcks(a, run) <= k;
  }

  /** Every run with at most `k` answers in the window has one winner per epoch. */
  ghost predicate SafeUpTo(voters: set<NodeId>, k: nat) {
    forall sys, run | Init(sys) && sys.voters == voters && IsRun(sys, run) && WindowAcks(sys, run) <= k ::
      OneWinnerPerEpoch(Final(sys, run))
  }

  /** How many late answers the protocol bears, exactly: none if the number of masters is odd,
      one if it is even. */
  lemma ElectionSafetyExactly(voters: set<NodeId>, k: nat)
    requires voters != {}
    ensures SafeUpTo(voters, k) <==> k < Excess(|voters|)
    ensures Excess(|voters|) == if |voters| % 2 == 0 then 2 else 1
  {
    hide Init, IsRun, Final, WindowAcks, OneWinnerPerEpoch;
    ExcessFits(|voters|);
    if k < Excess(|voters|) {
      forall sys, run | Init(sys) && sys.voters == voters && IsRun(sys, run) && WindowAcks(sys, run) <= k
        ensures OneWinnerPerEpoch(Final(sys, run))
      {
        ElectionSafety(sys, run);
      }
    } else {
      var sys, run := StaleWindowBreaksSafety(voters);
    }
  }
}
