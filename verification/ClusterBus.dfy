/** A whole cluster: its nodes, the packets in flight, and one event per packet,
    timer or administrative command. Packets may be delayed, reordered or lost.

    What the history records (votes cast, votes counted, elections won) never
    influences a step. */
module ClusterBus {
  import opened Common
  import opened ClusterNode

  datatype Settings = Settings(nodeTimeout: nat, migration: bool)

  datatype Vote = Vote(voter: Id, epoch: nat, candidate: Id)
  datatype Win = Win(winner: Id, epoch: nat, quorum: set<Id>)

  datatype Cluster = Cluster(
    nodes: map<Id, Node>,
    net: set<Packet>,
    serial: nat,
    votes: set<Vote>,
    counted: map<Id, set<Id>>,
    wins: set<Win>)

  /** What a node may do without any packet: let time pass, or obey an administrator. */
  datatype LocalOp =
    | Tick(elapsed: nat)
    | Bump(max: nat)
    | SetEpoch(epoch: nat)
    | AssignSlots(owner: map<Slot, Id>, importing: set<Slot>)
    | FlagFailed(peer: Id, failed: bool)
    | Replicate(master: Id)

  datatype Event =
    | Local(n: Id, op: LocalOp)
    | SendPing(n: Id, to: Id, wantsPong: bool)
    | Deliver(p: Packet, redirect: bool, first: Option<Slot>)
    | Failover(n: Id, input: FailoverInput)
    | Drop(p: Packet)

  // ------------------------------------------------------------------
  // Invariant: epochs
  // ------------------------------------------------------------------

  /** No recorded configEpoch is ahead of this node's currentEpoch. */
  ghost predicate EpochsBounded(n: Node) {
    forall p :: p in n.peers ==> n.peers[p].configEpoch <= n.currentEpoch
  }

  ghost predicate NodeOk(n: Node) {
    n.Valid() && EpochsBounded(n) && n.lastVoteEpoch <= n.currentEpoch && n.authEpoch <= n.currentEpoch
  }

  /** A packet carries no configEpoch ahead of its own currentEpoch, in its header or in an UPDATE body. */
  ghost predicate PacketOk(p: Packet) {
    && p.hdr.configEpoch <= p.hdr.currentEpoch
    && (p.body.Update? ==> p.body.configEpoch <= p.hdr.currentEpoch)
  }

  /** Nodes are filed under their own name and their pointers lead somewhere. */
  ghost predicate WellFormed(c: Cluster) {
    && (forall n :: n in c.nodes ==> c.nodes[n].me == n && c.nodes[n].Valid())
    && c.counted.Keys == c.nodes.Keys
  }

  ghost predicate EpochInv(c: Cluster) {
    && WellFormed(c)
    && (forall n :: n in c.nodes ==> NodeOk(c.nodes[n]))
    && (forall p :: p in c.net ==> PacketOk(p) && p.serial < c.serial)
  }

  // ------------------------------------------------------------------
  // Which events can happen
  // ------------------------------------------------------------------

  /** A packet reaches a node that knows its sender. */
  ghost predicate CanDeliver(s: Settings, voters: nat -> set<Id>, c: Cluster, p: Packet, redirect: bool,
                             first: Option<Slot>)
    requires WellFormed(c)
  {
    && p in c.net && p.to in c.nodes
    && p.hdr.sender in c.nodes[p.to].peers
    && var n := c.nodes[p.to];
       match p.body
       case Ping(_) =>
         if Dirty(AfterRole(n, p.hdr), p.hdr)
         then FirstStale(AfterSlots(n, p.hdr, s.migration, redirect), p.hdr, first)
         else first.None?
       case AuthRequest(forced, _) =>
         // premise: only the voting masters of an epoch vote in it
         GrantsVote(Absorb(n, p.hdr), p.hdr, forced, s.nodeTimeout) ==> n.me in voters(Absorb(n, p.hdr).currentEpoch)
       case AuthAck(_) => true
       case Update(_, _, _) => true
  }

  ghost predicate CanDo(n: Node, op: LocalOp)
    requires n.Valid()
  {
    match op
    case Tick(_) => true
    case Bump(max) => IsMaxEpoch(n, max)
    case SetEpoch(_) => true
    case AssignSlots(owner, _) => n.(owner := owner).Valid()
    case FlagFailed(peer, _) => peer in n.peers
    case Replicate(master) => master in n.peers
  }

  ghost predicate Enabled(s: Settings, voters: nat -> set<Id>, c: Cluster, e: Event)
    requires WellFormed(c)
  {
    match e
    case Local(n, op) => n in c.nodes && CanDo(c.nodes[n], op)
    case SendPing(n, _, _) => n in c.nodes
    case Deliver(p, redirect, first) => CanDeliver(s, voters, c, p, redirect, first)
    case Failover(n, i) =>
      && n in c.nodes
      // premise: the quorum is computed from the number of voting masters of that epoch
      && (FailoverDecision(c.nodes[n], i, s.nodeTimeout).Won? ==> i.size == |voters(c.nodes[n].authEpoch)|)
    case Drop(_) => true
  }

  // ------------------------------------------------------------------
  // What they do
  // ------------------------------------------------------------------

  /** Node `n` becomes `node`, consuming and emitting packets. */
  function Put(c: Cluster, n: Id, node: Node, consumed: set<Packet>, sent: set<Packet>): Cluster {
    c.(nodes := c.nodes[n := node], net := c.net - consumed + sent, serial := c.serial + 2)
  }

  ghost function Do(n: Node, op: LocalOp): (r: Node)
    requires n.Valid() && CanDo(n, op)
    ensures Keeps(n, r)
  {
    match op
    case Tick(elapsed) => n.(now := n.now + elapsed)
    case Bump(max) => BumpEpoch(n, max)
    case SetEpoch(epoch) => SetConfigEpoch(n, epoch)
    case AssignSlots(owner, importing) => n.(owner := owner, importing := importing)
    case FlagFailed(peer, failed) => n.(peers := n.peers[peer := n.peers[peer].(failed := failed)])
    case Replicate(master) => SetMaster(n, master)
  }

  ghost function Next(s: Settings, voters: nat -> set<Id>, c: Cluster, e: Event): Cluster
    requires WellFormed(c) && Enabled(s, voters, c, e)
  {
    match e
    case Local(n, op) => Put(c, n, Do(c.nodes[n], op), {}, {})
    case SendPing(n, to, wantsPong) =>
      Put(c, n, c.nodes[n], {}, {Packet(c.serial, to, HeaderOf(c.nodes[n]), Ping(wantsPong))})
    case Deliver(p, redirect, first) => NextDeliver(s, voters, c, p, redirect, first)
    case Failover(n, i) => NextFailover(s, c, n, i)
    case Drop(p) => c.(net := c.net - {p})
  }

  ghost function NextDeliver(s: Settings, voters: nat -> set<Id>, c: Cluster, p: Packet, redirect: bool,
                             first: Option<Slot>): Cluster
    requires WellFormed(c) && CanDeliver(s, voters, c, p, redirect, first)
  {
    var n := c.nodes[p.to];
    match p.body
    case Ping(_) => NextPing(s, c, p, n, redirect, first)
    case AuthRequest(_, _) => NextRequest(s, c, p, n)
    case AuthAck(_) => NextAck(c, p, n)
    case Update(about, epoch, slots) =>
      Put(c, p.to, ProcessUpdate(Absorb(n, p.hdr), about, epoch, slots, s.migration, redirect), {p}, {})
  }

  /** A PING is answered before its configuration is looked at; a stale claim is answered with an UPDATE. */
  function PingReplies(s: Settings, c: Cluster, p: Packet, n: Node, redirect: bool, first: Option<Slot>): set<Packet>
    requires n.Valid() && p.body.Ping? && p.hdr.sender in n.peers
    requires first.Some? ==> first.value in AfterSlots(n, p.hdr, s.migration, redirect).owner
  {
    var a := AfterSlots(n, p.hdr, s.migration, redirect);
    (if p.body.wantsPong then {Packet(c.serial, p.hdr.sender, HeaderOf(Absorb(n, p.hdr)), Ping(false))} else {}) +
    (if first.None? then {} else
       var o := a.owner[first.value];
       {Packet(c.serial + 1, p.hdr.sender, HeaderOf(a), Update(o, a.peers[o].configEpoch, a.SlotsOf(o)))})
  }

  function NextPing(s: Settings, c: Cluster, p: Packet, n: Node, redirect: bool, first: Option<Slot>): Cluster
    requires n.Valid() && p.body.Ping? && p.hdr.sender in n.peers
    requires first.Some? ==> first.value in AfterSlots(n, p.hdr, s.migration, redirect).owner
  {
    Put(c, p.to, ProcessPing(n, p.hdr, s.migration, redirect), {p}, PingReplies(s, c, p, n, redirect, first))
  }

  function NextRequest(s: Settings, c: Cluster, p: Packet, n: Node): Cluster
    requires n.Valid() && p.hdr.sender in n.peers && p.body.AuthRequest?
  {
    var a := Absorb(n, p.hdr);
    if GrantsVote(a, p.hdr, p.body.forced, s.nodeTimeout) then
      var v := CastVote(a, p.hdr);
      Put(c, p.to, v, {p}, {Packet(c.serial, p.hdr.sender, HeaderOf(v), AuthAck(p.body.stamp))})
        .(votes := c.votes + {Vote(n.me, a.currentEpoch, p.hdr.sender)})
    else Put(c, p.to, a, {p}, {})
  }

  function NextAck(c: Cluster, p: Packet, n: Node): Cluster
    requires n.Valid() && p.hdr.sender in n.peers && p.to in c.counted
  {
    var a := Absorb(n, p.hdr);
    if CountsVote(a, p.hdr) then
      Put(c, p.to, CountVote(a), {p}, {})
        .(counted := c.counted[p.to := c.counted[p.to] + {p.hdr.sender}])
    else Put(c, p.to, a, {p}, {})
  }

  /** Requests are broadcast to every other known node. */
  function Requests(c: Cluster, n: Node, forced: bool): set<Packet>
    requires n.Valid()
  {
    set q | q in n.peers && q != n.me :: Packet(c.serial, q, HeaderOf(n), AuthRequest(forced, n.authTime))
  }

  function NextFailover(s: Settings, c: Cluster, n: Id, i: FailoverInput): Cluster
    requires n in c.nodes && c.nodes[n].Valid() && n in c.counted
  {
    var before := c.nodes[n];
    var after := HandleFailover(before, i, s.nodeTimeout);
    match FailoverDecision(before, i, s.nodeTimeout)
    case Nothing => Put(c, n, after, {}, {})
    case Scheduled => Put(c, n, after, {}, {}).(counted := c.counted[n := {}])
    case Requested => Put(c, n, after, {}, Requests(c, after, i.mfEnd))
    case Won => Put(c, n, after, {}, {}).(wins := c.wins + {Win(n, before.authEpoch, c.counted[n])})
  }

  // ------------------------------------------------------------------
  // Every event keeps the epoch invariant
  // ------------------------------------------------------------------

  lemma HeaderBounded(n: Node)
    requires NodeOk(n)
    ensures HeaderOf(n).configEpoch <= HeaderOf(n).currentEpoch == n.currentEpoch
  {}

  lemma AbsorbOk(n: Node, h: Header)
    requires NodeOk(n) && h.sender in n.peers && h.configEpoch <= h.currentEpoch
    ensures NodeOk(Absorb(n, h)) && Absorb(n, h).currentEpoch >= h.currentEpoch
  {}

  lemma AbsorbOkP(n: Node, p: Packet)
    requires NodeOk(n) && p.hdr.sender in n.peers && PacketOk(p)
    ensures NodeOk(Absorb(n, p.hdr)) && Absorb(n, p.hdr).me == n.me && p.hdr.sender in Absorb(n, p.hdr).peers
    ensures Absorb(n, p.hdr).Valid()
  {}

  lemma CountOk(n: Node)
    requires NodeOk(n)
    ensures NodeOk(CountVote(n)) && CountVote(n).me == n.me
  {}

  lemma CastVoteOk(n: Node, h: Header, serial: nat, stamp: int)
    requires NodeOk(n) && h.sender in n.peers && n.peers[h.sender].role.Replica? && n.peers[h.sender].role.of.Some?
    ensures NodeOk(CastVote(n, h)) && CastVote(n, h).me == n.me
    ensures PacketOk(Packet(serial, h.sender, HeaderOf(CastVote(n, h)), AuthAck(stamp)))
  {}

  lemma AfterSlotsOk(n: Node, h: Header, migration: bool, redirect: bool)
    requires NodeOk(n) && h.sender in n.peers && h.configEpoch <= h.currentEpoch
    ensures NodeOk(AfterSlots(n, h, migration, redirect))
  {
    hide UpdateSlots, SwitchRole, Dirty;
    AbsorbOk(n, h);
  }

  lemma ProcessPingOk(n: Node, h: Header, migration: bool, redirect: bool)
    requires NodeOk(n) && h.sender in n.peers && h.configEpoch <= h.currentEpoch
    ensures NodeOk(ProcessPing(n, h, migration, redirect))
  {
    hide AfterSlots;
    AfterSlotsOk(n, h, migration, redirect);
  }

  lemma ProcessUpdateOk(n: Node, about: Id, epoch: nat, slots: set<Slot>, migration: bool, redirect: bool)
    requires NodeOk(n) && epoch <= n.currentEpoch
    ensures NodeOk(ProcessUpdate(n, about, epoch, slots, migration, redirect))
  {
    hide UpdateSlots;
  }

  lemma HandleFailoverOk(n: Node, i: FailoverInput, nodeTimeout: nat)
    requires NodeOk(n)
    ensures NodeOk(HandleFailover(n, i, nodeTimeout))
  {
    hide FailoverDecision;
  }

  lemma PingRepliesOk(s: Settings, c: Cluster, p: Packet, n: Node, redirect: bool, first: Option<Slot>)
    requires NodeOk(n) && p.body.Ping? && p.hdr.sender in n.peers && PacketOk(p)
    requires first.Some? ==> first.value in AfterSlots(n, p.hdr, s.migration, redirect).owner
    ensures forall q :: q in PingReplies(s, c, p, n, redirect, first) ==>
              PacketOk(q) && q.serial < c.serial + 2 && !q.body.AuthRequest? && !q.body.AuthAck?
  {
    hide AfterSlots, Absorb, HeaderOf;
    AbsorbOk(n, p.hdr);
    HeaderBounded(Absorb(n, p.hdr));
    AfterSlotsOk(n, p.hdr, s.migration, redirect);
    HeaderBounded(AfterSlots(n, p.hdr, s.migration, redirect));
  }

  lemma PutKeepsEpochs(c: Cluster, n: Id, node: Node, consumed: set<Packet>, sent: set<Packet>)
    requires EpochInv(c) && n in c.nodes && node.me == n && NodeOk(node)
    requires forall q :: q in sent ==> PacketOk(q) && q.serial < c.serial + 2
    ensures EpochInv(Put(c, n, node, consumed, sent))
  {
    assert node.Valid();
    hide NodeOk, PacketOk;
  }

  /** The history plays no part. */
  lemma HistoryIrrelevant(c: Cluster, votes: set<Vote>, counted: map<Id, set<Id>>, wins: set<Win>)
    requires EpochInv(c) && counted.Keys == c.counted.Keys
    ensures EpochInv(c.(votes := votes)) && EpochInv(c.(counted := counted)) && EpochInv(c.(wins := wins))
  {}

  lemma DoOk(n: Node, op: LocalOp)
    requires NodeOk(n) && CanDo(n, op)
    ensures NodeOk(Do(n, op))
  {}

  lemma PingKeepsEpochs(s: Settings, c: Cluster, p: Packet, redirect: bool, first: Option<Slot>)
    requires EpochInv(c) && p in c.net && p.to in c.nodes && p.body.Ping? && p.hdr.sender in c.nodes[p.to].peers
    requires first.Some? ==> first.value in AfterSlots(c.nodes[p.to], p.hdr, s.migration, redirect).owner
    ensures EpochInv(NextPing(s, c, p, c.nodes[p.to], redirect, first))
  {
    hide ProcessPing, PingReplies, AfterSlots, Put;
    var n := c.nodes[p.to];
    ProcessPingOk(n, p.hdr, s.migration, redirect);
    PingRepliesOk(s, c, p, n, redirect, first);
    var sent := PingReplies(s, c, p, n, redirect, first);
    PutKeepsEpochs(c, p.to, ProcessPing(n, p.hdr, s.migration, redirect), {p}, sent);
  }

  lemma Facts(c: Cluster, p: Packet)
    requires EpochInv(c) && p in c.net && p.to in c.nodes
    ensures NodeOk(c.nodes[p.to]) && c.nodes[p.to].me == p.to && PacketOk(p) && p.to in c.counted
  {}

  lemma RequestKeepsEpochs(s: Settings, c: Cluster, p: Packet)
    requires EpochInv(c) && p in c.net && p.to in c.nodes && p.body.AuthRequest? && p.hdr.sender in c.nodes[p.to].peers
    ensures EpochInv(NextRequest(s, c, p, c.nodes[p.to]))
  {
    hide Absorb, HeaderOf, GrantsVote, EpochInv, NodeOk, Put, CastVote;
    var n := c.nodes[p.to];
    Facts(c, p);
    AbsorbOkP(n, p);
    var a := Absorb(n, p.hdr);
    PutKeepsEpochs(c, p.to, a, {p}, {});
    if GrantsVote(a, p.hdr, p.body.forced, s.nodeTimeout) {
      GrantKnowsMaster(a, p.hdr, p.body.forced, s.nodeTimeout);
      var v := CastVote(a, p.hdr);
      CastVoteOk(a, p.hdr, c.serial, p.body.stamp);
      var sent := {Packet(c.serial, p.hdr.sender, HeaderOf(v), AuthAck(p.body.stamp))};
      PutKeepsEpochs(c, p.to, v, {p}, sent);
      PutFields(c, p.to, v, {p}, sent);
      var votes := c.votes + {Vote(n.me, a.currentEpoch, p.hdr.sender)};
      HistoryIrrelevant(Put(c, p.to, v, {p}, sent), votes, c.counted, c.wins);
    }
  }

  lemma GrantKnowsMaster(a: Node, h: Header, forced: bool, nodeTimeout: nat)
    requires a.Valid() && h.sender in a.peers && GrantsVote(a, h, forced, nodeTimeout)
    ensures a.peers[h.sender].role.Replica? && a.peers[h.sender].role.of.Some?
    ensures a.lastVoteEpoch != a.currentEpoch && h.currentEpoch >= a.currentEpoch
  {}

  lemma AckKeepsEpochs(c: Cluster, p: Packet)
    requires EpochInv(c) && p in c.net && p.to in c.nodes && p.hdr.sender in c.nodes[p.to].peers
    ensures EpochInv(NextAck(c, p, c.nodes[p.to]))
  {
    hide Absorb, CountsVote, EpochInv, NodeOk, Put, CountVote;
    var n := c.nodes[p.to];
    Facts(c, p);
    AbsorbOkP(n, p);
    var a := Absorb(n, p.hdr);
    if CountsVote(a, p.hdr) {
      var b := CountVote(a);
      CountOk(a);
      PutKeepsEpochs(c, p.to, b, {p}, {});
      PutFields(c, p.to, b, {p}, {});
      HistoryIrrelevant(Put(c, p.to, b, {p}, {}), c.votes, c.counted[p.to := c.counted[p.to] + {p.hdr.sender}], c.wins);
    } else {
      PutKeepsEpochs(c, p.to, a, {p}, {});
    }
  }

  lemma FailoverKeepsEpochs(s: Settings, c: Cluster, n: Id, i: FailoverInput)
    requires EpochInv(c) && n in c.nodes
    ensures EpochInv(NextFailover(s, c, n, i))
  {
    NodeFacts(c, n);
    var after := HandleFailover(c.nodes[n], i, s.nodeTimeout);
    hide EpochInv, HandleFailover, FailoverDecision, NodeOk, Put, Requests;
    HandleFailoverOk(c.nodes[n], i, s.nodeTimeout);
    if FailoverDecision(c.nodes[n], i, s.nodeTimeout).Requested? {
      RequestsOk(c, after, i.mfEnd);
      PutKeepsEpochs(c, n, after, {}, Requests(c, after, i.mfEnd));
    } else {
      PutKeepsEpochs(c, n, after, {}, {});
      PutFields(c, n, after, {}, {});
      HistoryIrrelevant(Put(c, n, after, {}, {}), c.votes, c.counted[n := {}],
                        c.wins + {Win(n, c.nodes[n].authEpoch, c.counted[n])});
    }
  }

  lemma NodeFacts(c: Cluster, n: Id)
    requires EpochInv(c) && n in c.nodes
    ensures NodeOk(c.nodes[n]) && c.nodes[n].Valid() && c.nodes[n].me == n && n in c.counted
    ensures c.counted[n := {}].Keys == c.counted.Keys
  {
    hide NodeOk, PacketOk;
    assert n in c.counted.Keys;
  }

  lemma PutFields(c: Cluster, n: Id, node: Node, consumed: set<Packet>, sent: set<Packet>)
    ensures var d := Put(c, n, node, consumed, sent);
            d.votes == c.votes && d.counted == c.counted && d.wins == c.wins
  {}

  lemma RequestsOk(c: Cluster, n: Node, forced: bool)
    requires NodeOk(n)
    ensures forall q :: q in Requests(c, n, forced) ==> PacketOk(q) && q.serial < c.serial + 2
  {}

  lemma DeliverKeepsEpochs(s: Settings, voters: nat -> set<Id>, c: Cluster, p: Packet, redirect: bool,
                           first: Option<Slot>)
    requires EpochInv(c) && CanDeliver(s, voters, c, p, redirect, first)
    ensures EpochInv(NextDeliver(s, voters, c, p, redirect, first))
  {
    Facts(c, p);
    hide EpochInv, NodeOk, NextPing, NextRequest, NextAck, ProcessUpdate, Put;
    hide Absorb, AfterSlots, AfterRole, GrantsVote;
    match p.body
    case Ping(_) => PingKeepsEpochs(s, c, p, redirect, first);
    case AuthRequest(_, _) => RequestKeepsEpochs(s, c, p);
    case AuthAck(_) => AckKeepsEpochs(c, p);
    case Update(about, epoch, slots) =>
      var n := c.nodes[p.to];
      AbsorbOk(n, p.hdr);
      ProcessUpdateOk(Absorb(n, p.hdr), about, epoch, slots, s.migration, redirect);
      PutKeepsEpochs(c, p.to, ProcessUpdate(Absorb(n, p.hdr), about, epoch, slots, s.migration, redirect), {p}, {});
  }

  /** In every step, whatever arrives in whatever order, no epoch gets ahead. */
  lemma NextKeepsEpochs(s: Settings, voters: nat -> set<Id>, c: Cluster, e: Event)
    requires EpochInv(c) && Enabled(s, voters, c, e)
    ensures EpochInv(Next(s, voters, c, e))
  {
    hide NextDeliver, NextFailover, Do, HeaderOf, CanDeliver;
    match e
    case Local(n, op) =>
      DoOk(c.nodes[n], op);
      PutKeepsEpochs(c, n, Do(c.nodes[n], op), {}, {});
    case SendPing(n, to, wantsPong) =>
      HeaderBounded(c.nodes[n]);
      PutKeepsEpochs(c, n, c.nodes[n], {}, {Packet(c.serial, to, HeaderOf(c.nodes[n]), Ping(wantsPong))});
    case Deliver(p, redirect, first) => DeliverKeepsEpochs(s, voters, c, p, redirect, first);
    case Failover(n, i) => FailoverKeepsEpochs(s, c, n, i);
    case Drop(p) =>
  }

  // ------------------------------------------------------------------
  // Runs
  // ------------------------------------------------------------------

  /** A cluster at rest: nothing in flight, no election under way, no epoch ahead. */
  ghost predicate Init(c: Cluster) {
    && EpochInv(c) && c.net == {} && c.votes == {} && c.wins == {}
    && forall n :: n in c.nodes ==> c.counted[n] == {} && c.nodes[n].authCount == 0 && !c.nodes[n].authSent
  }

  ghost predicate Step(s: Settings, voters: nat -> set<Id>, c: Cluster, e: Event, c': Cluster) {
    WellFormed(c) && Enabled(s, voters, c, e) && c' == Next(s, voters, c, e)
  }

  ghost predicate Run(s: Settings, voters: nat -> set<Id>, cs: seq<Cluster>, es: seq<Event>) {
    && |cs| == |es| + 1 && Init(cs[0])
    && forall i :: 0 <= i < |es| ==> Step(s, voters, cs[i], es[i], cs[i + 1])
  }

  lemma FirstOf(s: Settings, voters: nat -> set<Id>, cs: seq<Cluster>, es: seq<Event>)
    requires Run(s, voters, cs, es)
    ensures |cs| == |es| + 1 && Init(cs[0])
  {
    hide Init, Step;
  }

  lemma StepAt(s: Settings, voters: nat -> set<Id>, cs: seq<Cluster>, es: seq<Event>, i: nat)
    requires Run(s, voters, cs, es) && i < |es|
    ensures i + 1 < |cs| && Step(s, voters, cs[i], es[i], cs[i + 1]) && WellFormed(cs[i])
  {
    hide Init, Enabled, Next, WellFormed;
  }

  lemma InitOk(c: Cluster)
    requires Init(c)
    ensures EpochInv(c)
  {
    hide EpochInv;
  }

  lemma StepKeepsEpochs(s: Settings, voters: nat -> set<Id>, c: Cluster, e: Event, d: Cluster)
    requires EpochInv(c) && Step(s, voters, c, e, d)
    ensures EpochInv(d)
  {
    hide EpochInv, Enabled, Next, WellFormed;
    NextKeepsEpochs(s, voters, c, e);
  }

  /** In every reachable state every node and every packet in flight keeps its epochs in order. */
  lemma {:induction false} RunKeepsEpochs(s: Settings, voters: nat -> set<Id>, cs: seq<Cluster>, es: seq<Event>, i: nat)
    requires Run(s, voters, cs, es) && i < |cs|
    ensures EpochInv(cs[i])
  {
    hide *;
    FirstOf(s, voters, cs, es);
    if i == 0 {
      InitOk(cs[0]);
    } else {
      RunKeepsEpochs(s, voters, cs, es, i - 1);
      StepAt(s, voters, cs, es, i - 1);
      StepKeepsEpochs(s, voters, cs[i - 1], es[i - 1], cs[i]);
    }
  }

  /** The epoch of a new election is above every configEpoch its candidate knows. */
  lemma NewElectionEpochIsFresh(s: Settings, voters: nat -> set<Id>, cs: seq<Cluster>, es: seq<Event>, i: nat, p: Id)
    requires Run(s, voters, cs, es) && i < |es| && es[i].Failover? && es[i].n in cs[i].nodes
    requires cs[i].nodes[es[i].n].Valid()
    requires FailoverDecision(cs[i].nodes[es[i].n], es[i].input, s.nodeTimeout).Requested?
    requires p in cs[i].nodes[es[i].n].peers
    ensures es[i].n in cs[i + 1].nodes
    ensures cs[i + 1].nodes[es[i].n].authEpoch > cs[i].nodes[es[i].n].peers[p].configEpoch
  {
    RunKeepsEpochs(s, voters, cs, es, i);
    assert Step(s, voters, cs[i], es[i], cs[i + 1]);
  }
}
