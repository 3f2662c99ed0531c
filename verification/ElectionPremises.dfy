/** Two conditions under which every request for votes is made with the counter at zero: that no vote is counted
    by a candidate that has not asked for any, and that no vote comes later than the retry time of its election. */
module ElectionPremises {
  import opened Common
  import opened ClusterNode
  import opened ClusterBus
  import opened Election

  // ------------------------------------------------------------------
  // Votes are counted only by candidates that have asked
  // ------------------------------------------------------------------

  /** A candidate that has not asked for votes has counted none. */
  ghost predicate Idle(c: Cluster) {
    forall n :: n in c.nodes ==> IdleNode(c.nodes[n])
  }

  ghost predicate IdleNode(n: Node) { !n.authSent ==> n.authCount == 0 }

  /** `e` delivers a vote that is counted. */
  ghost predicate Counts(c: Cluster, e: Event)
    requires WellFormed(c)
  {
    && e.Deliver? && e.p.body.AuthAck? && e.p.to in c.nodes && e.p.hdr.sender in c.nodes[e.p.to].peers
    && CountsVote(Absorb(c.nodes[e.p.to], e.p.hdr), e.p.hdr)
  }

  /** The guard that clusterProcessPacket lacks: a counted vote finds its candidate asking for votes. */
  ghost predicate Asked(c: Cluster, e: Event)
    requires WellFormed(c)
  {
    Counts(c, e) ==> c.nodes[e.p.to].authSent
  }

  ghost predicate SameAuth(n: Node, n': Node) {
    && n'.authTime == n.authTime && n'.authSent == n.authSent
    && n'.authCount == n.authCount && n'.authEpoch == n.authEpoch
  }

  /** Only node `n` changes, and its failover state stays. */
  ghost predicate Calm(c: Cluster, d: Cluster, n: Id) {
    OnlyNode(c, d, n) && d.nodes[n].now == c.nodes[n].now && SameAuth(c.nodes[n], d.nodes[n])
  }

  /** Only node `n` changes, by counting one vote more. */
  ghost predicate CountsOne(c: Cluster, d: Cluster, n: Id) {
    && OnlyNode(c, d, n) && SameButCount(c.nodes[n], d.nodes[n]) && d.nodes[n].authCount == c.nodes[n].authCount + 1
  }

  lemma PutCalm(c: Cluster, n: Id, node: Node, consumed: set<Packet>, sent: set<Packet>)
    requires n in c.nodes && node.now == c.nodes[n].now && SameAuth(c.nodes[n], node)
    ensures Calm(c, Put(c, n, node, consumed, sent), n)
  {}

  lemma RequestShape(s: Settings, c: Cluster, p: Packet)
    requires p.to in c.nodes && c.nodes[p.to].Valid() && p.hdr.sender in c.nodes[p.to].peers && p.body.AuthRequest?
    ensures Calm(c, NextRequest(s, c, p, c.nodes[p.to]), p.to)
  {
    var a := Absorb(c.nodes[p.to], p.hdr);
    hide Absorb, GrantsVote, HeaderOf;
    PutCalm(c, p.to, a, {p}, {});
    if GrantsVote(a, p.hdr, p.body.forced, s.nodeTimeout) {
      GrantKnowsMaster(a, p.hdr, p.body.forced, s.nodeTimeout);
      var v := CastVote(a, p.hdr);
      PutCalm(c, p.to, v, {p}, {Packet(c.serial, p.hdr.sender, HeaderOf(v), AuthAck(p.body.stamp))});
    }
  }

  lemma AckShape(c: Cluster, p: Packet)
    requires p.to in c.nodes && c.nodes[p.to].Valid() && p.hdr.sender in c.nodes[p.to].peers && p.to in c.counted
    ensures var d := NextAck(c, p, c.nodes[p.to]);
            if CountsVote(Absorb(c.nodes[p.to], p.hdr), p.hdr) then CountsOne(c, d, p.to) else Calm(c, d, p.to)
  {
    var a := Absorb(c.nodes[p.to], p.hdr);
    hide Absorb, CountsVote;
    PutCalm(c, p.to, a, {p}, {});
  }

  /** What a delivery does to the nodes: the receiver's failover state changes only when a vote is counted. */
  lemma DeliverShape(s: Settings, voters: nat -> set<Id>, c: Cluster, p: Packet, redirect: bool, first: Option<Slot>)
    requires WellFormed(c) && CanDeliver(s, voters, c, p, redirect, first)
    ensures var d := NextDeliver(s, voters, c, p, redirect, first);
            if Counts(c, Deliver(p, redirect, first)) then CountsOne(c, d, p.to) else Calm(c, d, p.to)
  {
    hide AfterSlots, ProcessPing, ProcessUpdate, Absorb, GrantsVote, CountsVote, HeaderOf, PingReplies, Put,
         NextRequest, NextAck, Calm, CountsOne;
    var n := c.nodes[p.to];
    match p.body
    case Ping(_) =>
      PutCalm(c, p.to, ProcessPing(n, p.hdr, s.migration, redirect), {p}, PingReplies(s, c, p, n, redirect, first));
    case AuthRequest(_, _) => RequestShape(s, c, p);
    case AuthAck(_) => AckShape(c, p);
    case Update(about, epoch, slots) =>
      PutCalm(c, p.to, ProcessUpdate(Absorb(n, p.hdr), about, epoch, slots, s.migration, redirect), {p}, {});
  }

  /** What any other event does to them. */
  lemma LocalShape(n: Node, op: LocalOp)
    requires n.Valid() && CanDo(n, op)
    ensures SameAuth(n, Do(n, op)) && n.now <= Do(n, op).now
  {}

  lemma FailoverIdle(n: Node, i: FailoverInput, nodeTimeout: nat)
    requires n.Valid() && IdleNode(n)
    ensures IdleNode(HandleFailover(n, i, nodeTimeout))
  {
    FailoverShape(n, i, nodeTimeout);
  }

  lemma OnlyNodeIdle(c: Cluster, d: Cluster, n: Id)
    requires Idle(c) && OnlyNode(c, d, n)
    ensures Idle(d) <==> IdleNode(d.nodes[n])
  {}

  /** A step leaves every candidate that has not asked with nothing counted, exactly when it does not count a vote
      for a candidate that has not asked. */
  lemma StepIffAsked(s: Settings, voters: nat -> set<Id>, c: Cluster, e: Event, d: Cluster)
    requires Idle(c) && Step(s, voters, c, e, d)
    ensures Idle(d) <==> Asked(c, e)
  {
    hide CanDeliver, NextDeliver, NextFailover, FailoverDecision, HandleFailover, Do, HeaderOf, Idle, Counts, CanDo;
    match e
    case Local(n, op) =>
      LocalShape(c.nodes[n], op);
      assert OnlyNode(c, d, n);
      OnlyNodeIdle(c, d, n);
      NotCounts(c, e);
      Gives(c, n);
    case SendPing(n, to, wantsPong) =>
      assert d.nodes == c.nodes;
      OnlyNodeIdle(c, d, n);
      NotCounts(c, e);
      Gives(c, n);
    case Deliver(p, redirect, first) =>
      DeliverShape(s, voters, c, p, redirect, first);
      OnlyNodeIdle(c, d, p.to);
      Gives(c, p.to);
    case Failover(n, i) =>
      NextFailoverShape(s, c, n, i);
      OnlyNodeIdle(c, d, n);
      NotCounts(c, e);
      Gives(c, n);
      FailoverIdle(c.nodes[n], i, s.nodeTimeout);
    case Drop(p) =>
      NotCounts(c, e);
      SameNodesIdle(c, d);
  }

  lemma NotCounts(c: Cluster, e: Event)
    requires WellFormed(c) && !e.Deliver?
    ensures !Counts(c, e)
  {}

  lemma Gives(c: Cluster, n: Id)
    requires Idle(c) && n in c.nodes
    ensures IdleNode(c.nodes[n])
  {}

  lemma SameNodesIdle(c: Cluster, d: Cluster)
    requires Idle(c) && d.nodes == c.nodes
    ensures Idle(d)
  {}

  /** Counting a vote keeps both invariants exactly when its candidate has asked for votes. */
  lemma CountIffAsked(s: Settings, voters: nat -> set<Id>, c: Cluster, e: Event, d: Cluster)
    requires ElectionInv(voters, c) && Idle(c) && Step(s, voters, c, e, d) && Counts(c, e)
    ensures ElectionInv(voters, d) && Idle(d) <==> c.nodes[e.p.to].authSent
  {
    assert WellFormed(c);
    hide Idle, ElectionInv, Counts, Step;
    StepIffAsked(s, voters, c, e, d);
    CountIsNoRequest(s, c, e);
    StepIffFromZero(s, voters, c, e, d);
  }

  lemma CountIsNoRequest(s: Settings, c: Cluster, e: Event)
    requires WellFormed(c) && Counts(c, e)
    ensures FromZero(s, c, e)
  {}

  ghost predicate AllAsked(cs: seq<Cluster>, es: seq<Event>) {
    forall i :: 0 <= i < |es| && i < |cs| && WellFormed(cs[i]) ==> Asked(cs[i], es[i])
  }

  lemma AskedAt(cs: seq<Cluster>, es: seq<Event>, i: nat)
    requires AllAsked(cs, es) && i < |es| && i < |cs| && WellFormed(cs[i])
    ensures Asked(cs[i], es[i])
  {
    hide Asked, WellFormed;
  }

  lemma InitIdle(c: Cluster)
    requires Init(c)
    ensures Idle(c)
  {
    hide EpochInv;
  }

  lemma {:induction false} RunIsIdle(s: Settings, voters: nat -> set<Id>, cs: seq<Cluster>, es: seq<Event>, i: nat)
    requires Run(s, voters, cs, es) && AllAsked(cs, es) && i < |cs|
    ensures Idle(cs[i])
  {
    hide *;
    FirstOf(s, voters, cs, es);
    if i == 0 {
      InitIdle(cs[0]);
    } else {
      RunIsIdle(s, voters, cs, es, i - 1);
      StepAt(s, voters, cs, es, i - 1);
      AskedAt(cs, es, i - 1);
      StepIffAsked(s, voters, cs[i - 1], es[i - 1], cs[i]);
    }
  }

  lemma RequestsIdle(s: Settings, c: Cluster, e: Event)
    requires WellFormed(c) && Idle(c)
    ensures FromZero(s, c, e)
  {
    if e.Failover? && e.n in c.nodes { Gives(c, e.n); }
  }

  /** If no vote is counted by a candidate that has not asked, every request starts from zero. */
  lemma AskedRunsStartFromZero(s: Settings, voters: nat -> set<Id>, cs: seq<Cluster>, es: seq<Event>)
    requires Run(s, voters, cs, es) && AllAsked(cs, es)
    ensures AllFromZero(s, cs, es)
  {
    hide Step, Idle, FromZero;
    forall i | 0 <= i < |es| && WellFormed(cs[i]) ensures FromZero(s, cs[i], es[i]) {
      RunIsIdle(s, voters, cs, es, i);
      RequestsIdle(s, cs[i], es[i]);
    }
  }

  /** Election safety for runs in which no vote is counted by a candidate that has not asked for votes. */
  lemma SafeIfAsked(s: Settings, voters: nat -> set<Id>, cs: seq<Cluster>, es: seq<Event>, i: nat, w: Win, x: Win)
    requires Run(s, voters, cs, es) && AllAsked(cs, es) && i < |cs|
    requires w in cs[i].wins && x in cs[i].wins && w.epoch == x.epoch
    ensures w.winner == x.winner
  {
    AskedRunsStartFromZero(s, voters, cs, es);
    AtMostOneWinner(s, voters, cs, es, i, w, x);
  }

  // ------------------------------------------------------------------
  // Votes come in time
  // ------------------------------------------------------------------

  /** The election an auth packet belongs to is still the candidate's current one, or the packet is late. */
  ghost predicate Timely(s: Settings, candidate: Node, epoch: nat, stamp: int) {
    || (candidate.authSent && epoch == candidate.authEpoch && stamp == candidate.authTime)
    || stamp + AuthRetryTime(s.nodeTimeout) < candidate.now
  }

  ghost predicate TimelyPacket(s: Settings, nodes: map<Id, Node>, p: Packet) {
    match p.body
    case AuthRequest(_, stamp) => p.hdr.sender in nodes && Timely(s, nodes[p.hdr.sender], p.hdr.currentEpoch, stamp)
    case AuthAck(stamp) => p.to in nodes && Timely(s, nodes[p.to], p.hdr.currentEpoch, stamp)
    case _ => true
  }

  ghost predicate TimelyInv(s: Settings, c: Cluster) {
    forall p :: p in c.net ==> TimelyPacket(s, c.nodes, p)
  }

  /** What keeps packets timely: the clock runs forward, and a candidate changes its election only when the packets of
      the one before are late. */
  ghost predicate Passes(s: Settings, n: Node, n': Node) {
    forall epoch, stamp :: Timely(s, n, epoch, stamp) ==> Timely(s, n', epoch, stamp)
  }

  lemma SamePasses(s: Settings, n: Node, n': Node)
    requires n.now <= n'.now && n'.authSent == n.authSent && n'.authEpoch == n.authEpoch && n'.authTime == n.authTime
    ensures Passes(s, n, n')
  {}

  lemma FailoverPasses(s: Settings, n: Node, i: FailoverInput)
    requires n.Valid()
    ensures Passes(s, n, HandleFailover(n, i, s.nodeTimeout))
  {
    FailoverShape(n, i, s.nodeTimeout);
    hide HandleFailover, FailoverDecision;
  }

  lemma TimelyKept(s: Settings, c: Cluster, d: Cluster, n: Id)
    requires TimelyInv(s, c) && OnlyNode(c, d, n) && Passes(s, c.nodes[n], d.nodes[n])
    requires forall q :: q in d.net ==> q in c.net || TimelyPacket(s, d.nodes, q)
    ensures TimelyInv(s, d)
  {
    forall q | q in d.net ensures TimelyPacket(s, d.nodes, q) {
      if q in c.net { assert TimelyPacket(s, c.nodes, q); }
    }
  }

  lemma RequestsTimely(s: Settings, c: Cluster, nodes: map<Id, Node>, n: Id, forced: bool)
    requires n in nodes && nodes[n].Valid() && nodes[n].me == n
    requires nodes[n].authSent && nodes[n].authEpoch == nodes[n].currentEpoch
    ensures forall q :: q in Requests(c, nodes[n], forced) ==> TimelyPacket(s, nodes, q)
  {}

  lemma FailoverTimely(s: Settings, c: Cluster, n: Id, i: FailoverInput)
    requires EpochInv(c) && TimelyInv(s, c) && n in c.nodes
    ensures TimelyInv(s, NextFailover(s, c, n, i))
  {
    var d := NextFailover(s, c, n, i);
    FailoverShape(c.nodes[n], i, s.nodeTimeout);
    FailoverPasses(s, c.nodes[n], i);
    assert c.nodes[n].me == n && n in c.counted;
    hide HandleFailover, FailoverDecision, Passes, TimelyInv, TimelyPacket;
    NextFailoverShape(s, c, n, i);
    hide NextFailover, Requests, EpochInv;
    if FailoverDecision(c.nodes[n], i, s.nodeTimeout).Requested? {
      RequestsTimely(s, c, d.nodes, n, i.mfEnd);
    }
    TimelyKept(s, c, d, n);
  }

  lemma VoteTimely(s: Settings, c: Cluster, p: Packet)
    requires EpochInv(c) && TimelyInv(s, c) && p in c.net && p.to in c.nodes && p.body.AuthRequest?
    requires p.hdr.sender in c.nodes[p.to].peers
    requires GrantsVote(Absorb(c.nodes[p.to], p.hdr), p.hdr, p.body.forced, s.nodeTimeout)
    ensures TimelyInv(s, NextRequest(s, c, p, c.nodes[p.to]))
  {
    var voter := CastVote(Absorb(c.nodes[p.to], p.hdr), p.hdr);
    var ack := Packet(c.serial, p.hdr.sender, HeaderOf(voter), AuthAck(p.body.stamp));
    var d := NextRequest(s, c, p, c.nodes[p.to]);
    VoteShape(s, c, p, ack, Vote(p.to, p.hdr.currentEpoch, p.hdr.sender));
    RequestShape(s, c, p);
    assert TimelyPacket(s, c.nodes, p);
    hide EpochInv, NextRequest, GrantsVote, Absorb, HeaderOf, CastVote;
    SamePasses(s, c.nodes[p.to], d.nodes[p.to]);
    assert TimelyPacket(s, d.nodes, ack);
    TimelyKept(s, c, d, p.to);
  }

  /** Delivering anything else sends nothing of an election. */
  lemma NothingSent(s: Settings, voters: nat -> set<Id>, c: Cluster, p: Packet, redirect: bool, first: Option<Slot>)
    requires EpochInv(c) && CanDeliver(s, voters, c, p, redirect, first)
    requires p.body.AuthRequest? ==>
               !GrantsVote(Absorb(c.nodes[p.to], p.hdr), p.hdr, p.body.forced, s.nodeTimeout)
    ensures forall q :: q in NextDeliver(s, voters, c, p, redirect, first).net ==> q in c.net || NotAuth(q)
  {
    hide AfterSlots, ProcessPing, ProcessUpdate, Absorb, GrantsVote, CountsVote, HeaderOf, PingReplies;
    var n := c.nodes[p.to];
    if p.body.Ping? { PingRepliesOk(s, c, p, n, redirect, first); }
  }

  lemma DeliverTimely(s: Settings, voters: nat -> set<Id>, c: Cluster, p: Packet, redirect: bool, first: Option<Slot>)
    requires EpochInv(c) && TimelyInv(s, c) && CanDeliver(s, voters, c, p, redirect, first)
    ensures TimelyInv(s, NextDeliver(s, voters, c, p, redirect, first))
  {
    var d := NextDeliver(s, voters, c, p, redirect, first);
    hide EpochInv, Absorb, GrantsVote, NextPing, NextRequest, NextAck, ProcessUpdate, Put;
    hide TimelyInv, TimelyPacket, AfterSlots;
    if p.body.AuthRequest? && GrantsVote(Absorb(c.nodes[p.to], p.hdr), p.hdr, p.body.forced, s.nodeTimeout) {
      VoteTimely(s, c, p);
    } else {
      DeliverShape(s, voters, c, p, redirect, first);
      NothingSent(s, voters, c, p, redirect, first);
      SamePasses(s, c.nodes[p.to], d.nodes[p.to]);
      NotAuthTimely(s, d);
      TimelyKept(s, c, d, p.to);
    }
  }

  lemma NotAuthTimely(s: Settings, d: Cluster)
    ensures forall q :: q in d.net && NotAuth(q) ==> TimelyPacket(s, d.nodes, q)
  {}

  lemma StepTimely(s: Settings, voters: nat -> set<Id>, c: Cluster, e: Event, d: Cluster)
    requires EpochInv(c) && TimelyInv(s, c) && Step(s, voters, c, e, d)
    ensures TimelyInv(s, d)
  {
    hide EpochInv, CanDeliver, NextDeliver, NextFailover, FailoverDecision, HandleFailover, Do, HeaderOf, CanDo, Passes,
         TimelyPacket, Node.Valid;
    match e
    case Local(n, op) =>
      LocalShape(c.nodes[n], op);
      SamePasses(s, c.nodes[n], d.nodes[n]);
      TimelyKept(s, c, d, n);
    case SendPing(n, to, wantsPong) =>
      SamePasses(s, c.nodes[n], d.nodes[n]);
      NotAuthTimely(s, d);
      TimelyKept(s, c, d, n);
    case Deliver(p, redirect, first) => DeliverTimely(s, voters, c, p, redirect, first);
    case Failover(n, i) => FailoverTimely(s, c, n, i);
    case Drop(p) =>
  }

  lemma InitTimely(s: Settings, c: Cluster)
    requires Init(c)
    ensures TimelyInv(s, c)
  {
    hide EpochInv;
  }

  lemma {:induction false} RunIsTimely(s: Settings, voters: nat -> set<Id>, cs: seq<Cluster>, es: seq<Event>, i: nat)
    requires Run(s, voters, cs, es) && i < |cs|
    ensures TimelyInv(s, cs[i])
  {
    hide *;
    FirstOf(s, voters, cs, es);
    if i == 0 {
      InitTimely(s, cs[0]);
    } else {
      RunIsTimely(s, voters, cs, es, i - 1);
      RunKeepsEpochs(s, voters, cs, es, i - 1);
      StepAt(s, voters, cs, es, i - 1);
      StepTimely(s, voters, cs[i - 1], es[i - 1], cs[i]);
    }
  }

  /** No vote comes later than the retry time after the start of its election. */
  ghost predicate InTime(s: Settings, c: Cluster, e: Event) {
    e.Deliver? && e.p.body.AuthAck? && e.p.to in c.nodes ==>
      c.nodes[e.p.to].now - e.p.body.stamp <= AuthRetryTime(s.nodeTimeout)
  }

  ghost predicate AllInTime(s: Settings, cs: seq<Cluster>, es: seq<Event>) {
    forall i :: 0 <= i < |es| && i < |cs| ==> InTime(s, cs[i], es[i])
  }

  lemma InTimeIsAsked(s: Settings, voters: nat -> set<Id>, c: Cluster, e: Event, d: Cluster)
    requires TimelyInv(s, c) && Step(s, voters, c, e, d) && InTime(s, c, e)
    ensures Asked(c, e)
  {
    if Counts(c, e) { assert TimelyPacket(s, c.nodes, e.p); }
  }

  /** Election safety for runs in which votes come in time. */
  lemma SafeIfInTime(s: Settings, voters: nat -> set<Id>, cs: seq<Cluster>, es: seq<Event>, i: nat, w: Win, x: Win)
    requires Run(s, voters, cs, es) && AllInTime(s, cs, es) && i < |cs|
    requires w in cs[i].wins && x in cs[i].wins && w.epoch == x.epoch
    ensures w.winner == x.winner
  {
    hide Step, Asked, InTime, TimelyInv;
    forall k | 0 <= k < |es| && WellFormed(cs[k]) ensures Asked(cs[k], es[k]) {
      RunIsTimely(s, voters, cs, es, k);
      assert Step(s, voters, cs[k], es[k], cs[k + 1]);
      InTimeIsAsked(s, voters, cs[k], es[k], cs[k + 1]);
    }
    SafeIfAsked(s, voters, cs, es, i, w, x);
  }
}
