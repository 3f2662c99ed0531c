/** Election safety: no two replicas win the same epoch.

    The vote counter is reset when an election is scheduled and not when its epoch is taken, so safety is not
    unconditional. What it needs, exactly, is that every request for votes is made with the counter at zero. */
module Election {
  import opened Common
  import opened ClusterNode
  import opened ClusterBus

  /** Each voter votes at most once per epoch, only where it may, and remembers its last epoch. */
  ghost predicate VotesOk(voters: nat -> set<Id>, c: Cluster) {
    && (forall v :: v in c.votes ==>
          && v.voter in c.nodes && v.epoch <= c.nodes[v.voter].lastVoteEpoch && v.voter in voters(v.epoch)
          && v.candidate in c.nodes && v.epoch <= c.nodes[v.candidate].authEpoch)
    && (forall v, w :: v in c.votes && w in c.votes && v.voter == w.voter && v.epoch == w.epoch ==> v == w)
  }

  ghost predicate RequestOk(c: Cluster, p: Packet) {
    p.body.AuthRequest? ==>
      && p.hdr.sender in c.nodes
      && p.hdr.currentEpoch <= c.nodes[p.hdr.sender].authEpoch
  }

  /** A vote in flight was cast, and has not been counted by the election it was cast for. */
  ghost predicate AckOk(c: Cluster, p: Packet) {
    p.body.AuthAck? ==>
      && p.to in c.nodes && p.to in c.counted
      && Vote(p.hdr.sender, p.hdr.currentEpoch, p.to) in c.votes
      && (c.nodes[p.to].authSent && p.hdr.currentEpoch == c.nodes[p.to].authEpoch ==> p.hdr.sender !in c.counted[p.to])
  }

  /** Two votes of one voter in one epoch. */
  ghost predicate SameVote(p: Packet, q: Packet) {
    p.body.AuthAck? && q.body.AuthAck? && p.hdr.sender == q.hdr.sender && p.hdr.currentEpoch == q.hdr.currentEpoch
  }

  ghost predicate PacketsOk(c: Cluster) {
    && (forall p :: p in c.net ==> RequestOk(c, p) && AckOk(c, p))
    && (forall p, q :: p in c.net && q in c.net && SameVote(p, q) ==> p == q)
  }

  /** The counter of a candidate is the number of distinct voters of its current election. */
  ghost predicate CountOkFor(c: Cluster, n: Id) {
    && n in c.nodes && n in c.counted
    && (c.nodes[n].authCount == 0 ==> c.counted[n] == {})
    && (c.nodes[n].authSent ==>
          && c.nodes[n].authCount == |c.counted[n]|
          && forall v :: v in c.counted[n] ==> Vote(v, c.nodes[n].authEpoch, n) in c.votes)
  }

  ghost predicate CountsOk(c: Cluster) {
    forall n :: n in c.nodes ==> CountOkFor(c, n)
  }

  /** Every win is backed by a majority of the voting masters of its epoch. */
  ghost predicate Backed(voters: nat -> set<Id>, votes: set<Vote>, w: Win) {
    && w.quorum <= voters(w.epoch)
    && |w.quorum| >= |voters(w.epoch)| / 2 + 1
    && forall v :: v in w.quorum ==> Vote(v, w.epoch, w.winner) in votes
  }

  ghost predicate WinsOk(voters: nat -> set<Id>, c: Cluster) {
    forall w :: w in c.wins ==> Backed(voters, c.votes, w)
  }

  ghost predicate ElectionInv(voters: nat -> set<Id>, c: Cluster) {
    EpochInv(c) && VotesOk(voters, c) && PacketsOk(c) && CountsOk(c) && WinsOk(voters, c)
  }

  // ------------------------------------------------------------------
  // Steps that are not about elections
  // ------------------------------------------------------------------

  ghost predicate NotAuth(p: Packet) { !p.body.AuthRequest? && !p.body.AuthAck? }

  /** Failover state and votes untouched; the clock may have moved on. */
  ghost predicate Quiet(n: Node, n': Node) {
    && n.now <= n'.now && n'.lastVoteEpoch == n.lastVoteEpoch
    && n'.authTime == n.authTime && n'.authSent == n.authSent
    && n'.authCount == n.authCount && n'.authEpoch == n.authEpoch
  }

  ghost predicate AllQuiet(c: Cluster, d: Cluster) {
    d.nodes.Keys == c.nodes.Keys && forall m :: m in c.nodes ==> Quiet(c.nodes[m], d.nodes[m])
  }

  lemma VotesKept(voters: nat -> set<Id>, c: Cluster, d: Cluster)
    requires VotesOk(voters, c) && d.votes == c.votes && d.nodes.Keys == c.nodes.Keys
    requires forall m :: m in c.nodes ==>
               c.nodes[m].lastVoteEpoch <= d.nodes[m].lastVoteEpoch && c.nodes[m].authEpoch <= d.nodes[m].authEpoch
    ensures VotesOk(voters, d)
  {}

  lemma PacketsKept(c: Cluster, d: Cluster)
    requires PacketsOk(c) && AllQuiet(c, d) && d.votes == c.votes && d.counted == c.counted
    requires forall q :: q in d.net ==> q in c.net || NotAuth(q)
    ensures PacketsOk(d)
  {
    forall q | q in d.net ensures RequestOk(d, q) && AckOk(d, q) {
      assert q in c.net ==> RequestOk(c, q) && AckOk(c, q);
    }
  }

  ghost predicate SameCounters(c: Cluster, d: Cluster) {
    && d.nodes.Keys == c.nodes.Keys && d.counted == c.counted
    && forall m :: m in c.nodes ==>
         && d.nodes[m].authCount == c.nodes[m].authCount && d.nodes[m].authSent == c.nodes[m].authSent
         && d.nodes[m].authEpoch == c.nodes[m].authEpoch
  }

  lemma CountsKept(c: Cluster, d: Cluster)
    requires CountsOk(c) && SameCounters(c, d) && c.votes <= d.votes
    ensures CountsOk(d)
  {
    forall m | m in d.nodes ensures CountOkFor(d, m) { assert CountOkFor(c, m); }
  }

  lemma WinsKept(voters: nat -> set<Id>, c: Cluster, d: Cluster)
    requires WinsOk(voters, c) && d.wins == c.wins && c.votes <= d.votes
    ensures WinsOk(voters, d)
  {
    forall w | w in d.wins ensures Backed(voters, d.votes, w) { assert Backed(voters, c.votes, w); }
  }

  lemma QuietStep(voters: nat -> set<Id>, c: Cluster, n: Id, node: Node, consumed: set<Packet>, sent: set<Packet>)
    requires ElectionInv(voters, c) && n in c.nodes && Quiet(c.nodes[n], node)
    requires forall q :: q in sent ==> NotAuth(q)
    requires EpochInv(Put(c, n, node, consumed, sent))
    ensures ElectionInv(voters, Put(c, n, node, consumed, sent))
  {
    hide EpochInv, VotesOk, PacketsOk, CountsOk, WinsOk;
    var d := Put(c, n, node, consumed, sent);
    VotesKept(voters, c, d); PacketsKept(c, d); CountsKept(c, d); WinsKept(voters, c, d);
  }

  lemma DropStep(voters: nat -> set<Id>, c: Cluster, p: Packet)
    requires ElectionInv(voters, c)
    ensures ElectionInv(voters, c.(net := c.net - {p}))
  {
    hide NodeOk, PacketOk, VotesOk, PacketsOk, CountsOk, WinsOk;
    var d := c.(net := c.net - {p});
    VotesKept(voters, c, d); PacketsKept(c, d); CountsKept(c, d); WinsKept(voters, c, d);
  }

  // ------------------------------------------------------------------
  // Casting a vote
  // ------------------------------------------------------------------

  /** The epoch a granted vote is cast for is the epoch asked for, and is new to the voter. */
  lemma GrantEpoch(n: Node, p: Packet, forced: bool, nodeTimeout: nat)
    requires NodeOk(n) && p.hdr.sender in n.peers
    requires GrantsVote(Absorb(n, p.hdr), p.hdr, forced, nodeTimeout)
    ensures Absorb(n, p.hdr).currentEpoch == p.hdr.currentEpoch
    ensures n.lastVoteEpoch < p.hdr.currentEpoch
  {}

  lemma NewVoteOk(voters: nat -> set<Id>, c: Cluster, d: Cluster, vote: Vote)
    requires VotesOk(voters, c) && d.votes == c.votes + {vote} && d.nodes.Keys == c.nodes.Keys
    requires vote.voter in c.nodes && vote.candidate in c.nodes && vote.voter in voters(vote.epoch)
    requires c.nodes[vote.voter].lastVoteEpoch < vote.epoch <= d.nodes[vote.voter].lastVoteEpoch
    requires forall n :: n in c.nodes ==>
               c.nodes[n].lastVoteEpoch <= d.nodes[n].lastVoteEpoch && c.nodes[n].authEpoch == d.nodes[n].authEpoch
    requires vote.epoch <= c.nodes[vote.candidate].authEpoch
    ensures VotesOk(voters, d)
  {}

  /** What a granted vote changes. */
  lemma VoteShape(s: Settings, c: Cluster, p: Packet, ack: Packet, vote: Vote)
    requires EpochInv(c) && p in c.net && p.to in c.nodes && p.body.AuthRequest?
    requires p.hdr.sender in c.nodes[p.to].peers
    requires GrantsVote(Absorb(c.nodes[p.to], p.hdr), p.hdr, p.body.forced, s.nodeTimeout)
    requires vote == Vote(p.to, p.hdr.currentEpoch, p.hdr.sender)
    requires var v := CastVote(Absorb(c.nodes[p.to], p.hdr), p.hdr);
             ack == Packet(c.serial, p.hdr.sender, HeaderOf(v), AuthAck(p.body.stamp))
    ensures var d := NextRequest(s, c, p, c.nodes[p.to]);
            && d.votes == c.votes + {vote} && d.net == c.net - {p} + {ack} && d.counted == c.counted && d.wins == c.wins
            && d.nodes.Keys == c.nodes.Keys
            && (forall n :: n in c.nodes ==>
                  SameFailover(c.nodes[n], d.nodes[n]) && c.nodes[n].lastVoteEpoch <= d.nodes[n].lastVoteEpoch)
            && c.nodes[p.to].lastVoteEpoch < p.hdr.currentEpoch <= d.nodes[p.to].lastVoteEpoch
    ensures ack.hdr.currentEpoch == p.hdr.currentEpoch && ack.hdr.sender == p.to
    ensures Absorb(c.nodes[p.to], p.hdr).currentEpoch == p.hdr.currentEpoch
  {
    GrantEpoch(c.nodes[p.to], p, p.body.forced, s.nodeTimeout);
    hide GrantsVote, PacketOk;
  }

  lemma VoteStep(s: Settings, voters: nat -> set<Id>, c: Cluster, p: Packet)
    requires ElectionInv(voters, c) && p in c.net && p.to in c.nodes && p.body.AuthRequest?
    requires p.hdr.sender in c.nodes[p.to].peers
    requires GrantsVote(Absorb(c.nodes[p.to], p.hdr), p.hdr, p.body.forced, s.nodeTimeout)
    requires p.to in voters(Absorb(c.nodes[p.to], p.hdr).currentEpoch)
    requires EpochInv(NextRequest(s, c, p, c.nodes[p.to]))
    ensures ElectionInv(voters, NextRequest(s, c, p, c.nodes[p.to]))
  {
    var vote := Vote(p.to, p.hdr.currentEpoch, p.hdr.sender);
    var voter := CastVote(Absorb(c.nodes[p.to], p.hdr), p.hdr);
    var ack := Packet(c.serial, p.hdr.sender, HeaderOf(voter), AuthAck(p.body.stamp));
    var d := NextRequest(s, c, p, c.nodes[p.to]);
    VoteShape(s, c, p, ack, vote);
    assert RequestOk(c, p);
    hide *;
    NewVoteOk(voters, c, d, vote);
    VotePackets(voters, c, d, p, ack, vote);
    SameFailoverCounters(c, d);
    CountsKept(c, d);
    WinsKept(voters, c, d);
    Assemble(voters, d);
  }

  lemma SameFailoverCounters(c: Cluster, d: Cluster)
    requires d.nodes.Keys == c.nodes.Keys && d.counted == c.counted
    requires forall n :: n in c.nodes ==> SameFailover(c.nodes[n], d.nodes[n])
    ensures SameCounters(c, d)
  {}

  lemma Assemble(voters: nat -> set<Id>, c: Cluster)
    requires EpochInv(c) && VotesOk(voters, c) && PacketsOk(c) && CountsOk(c) && WinsOk(voters, c)
    ensures ElectionInv(voters, c)
  {}

  lemma VotePackets(voters: nat -> set<Id>, c: Cluster, d: Cluster, p: Packet, ack: Packet, vote: Vote)
    requires VotesOk(voters, c) && PacketsOk(c) && CountsOk(c)
    requires p in c.net && p.body.AuthRequest? && p.to in c.nodes
    requires d.votes == c.votes + {vote} && d.net == c.net - {p} + {ack} && d.counted == c.counted
    requires d.nodes.Keys == c.nodes.Keys && forall n :: n in c.nodes ==> SameFailover(c.nodes[n], d.nodes[n])
    requires ack.to == p.hdr.sender && ack.body == AuthAck(p.body.stamp)
    requires ack.hdr.sender == p.to && ack.hdr.currentEpoch == p.hdr.currentEpoch
    requires vote == Vote(p.to, p.hdr.currentEpoch, p.hdr.sender)
    requires c.nodes[p.to].lastVoteEpoch < p.hdr.currentEpoch
    ensures PacketsOk(d)
  {
    assert RequestOk(c, p);
    assert forall v :: v in c.votes && v.voter == p.to ==> v.epoch < p.hdr.currentEpoch;
    assert AckOk(d, ack) by {
      var cand := p.hdr.sender;
      assert CountOkFor(c, cand);
    }
    forall q | q in c.net && q != p ensures RequestOk(d, q) && AckOk(d, q) && !SameVote(q, ack) {
      assert RequestOk(c, q) && AckOk(c, q);
    }
  }

  ghost predicate SameFailover(n: Node, n': Node) {
    && n'.now == n.now && n'.authTime == n.authTime && n'.authSent == n.authSent
    && n'.authCount == n.authCount && n'.authEpoch == n.authEpoch
  }

  // ------------------------------------------------------------------
  // Counting a vote
  // ------------------------------------------------------------------

  /** A vote counted by a candidate that has asked for votes is of its current election: the epoch test shuts out
      anything older, and nobody votes in an epoch that the candidate has not reached. */
  lemma AckIsCurrent(voters: nat -> set<Id>, c: Cluster, p: Packet)
    requires ElectionInv(voters, c) && p in c.net && p.body.AuthAck? && p.to in c.nodes
    requires p.hdr.sender in c.nodes[p.to].peers && CountsVote(Absorb(c.nodes[p.to], p.hdr), p.hdr)
    requires c.nodes[p.to].authSent
    ensures p.hdr.currentEpoch == c.nodes[p.to].authEpoch
    ensures p.to in c.counted && p.hdr.sender !in c.counted[p.to]
    ensures Vote(p.hdr.sender, c.nodes[p.to].authEpoch, p.to) in c.votes
  {
    assert AckOk(c, p);
  }

  lemma CountShape(c: Cluster, p: Packet)
    requires EpochInv(c) && p in c.net && p.to in c.nodes && p.hdr.sender in c.nodes[p.to].peers
    requires CountsVote(Absorb(c.nodes[p.to], p.hdr), p.hdr)
    ensures var d := NextAck(c, p, c.nodes[p.to]);
            && d.votes == c.votes && d.net == c.net - {p} && d.wins == c.wins
            && d.counted == c.counted[p.to := c.counted[p.to] + {p.hdr.sender}]
            && d.nodes.Keys == c.nodes.Keys
            && (forall n :: n in c.nodes ==> SameButCount(c.nodes[n], d.nodes[n]))
            && (forall n :: n in c.nodes && n != p.to ==> d.nodes[n].authCount == c.nodes[n].authCount)
            && d.nodes[p.to].authCount == c.nodes[p.to].authCount + 1
  {
    hide PacketOk, NodeOk, CountsVote;
  }

  ghost predicate SameButCount(n: Node, n': Node) {
    && n'.now == n.now && n'.lastVoteEpoch == n.lastVoteEpoch && n'.authTime == n.authTime
    && n'.authSent == n.authSent && n'.authEpoch == n.authEpoch
  }

  lemma CountPackets(c: Cluster, d: Cluster, p: Packet)
    requires PacketsOk(c) && p in c.net && p.body.AuthAck? && p.to in c.counted && p.to in c.nodes
    requires d.votes == c.votes && d.net == c.net - {p}
    requires d.counted == c.counted[p.to := c.counted[p.to] + {p.hdr.sender}]
    requires d.nodes.Keys == c.nodes.Keys && forall n :: n in c.nodes ==> SameButCount(c.nodes[n], d.nodes[n])
    requires c.nodes[p.to].authSent ==> p.hdr.currentEpoch == c.nodes[p.to].authEpoch
    ensures PacketsOk(d)
  {
    forall q | q in d.net ensures RequestOk(d, q) && AckOk(d, q) {
      assert RequestOk(c, q) && AckOk(c, q);
      if q.body.AuthAck? && q.hdr.currentEpoch == p.hdr.currentEpoch && q.hdr.sender == p.hdr.sender {
        assert SameVote(p, q);
      }
    }
  }

  lemma CountCounts(c: Cluster, d: Cluster, n: Id, voter: Id)
    requires CountsOk(c) && n in c.nodes && n in c.counted
    requires c.nodes[n].authSent ==> voter !in c.counted[n] && Vote(voter, c.nodes[n].authEpoch, n) in c.votes
    requires d.votes == c.votes && d.counted == c.counted[n := c.counted[n] + {voter}]
    requires d.nodes.Keys == c.nodes.Keys && forall m :: m in c.nodes ==> SameButCount(c.nodes[m], d.nodes[m])
    requires forall m :: m in c.nodes && m != n ==> d.nodes[m].authCount == c.nodes[m].authCount
    requires d.nodes[n].authCount == c.nodes[n].authCount + 1
    ensures CountsOk(d)
  {
    forall m | m in d.nodes ensures CountOkFor(d, m) { assert CountOkFor(c, m); }
  }

  lemma CountStep(voters: nat -> set<Id>, c: Cluster, p: Packet)
    requires ElectionInv(voters, c) && p in c.net && p.body.AuthAck? && p.to in c.nodes
    requires p.hdr.sender in c.nodes[p.to].peers && CountsVote(Absorb(c.nodes[p.to], p.hdr), p.hdr)
    requires EpochInv(NextAck(c, p, c.nodes[p.to]))
    ensures ElectionInv(voters, NextAck(c, p, c.nodes[p.to]))
  {
    var d := NextAck(c, p, c.nodes[p.to]);
    if c.nodes[p.to].authSent { AckIsCurrent(voters, c, p); }
    assert AckOk(c, p);
    CountShape(c, p);
    assert forall n :: n in c.nodes ==>
      d.nodes[n].lastVoteEpoch == c.nodes[n].lastVoteEpoch && d.nodes[n].authEpoch == c.nodes[n].authEpoch;
    hide *;
    VotesKept(voters, c, d);
    CountPackets(c, d, p);
    CountCounts(c, d, p.to, p.hdr.sender);
    WinsKept(voters, c, d);
    Assemble(voters, d);
  }

  // ------------------------------------------------------------------
  // The failover timer
  // ------------------------------------------------------------------

  /** Node `n` alone changes, and only in its failover state. */
  ghost predicate OnlyNode(c: Cluster, d: Cluster, n: Id) {
    && n in c.nodes && d.nodes.Keys == c.nodes.Keys
    && forall m :: m in c.nodes && m != n ==> d.nodes[m] == c.nodes[m]
  }

  /** A scheduled election has nothing in flight. */
  lemma SchedulePackets(c: Cluster, d: Cluster, n: Id)
    requires PacketsOk(c) && OnlyNode(c, d, n) && n in c.counted
    requires d.votes == c.votes && d.net == c.net && d.counted == c.counted[n := {}]
    requires d.nodes[n].authEpoch == c.nodes[n].authEpoch && !d.nodes[n].authSent
    ensures PacketsOk(d)
  {
    forall q | q in d.net ensures RequestOk(d, q) && AckOk(d, q) {
      assert RequestOk(c, q) && AckOk(c, q);
    }
  }

  /** Whatever is in flight when an election begins is of an older epoch. */
  lemma RequestPackets(voters: nat -> set<Id>, c: Cluster, d: Cluster, n: Id, forced: bool)
    requires VotesOk(voters, c) && PacketsOk(c) && OnlyNode(c, d, n)
    requires d.votes == c.votes && d.counted == c.counted
    requires d.nodes[n].Valid() && d.nodes[n].me == n && d.net == c.net + Requests(c, d.nodes[n], forced)
    requires c.nodes[n].authEpoch < d.nodes[n].authEpoch
    requires d.nodes[n].authSent && d.nodes[n].authEpoch == d.nodes[n].currentEpoch
    ensures PacketsOk(d)
  {
    forall q | q in d.net ensures RequestOk(d, q) && AckOk(d, q) {
      if q in c.net { assert RequestOk(c, q) && AckOk(c, q); }
    }
  }

  /** The start of an election plays no part here. */
  lemma RankPackets(c: Cluster, d: Cluster, n: Id)
    requires PacketsOk(c) && OnlyNode(c, d, n)
    requires d.votes == c.votes && d.net == c.net && d.counted == c.counted
    requires d.nodes[n].authEpoch == c.nodes[n].authEpoch && d.nodes[n].authSent == c.nodes[n].authSent
    ensures PacketsOk(d)
  {
    forall q | q in d.net ensures RequestOk(d, q) && AckOk(d, q) {
      assert RequestOk(c, q) && AckOk(c, q);
    }
  }

  lemma NodeCounts(c: Cluster, d: Cluster, n: Id)
    requires CountsOk(c) && OnlyNode(c, d, n) && d.votes == c.votes && n in c.counted
    requires || (d.counted == c.counted && d.nodes[n].authCount == c.nodes[n].authCount
                 && d.nodes[n].authEpoch == c.nodes[n].authEpoch && d.nodes[n].authSent == c.nodes[n].authSent)
             || (d.counted == c.counted && d.nodes[n].authCount == c.nodes[n].authCount == 0)
             || (d.counted == c.counted[n := {}] && d.nodes[n].authCount == 0)
    ensures CountsOk(d)
  {
    forall m | m in d.nodes ensures CountOkFor(d, m) { assert CountOkFor(c, m); }
  }

  /** A candidate that reaches its quorum has a majority of the voting masters behind it. */
  lemma WinIsBacked(voters: nat -> set<Id>, c: Cluster, n: Id, size: nat)
    requires VotesOk(voters, c) && CountsOk(c) && n in c.nodes && n in c.counted
    requires c.nodes[n].authSent && c.nodes[n].authCount >= size / 2 + 1 && size == |voters(c.nodes[n].authEpoch)|
    ensures Backed(voters, c.votes, Win(n, c.nodes[n].authEpoch, c.counted[n]))
  {
    assert CountOkFor(c, n);
    forall v | v in c.counted[n] ensures v in voters(c.nodes[n].authEpoch) {
      assert Vote(v, c.nodes[n].authEpoch, n) in c.votes;
    }
  }

  /** What each decision of the failover timer does to the failover state. */
  lemma FailoverShape(n: Node, i: FailoverInput, nodeTimeout: nat)
    requires n.Valid()
    ensures var n' := HandleFailover(n, i, nodeTimeout);
            n'.now == n.now && n'.lastVoteEpoch == n.lastVoteEpoch && n'.me == n.me && n'.Valid() &&
            match FailoverDecision(n, i, nodeTimeout)
            case Nothing =>
              && n'.authEpoch == n.authEpoch && n'.authSent == n.authSent && n'.authCount == n.authCount
              && (n.authSent ==> n'.authTime == n.authTime)
            case Scheduled =>
              && n.now - n.authTime > AuthRetryTime(nodeTimeout)
              && n'.authEpoch == n.authEpoch && !n'.authSent && n'.authCount == 0
            case Requested =>
              && !n.authSent && n'.authSent && n'.authCount == n.authCount
              && n'.authEpoch == n'.currentEpoch == n.currentEpoch + 1
            case Won =>
              && n.authSent && n.authCount >= i.size / 2 + 1
              && n'.authEpoch == n.authEpoch && n'.authSent == n.authSent && n'.authCount == n.authCount
              && n'.authTime == n.authTime
  {}

  lemma NextFailoverShape(s: Settings, c: Cluster, n: Id, i: FailoverInput)
    requires n in c.nodes && c.nodes[n].Valid() && n in c.counted
    ensures var d := NextFailover(s, c, n, i);
            var after := HandleFailover(c.nodes[n], i, s.nodeTimeout);
            OnlyNode(c, d, n) && d.nodes[n] == after && d.votes == c.votes &&
            match FailoverDecision(c.nodes[n], i, s.nodeTimeout)
            case Nothing => d.net == c.net && d.counted == c.counted && d.wins == c.wins
            case Scheduled => d.net == c.net && d.counted == c.counted[n := {}] && d.wins == c.wins
            case Requested => d.net == c.net + Requests(c, after, i.mfEnd) && d.counted == c.counted && d.wins == c.wins
            case Won =>
              && d.net == c.net && d.counted == c.counted
              && d.wins == c.wins + {Win(n, c.nodes[n].authEpoch, c.counted[n])}
  {
    hide HandleFailover, FailoverDecision, Requests;
  }

  lemma FailoverStep(s: Settings, voters: nat -> set<Id>, c: Cluster, n: Id, i: FailoverInput)
    requires ElectionInv(voters, c) && n in c.nodes
    requires FailoverDecision(c.nodes[n], i, s.nodeTimeout).Won? ==> i.size == |voters(c.nodes[n].authEpoch)|
    requires FailoverDecision(c.nodes[n], i, s.nodeTimeout).Requested? ==> c.nodes[n].authCount == 0
    requires EpochInv(NextFailover(s, c, n, i))
    ensures ElectionInv(voters, NextFailover(s, c, n, i))
  {
    var before := c.nodes[n];
    var d := NextFailover(s, c, n, i);
    FailoverShape(before, i, s.nodeTimeout);
    assert NodeOk(before) && before.authEpoch <= before.currentEpoch && n in c.counted;
    hide HandleFailover, FailoverDecision;
    NextFailoverShape(s, c, n, i);
    hide *;
    match FailoverDecision(before, i, s.nodeTimeout)
    case Nothing =>
      VotesOnly(voters, c, d, n); RankPackets(c, d, n); NodeCounts(c, d, n); WinsKept(voters, c, d);
      Assemble(voters, d);
    case Scheduled =>
      VotesOnly(voters, c, d, n); SchedulePackets(c, d, n); NodeCounts(c, d, n); WinsKept(voters, c, d);
      Assemble(voters, d);
    case Requested =>
      VotesOnly(voters, c, d, n); RequestPackets(voters, c, d, n, i.mfEnd); NodeCounts(c, d, n); WinsKept(voters, c, d);
      Assemble(voters, d);
    case Won =>
      VotesOnly(voters, c, d, n); RankPackets(c, d, n); NodeCounts(c, d, n);
      WinIsBacked(voters, c, n, i.size);
      NewWin(voters, c, d, Win(n, before.authEpoch, c.counted[n]));
      Assemble(voters, d);
  }

  lemma VotesOnly(voters: nat -> set<Id>, c: Cluster, d: Cluster, n: Id)
    requires VotesOk(voters, c) && OnlyNode(c, d, n) && d.votes == c.votes
    requires d.nodes[n].lastVoteEpoch == c.nodes[n].lastVoteEpoch && c.nodes[n].authEpoch <= d.nodes[n].authEpoch
    ensures VotesOk(voters, d)
  {
    VotesKept(voters, c, d);
  }

  lemma NewWin(voters: nat -> set<Id>, c: Cluster, d: Cluster, w: Win)
    requires WinsOk(voters, c) && d.wins == c.wins + {w} && d.votes == c.votes && Backed(voters, c.votes, w)
    ensures WinsOk(voters, d)
  {
    hide Backed;
  }

  // ------------------------------------------------------------------
  // All steps, all runs
  // ------------------------------------------------------------------

  lemma DoIsQuiet(n: Node, op: LocalOp)
    requires n.Valid() && CanDo(n, op)
    ensures Quiet(n, Do(n, op))
  {}

  lemma DeliverStep(s: Settings, voters: nat -> set<Id>, c: Cluster, p: Packet, redirect: bool, first: Option<Slot>)
    requires ElectionInv(voters, c) && CanDeliver(s, voters, c, p, redirect, first)
    requires EpochInv(NextDeliver(s, voters, c, p, redirect, first))
    ensures ElectionInv(voters, NextDeliver(s, voters, c, p, redirect, first))
  {
    hide AfterSlots, ProcessPing, ProcessUpdate, Absorb, GrantsVote, CountsVote, HeaderOf, PingReplies,
         VotesOk, PacketsOk, CountsOk, WinsOk, Put, NextRequest, NextAck;
    var n := c.nodes[p.to];
    match p.body
    case Ping(_) =>
      PingRepliesOk(s, c, p, n, redirect, first);
      var sent := PingReplies(s, c, p, n, redirect, first);
      QuietStep(voters, c, p.to, ProcessPing(n, p.hdr, s.migration, redirect), {p}, sent);
    case AuthRequest(forced, _) =>
      if GrantsVote(Absorb(n, p.hdr), p.hdr, forced, s.nodeTimeout) {
        VoteStep(s, voters, c, p);
      } else {
        RefusedRequest(s, c, p);
        QuietStep(voters, c, p.to, Absorb(n, p.hdr), {p}, {});
      }
    case AuthAck(_) =>
      if CountsVote(Absorb(n, p.hdr), p.hdr) {
        CountStep(voters, c, p);
      } else {
        IgnoredAck(c, p);
        QuietStep(voters, c, p.to, Absorb(n, p.hdr), {p}, {});
      }
    case Update(about, epoch, slots) =>
      QuietStep(voters, c, p.to, ProcessUpdate(Absorb(n, p.hdr), about, epoch, slots, s.migration, redirect), {p}, {});
  }

  lemma RefusedRequest(s: Settings, c: Cluster, p: Packet)
    requires p.to in c.nodes && c.nodes[p.to].Valid() && p.hdr.sender in c.nodes[p.to].peers && p.body.AuthRequest?
    requires !GrantsVote(Absorb(c.nodes[p.to], p.hdr), p.hdr, p.body.forced, s.nodeTimeout)
    ensures NextRequest(s, c, p, c.nodes[p.to]) == Put(c, p.to, Absorb(c.nodes[p.to], p.hdr), {p}, {})
  {}

  lemma IgnoredAck(c: Cluster, p: Packet)
    requires p.to in c.nodes && c.nodes[p.to].Valid() && p.hdr.sender in c.nodes[p.to].peers && p.to in c.counted
    requires !CountsVote(Absorb(c.nodes[p.to], p.hdr), p.hdr)
    ensures NextAck(c, p, c.nodes[p.to]) == Put(c, p.to, Absorb(c.nodes[p.to], p.hdr), {p}, {})
  {}

  /** A request for votes is made with the counter at zero. */
  ghost predicate FromZero(s: Settings, c: Cluster, e: Event)
    requires WellFormed(c)
  {
    e.Failover? && e.n in c.nodes && FailoverDecision(c.nodes[e.n], e.input, s.nodeTimeout).Requested? ==>
      c.nodes[e.n].authCount == 0
  }

  lemma NextKeepsElections(s: Settings, voters: nat -> set<Id>, c: Cluster, e: Event)
    requires WellFormed(c) && ElectionInv(voters, c) && Enabled(s, voters, c, e) && FromZero(s, c, e)
    requires EpochInv(Next(s, voters, c, e))
    ensures ElectionInv(voters, Next(s, voters, c, e))
  {
    hide EpochInv, NextDeliver, NextFailover, Do, HeaderOf, CanDeliver, FailoverDecision, Put;
    hide VotesOk, PacketsOk, CountsOk, WinsOk;
    match e
    case Local(n, op) =>
      DoIsQuiet(c.nodes[n], op);
      QuietStep(voters, c, n, Do(c.nodes[n], op), {}, {});
    case SendPing(n, to, wantsPong) =>
      QuietStep(voters, c, n, c.nodes[n], {}, {Packet(c.serial, to, HeaderOf(c.nodes[n]), Ping(wantsPong))});
    case Deliver(p, redirect, first) => DeliverStep(s, voters, c, p, redirect, first);
    case Failover(n, i) => FailoverStep(s, voters, c, n, i);
    case Drop(p) => DropStep(voters, c, p);
  }

  lemma InitHoldsElections(voters: nat -> set<Id>, c: Cluster)
    requires Init(c)
    ensures ElectionInv(voters, c)
  {}

  /** When an election begins nobody has voted in it yet. */
  lemma NoVoteYet(s: Settings, voters: nat -> set<Id>, c: Cluster, n: Id, i: FailoverInput)
    requires ElectionInv(voters, c) && n in c.nodes && FailoverDecision(c.nodes[n], i, s.nodeTimeout).Requested?
    ensures var d := NextFailover(s, c, n, i);
            && d.nodes.Keys == c.nodes.Keys && d.counted == c.counted && d.nodes[n].authSent
            && d.nodes[n].authCount == c.nodes[n].authCount
            && forall v :: Vote(v, d.nodes[n].authEpoch, n) !in d.votes
  {
    FailoverShape(c.nodes[n], i, s.nodeTimeout);
    assert NodeOk(c.nodes[n]) && n in c.counted;
    hide HandleFailover, FailoverDecision;
    NextFailoverShape(s, c, n, i);
    hide EpochInv, PacketsOk, CountsOk, WinsOk, NextFailover, Requests;
    assert forall v :: v in c.votes && v.candidate == n ==> v.epoch <= c.nodes[n].authEpoch;
  }

  /** A step keeps the invariant exactly when it does not begin an election with votes on the counter. */
  lemma StepIffFromZero(s: Settings, voters: nat -> set<Id>, c: Cluster, e: Event, c': Cluster)
    requires ElectionInv(voters, c) && Step(s, voters, c, e, c')
    ensures ElectionInv(voters, c') <==> FromZero(s, c, e)
  {
    if FromZero(s, c, e) {
      hide Enabled, Next, VotesOk, PacketsOk, CountsOk, WinsOk, EpochInv, FromZero;
      NextKeepsEpochs(s, voters, c, e);
      NextKeepsElections(s, voters, c, e);
    } else {
      hide FailoverDecision, EpochInv, VotesOk, PacketsOk, WinsOk, NextFailover;
      NoVoteYet(s, voters, c, e.n, e.input);
      assert !CountOkFor(c', e.n);
    }
  }

  /** Every request of the run is made with the counter at zero. */
  ghost predicate AllFromZero(s: Settings, cs: seq<Cluster>, es: seq<Event>) {
    forall i :: 0 <= i < |es| && i < |cs| && WellFormed(cs[i]) ==> FromZero(s, cs[i], es[i])
  }

  lemma FromZeroAt(s: Settings, cs: seq<Cluster>, es: seq<Event>, i: nat)
    requires AllFromZero(s, cs, es) && i < |es| && i < |cs| && WellFormed(cs[i])
    ensures FromZero(s, cs[i], es[i])
  {
    hide FromZero, WellFormed;
  }

  lemma {:induction false} RunKeepsElections(s: Settings, voters: nat -> set<Id>, cs: seq<Cluster>, es: seq<Event>,
                                             i: nat)
    requires Run(s, voters, cs, es) && AllFromZero(s, cs, es) && i < |cs|
    ensures ElectionInv(voters, cs[i])
  {
    hide *;
    FirstOf(s, voters, cs, es);
    if i == 0 {
      InitHoldsElections(voters, cs[0]);
    } else {
      RunKeepsElections(s, voters, cs, es, i - 1);
      StepAt(s, voters, cs, es, i - 1);
      FromZeroAt(s, cs, es, i - 1);
      StepIffFromZero(s, voters, cs[i - 1], es[i - 1], cs[i]);
    }
  }

  /** The condition is exact: in a run every counted vote is of the election that counts it, in every state, if and
      only if every request is made with the counter at zero. */
  lemma RunIffFromZero(s: Settings, voters: nat -> set<Id>, cs: seq<Cluster>, es: seq<Event>)
    requires Run(s, voters, cs, es)
    ensures (forall i :: 0 <= i < |cs| ==> ElectionInv(voters, cs[i])) <==> AllFromZero(s, cs, es)
  {
    hide Step, Init, ElectionInv, FromZero;
    if AllFromZero(s, cs, es) {
      forall i | 0 <= i < |cs| ensures ElectionInv(voters, cs[i]) { RunKeepsElections(s, voters, cs, es, i); }
    }
    if forall i :: 0 <= i < |cs| ==> ElectionInv(voters, cs[i]) {
      forall i | 0 <= i < |es| && WellFormed(cs[i]) ensures FromZero(s, cs[i], es[i]) {
        assert ElectionInv(voters, cs[i]) && ElectionInv(voters, cs[i + 1]);
        assert Step(s, voters, cs[i], es[i], cs[i + 1]);
        StepIffFromZero(s, voters, cs[i], es[i], cs[i + 1]);
      }
    }
  }

  /** Two majorities of one set meet. */
  lemma QuorumsMeet(all: set<Id>, a: set<Id>, b: set<Id>)
    requires a <= all && b <= all && |a| >= |all| / 2 + 1 && |b| >= |all| / 2 + 1
    ensures exists v :: v in a && v in b
  {
    if a * b == {} {
      assert |a + b| == |a| + |b|;
      SubsetSize(a + b, all);
      assert false;
    }
    var v :| v in a * b;
  }

  /** Election safety: in every run whose requests are made with the counter at zero, at most one replica becomes
      master for any given epoch. */
  lemma AtMostOneWinner(s: Settings, voters: nat -> set<Id>, cs: seq<Cluster>, es: seq<Event>, i: nat, w: Win, x: Win)
    requires Run(s, voters, cs, es) && AllFromZero(s, cs, es) && i < |cs|
    requires w in cs[i].wins && x in cs[i].wins && w.epoch == x.epoch
    ensures w.winner == x.winner
  {
    RunKeepsElections(s, voters, cs, es, i);
    var c := cs[i];
    assert Backed(voters, c.votes, w) && Backed(voters, c.votes, x);
    QuorumsMeet(voters(w.epoch), w.quorum, x.quorum);
    var v :| v in w.quorum && v in x.quorum;
    assert Vote(v, w.epoch, w.winner) in c.votes && Vote(v, x.epoch, x.winner) in c.votes;
  }
}
