/** The handlers of cluster.c as they run: fields of `server.cluster` that are updated step by step. Each handler
    does to the node what the runs of ClusterBus say. */
module ClusterServer {
  import opened Common
  import opened ClusterNode

  class Server {
    const me: Id
    var now: int
    var currentEpoch: nat
    var lastVoteEpoch: nat
    var peers: map<Id, Peer>
    var owner: map<Slot, Id>
    var importing: set<Slot>
    var authTime: int
    var authSent: bool
    var authCount: nat
    var authEpoch: nat

    ghost function Abs(): Node
      reads this
    {
      Node(me, now, currentEpoch, lastVoteEpoch, peers, owner, importing, authTime, authSent, authCount, authEpoch)
    }

    constructor (n: Node)
      ensures Abs() == n
    {
      me, now, currentEpoch, lastVoteEpoch := n.me, n.now, n.currentEpoch, n.lastVoteEpoch;
      peers, owner, importing := n.peers, n.owner, n.importing;
      authTime, authSent, authCount, authEpoch := n.authTime, n.authSent, n.authCount, n.authEpoch;
    }

    /** The start of clusterProcessPacket, for a sender that is known. */
    method ReceiveHeader(h: Header)
      requires Abs().Valid() && h.sender in peers
      modifies this`currentEpoch, this`peers
      ensures Abs() == Absorb(old(Abs()), h)
    {
      if h.currentEpoch > currentEpoch { currentEpoch := h.currentEpoch; }
      var p := peers[h.sender];
      if h.configEpoch > p.configEpoch {
        peers := peers[h.sender := p.(configEpoch := h.configEpoch)];
      } else {
        assert peers[h.sender := p] == peers;
      }
    }

    /** clusterHandleConfigEpochCollision. */
    method HandleConfigEpochCollision(sender: Id)
      requires Abs().Valid() && sender in peers
      modifies this`currentEpoch, this`peers
      ensures Abs() == HandleCollision(old(Abs()), sender)
    {
      if peers[sender].configEpoch != peers[me].configEpoch || !peers[sender].role.Master? || !peers[me].role.Master? {
        return;
      }
      if sender <= me { return; }
      currentEpoch := currentEpoch + 1;
      peers := peers[me := peers[me].(configEpoch := currentEpoch)];
    }

    /** clusterGetMaxEpoch. */
    method GetMaxEpoch() returns (max: nat)
      ensures IsMaxEpoch(Abs(), max)
    {
      max := 0;
      var rest := peers.Keys;
      ghost var seen: set<Id> := {};
      while rest != {}
        invariant seen + rest == peers.Keys
        invariant forall p :: p in seen ==> peers[p].configEpoch <= max
        invariant max == 0 || exists p :: p in seen && peers[p].configEpoch == max
      {
        var p :| p in rest;
        if peers[p].configEpoch > max { max := peers[p].configEpoch; }
        rest, seen := rest - {p}, seen + {p};
      }
      if max < currentEpoch { max := currentEpoch; }
    }

    /** clusterBumpConfigEpochWithoutConsensus. */
    method BumpConfigEpochWithoutConsensus() returns (ok: bool, ghost max: nat)
      requires Abs().Valid()
      modifies this`currentEpoch, this`peers
      ensures IsMaxEpoch(old(Abs()), max) && Abs() == BumpEpoch(old(Abs()), max)
      ensures ok <==> currentEpoch > old(currentEpoch)
    {
      var maxEpoch := GetMaxEpoch();
      max := maxEpoch;
      if peers[me].configEpoch == 0 || peers[me].configEpoch != maxEpoch {
        currentEpoch := currentEpoch + 1;
        peers := peers[me := peers[me].(configEpoch := currentEpoch)];
        return true, maxEpoch;
      }
      return false, maxEpoch;
    }

    /** Does some claimed slot have an owner with a newer configuration? */
    method ClaimsNewer(claimed: set<Slot>, configEpoch: nat) returns (newer: bool)
      requires Abs().Valid()
      ensures newer <==> exists j :: j in claimed && j in owner && peers[owner[j]].configEpoch > configEpoch
    {
      var rest := claimed;
      while rest != {}
        invariant rest <= claimed
        invariant forall j :: j in claimed - rest && j in owner ==> peers[owner[j]].configEpoch <= configEpoch
      {
        var j :| j in rest;
        if j in owner && peers[owner[j]].configEpoch > configEpoch { return true; }
        rest := rest - {j};
      }
      return false;
    }

    /** clusterSendFailoverAuthIfNeeded: votes at most once per epoch, and only for a candidate that may win. */
    method SendFailoverAuthIfNeeded(h: Header, forced: bool, nodeTimeout: nat) returns (granted: bool)
      requires Abs().Valid() && h.sender in peers
      modifies this`lastVoteEpoch, this`peers
      ensures granted <==> GrantsVote(old(Abs()), h, forced, nodeTimeout)
      ensures Abs() == if granted then CastVote(old(Abs()), h) else old(Abs())
      ensures var role := old(peers)[h.sender].role;
              granted <==> && old(peers)[me].role.Master? && (exists j :: j in owner && owner[j] == me)
                           && h.currentEpoch >= currentEpoch && old(lastVoteEpoch) != currentEpoch
                           && role.Replica? && role.of.Some? && (old(peers)[role.of.value].failed || forced)
                           && now - old(peers)[role.of.value].votedTime >= nodeTimeout * 2
                           && !exists j :: && j in h.slots && j in owner
                                           && old(peers)[owner[j]].configEpoch > h.configEpoch
    {
      var node := peers[h.sender];
      var mine := set j | j in owner && owner[j] == me;
      HasSlots(owner, me, mine);
      if !peers[me].role.Master? || mine == {} { return false; }
      if h.currentEpoch < currentEpoch { return false; }
      if lastVoteEpoch == currentEpoch { return false; }
      if node.role.Master? || node.role.of.None? { return false; }
      var master := node.role.of.value;
      if !peers[master].failed && !forced { return false; }
      if now - peers[master].votedTime < nodeTimeout * 2 { return false; }
      var newer := ClaimsNewer(h.slots, h.configEpoch);
      if newer { return false; }
      lastVoteEpoch := currentEpoch;
      peers := peers[master := peers[master].(votedTime := now)];
      return true;
    }

    /** The FAILOVER_AUTH_ACK branch of clusterProcessPacket, after its start. */
    method ReceiveAck(h: Header) returns (counted: bool)
      requires Abs().Valid() && h.sender in peers
      modifies this`authCount
      ensures counted <==> CountsVote(old(Abs()), h)
      ensures counted <==> && peers[h.sender].role.Master? && (exists j :: j in owner && owner[j] == h.sender)
                           && h.currentEpoch >= authEpoch
      ensures Abs() == if counted then CountVote(old(Abs())) else old(Abs())
    {
      var slots := set j | j in owner && owner[j] == h.sender;
      HasSlots(owner, h.sender, slots);
      counted := peers[h.sender].role.Master? && slots != {} && h.currentEpoch >= authEpoch;
      if counted { authCount := authCount + 1; }
      assert slots != {} <==> exists j :: j in owner && owner[j] == h.sender;
    }

    /** clusterFailoverReplaceYourMaster. */
    method FailoverReplaceYourMaster()
      requires Abs().Valid()
      modifies this`peers, this`owner
      ensures Abs() == ReplaceMaster(old(Abs()))
    {
      var self := peers[me];
      if self.role.Master? || self.role.of.None? { return; }
      var former := self.role.of.value;
      peers := peers[me := self.(role := Master)];
      ghost var before := owner;
      var rest := set j | j in owner && owner[j] == former;
      while rest != {}
        invariant peers == old(peers)[me := self.(role := Master)]
        invariant rest <= before.Keys && owner.Keys == before.Keys && former in old(peers)
        invariant forall j :: j in rest ==> before[j] == former
        invariant forall j :: j in before ==> owner[j] == if before[j] == former && j !in rest then me else before[j]
      {
        var j :| j in rest;
        owner := owner[j := me];
        rest := rest - {j};
      }
      assert owner == ReplaceMaster(old(Abs())).owner;
    }

    /** The conditions for a failover at the start of clusterHandleSlaveFailover. */
    method CanFailover(i: FailoverInput) returns (can: bool)
      requires Abs().Valid()
      ensures can <==> MayFailover(Abs(), i)
    {
      var manual := i.mfEnd && i.mfCanStart;
      var self := peers[me].role;
      if self.Master? || self.of.None? { return false; }
      var master := self.of.value;
      var slots := set j | j in owner && owner[j] == master;
      if (!peers[master].failed && !manual) || (i.noFailover && !manual) || slots == {} { return false; }
      if i.dataTooOld && !manual { return false; }
      return true;
    }

    /** The end of clusterHandleSlaveFailover, with the quorum. */
    method TakeOver()
      requires Abs().Valid()
      modifies this`peers, this`owner
      ensures var self := old(peers)[me];
              var raised := self.(configEpoch := Max(self.configEpoch, authEpoch));
              Abs() == ReplaceMaster(old(Abs()).(peers := old(peers)[me := raised]))
    {
      hide ReplaceMaster;
      var self := peers[me];
      if self.configEpoch < authEpoch {
        peers := peers[me := self.(configEpoch := authEpoch)];
      } else {
        assert peers[me := self] == peers;
      }
      FailoverReplaceYourMaster();
    }

    /** clusterHandleSlaveFailover. */
    method HandleSlaveFailover(i: FailoverInput, nodeTimeout: nat) returns (did: FailoverAction)
      requires Abs().Valid()
      modifies this
      ensures did == FailoverDecision(old(Abs()), i, nodeTimeout)
      ensures Abs() == HandleFailover(old(Abs()), i, nodeTimeout)
    {
      hide ReplaceMaster, MayFailover, Node.Valid, Node.SlotsOf;
      var authAge := now - authTime;
      var neededQuorum := i.size / 2 + 1;
      var authTimeout := if nodeTimeout * 2 < 2000 then 2000 else nodeTimeout * 2;
      var authRetryTime := authTimeout * 2;
      var can := CanFailover(i);
      if !can { return Nothing; }
      if authAge > authRetryTime {
        authTime := now + i.delay;
        authCount, authSent := 0, false;
        if i.mfEnd { authTime := now; }
        return Scheduled;
      }
      if !authSent && !i.mfEnd { authTime := authTime + i.addedDelay; }
      if now < authTime { return Nothing; }
      if authAge > authTimeout { return Nothing; }
      if !authSent {
        currentEpoch := currentEpoch + 1;
        authEpoch := currentEpoch;
        authSent := true;
        return Requested;
      }
      if authCount >= neededQuorum {
        TakeOver();
        return Won;
      }
      return Nothing;
    }
  }

  lemma HasSlots(owner: map<Slot, Id>, p: Id, mine: set<Slot>)
    requires forall j :: j in mine <==> j in owner && owner[j] == p
    ensures mine != {} <==> exists j :: j in owner && owner[j] == p
  {
    if j :| j in owner && owner[j] == p { assert j in mine; }
  }
}
