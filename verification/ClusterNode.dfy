/** One cluster node as cluster.c sees it: what it records about its peers, the
    owner of every hash slot, its epochs, and its failover state; and what each
    packet and timer does to it.

    Node names are numbers compared as memcmp compares the 40-byte names.
    A slot bitmap is a set of slots. */
module ClusterNode {
  import opened Common

  type Id = nat
  type Slot = nat

  datatype Role = Master | Replica(of: Option<Id>)

  /** What a node records about a peer (or about itself). */
  datatype Peer = Peer(configEpoch: nat, role: Role, failed: bool, votedTime: int)

  datatype Node = Node(
    me: Id,
    now: int,
    currentEpoch: nat,
    lastVoteEpoch: nat,
    peers: map<Id, Peer>,
    owner: map<Slot, Id>,
    importing: set<Slot>,
    authTime: int,
    authSent: bool,
    authCount: nat,
    authEpoch: nat)
  {
    /** Pointers lead to known nodes. */
    ghost predicate Valid() {
      && me in peers
      && (forall p :: p in peers && peers[p].role.Replica? && peers[p].role.of.Some? ==>
            peers[p].role.of.value in peers)
      && (forall j :: j in owner ==> owner[j] in peers)
    }

    predicate IsMaster(p: Id)
      requires p in peers
    {
      peers[p].role.Master?
    }

    /** The slots recorded for `p`: its bitmap. */
    function SlotsOf(p: Id): set<Slot> {
      set j | j in owner && owner[j] == p
    }
  }

  datatype Header = Header(sender: Id, currentEpoch: nat, configEpoch: nat, role: Role, slots: set<Slot>)

  /** `stamp` is the failover_auth_time of the election a vote belongs to. It is not on the wire and decides
      nothing: it only lets be said that a vote comes late. */
  datatype Body =
    | Ping(wantsPong: bool)
    | AuthRequest(forced: bool, stamp: int)
    | AuthAck(stamp: int)
    | Update(about: Id, configEpoch: nat, slots: set<Slot>)

  datatype Packet = Packet(serial: nat, to: Id, hdr: Header, body: Body)

  function Max(a: nat, b: nat): nat { if a < b then b else a }

  // ------------------------------------------------------------------
  // Sending
  // ------------------------------------------------------------------

  /** The node whose slots and configEpoch `n` publishes: itself, or its master. */
  function Published(n: Node): (p: Id)
    requires n.Valid()
    ensures p in n.peers
  {
    var role := n.peers[n.me].role;
    if role.Replica? && role.of.Some? then role.of.value else n.me
  }

  /** clusterBuildMessageHdr. */
  function HeaderOf(n: Node): Header
    requires n.Valid()
  {
    var p := Published(n);
    Header(n.me, n.currentEpoch, n.peers[p].configEpoch, n.peers[n.me].role, n.SlotsOf(p))
  }

  // ------------------------------------------------------------------
  // Slot ownership
  // ------------------------------------------------------------------

  /** The test of clusterUpdateSlotsConfigWith for one claimed slot. */
  predicate Rebinds(n: Node, sender: Id, epoch: nat, j: Slot)
    requires n.Valid()
  {
    && j !in n.importing
    && (j !in n.owner || (n.owner[j] != sender && n.peers[n.owner[j]].configEpoch < epoch))
  }

  /** The owner array after the loop of clusterUpdateSlotsConfigWith. */
  function Rebound(n: Node, sender: Id, epoch: nat, claimed: set<Slot>): map<Slot, Id>
    requires n.Valid()
  {
    map j | j in n.owner.Keys + claimed && (j in n.owner || Rebinds(n, sender, epoch, j)) ::
      if j in claimed && Rebinds(n, sender, epoch, j) then sender else n.owner[j]
  }

  /** The slots the loop takes away from `p`. */
  function Taken(n: Node, sender: Id, epoch: nat, claimed: set<Slot>, p: Id): set<Slot>
    requires n.Valid()
  {
    set j | j in claimed && Rebinds(n, sender, epoch, j) && j in n.owner && n.owner[j] == p
  }

  /** clusterSetMaster: `n` becomes a replica of `p`. */
  function SetMaster(n: Node, p: Id): (r: Node)
    requires n.Valid() && p in n.peers
    ensures Keeps(n, r) && SameEpochs(n, r)
  {
    n.(peers := n.peers[n.me := n.peers[n.me].(role := Replica(Some(p)))],
       importing := if n.IsMaster(n.me) then {} else n.importing)
  }

  lemma ReboundKnown(n: Node, sender: Id, epoch: nat, claimed: set<Slot>)
    requires n.Valid() && sender in n.peers
    ensures n.(owner := Rebound(n, sender, epoch, claimed)).Valid()
  {}

  /** Same node, same known peers, pointers still known. */
  ghost predicate Keeps(n: Node, n': Node) {
    n'.Valid() && n'.me == n.me && n'.peers.Keys == n.peers.Keys
  }

  /** Clock, votes and failover state are untouched. */
  ghost predicate SameElection(n: Node, n': Node) {
    && n'.now == n.now && n'.lastVoteEpoch == n.lastVoteEpoch
    && n'.authTime == n.authTime && n'.authSent == n.authSent
    && n'.authCount == n.authCount && n'.authEpoch == n.authEpoch
  }

  /** Only roles and slots may differ. */
  ghost predicate SameEpochs(n: Node, n': Node) {
    && SameElection(n, n') && n'.currentEpoch == n.currentEpoch
    && n'.peers.Keys == n.peers.Keys
    && forall p :: p in n.peers ==> n'.peers[p].configEpoch == n.peers[p].configEpoch
  }

  /** clusterUpdateSlotsConfigWith. `migration` is cluster-allow-replica-migration; `redirect` is false when a
      module disabled redirections. */
  function UpdateSlots(n: Node, sender: Id, epoch: nat, claimed: set<Slot>, migration: bool, redirect: bool): (r: Node)
    requires n.Valid() && sender in n.peers
    ensures Keeps(n, r) && SameEpochs(n, r)
  {
    if sender == n.me then n else
    var self := n.peers[n.me].role;
    var current := if self.Master? then Some(n.me) else self.of;
    ReboundKnown(n, sender, epoch, claimed);
    var n' := n.(owner := Rebound(n, sender, epoch, claimed));
    if !redirect || current.None? then n' else
    var lost := Taken(n, sender, epoch, claimed, current.value);
    if lost != {} && n'.SlotsOf(current.value) == {} && (migration || claimed == lost)
    then SetMaster(n', sender)
    else n'
  }

  /** clusterSetNodeAsMaster. */
  function SetNodeAsMaster(n: Node, p: Id): Node
    requires p in n.peers
  {
    n.(peers := n.peers[p := n.peers[p].(role := Master)])
  }

  /** clusterDelNodeSlots. */
  function DelNodeSlots(n: Node, p: Id): Node {
    n.(owner := map j | j in n.owner && n.owner[j] != p :: n.owner[j])
  }

  // ------------------------------------------------------------------
  // Epochs
  // ------------------------------------------------------------------

  /** Every packet from a known sender raises the epochs recorded here. */
  function Absorb(n: Node, h: Header): (r: Node)
    requires n.Valid() && h.sender in n.peers
    ensures Keeps(n, r) && SameElection(n, r) && n.currentEpoch <= r.currentEpoch
  {
    var p := n.peers[h.sender];
    n.(currentEpoch := Max(n.currentEpoch, h.currentEpoch),
       peers := n.peers[h.sender := p.(configEpoch := Max(p.configEpoch, h.configEpoch))])
  }

  /** clusterHandleConfigEpochCollision. */
  function HandleCollision(n: Node, sender: Id): (r: Node)
    requires n.Valid() && sender in n.peers
    ensures Keeps(n, r) && SameElection(n, r) && n.currentEpoch <= r.currentEpoch
  {
    if n.peers[sender].configEpoch != n.peers[n.me].configEpoch || !n.IsMaster(sender) || !n.IsMaster(n.me) then n
    else if sender <= n.me then n
    else
      n.(currentEpoch := n.currentEpoch + 1,
         peers := n.peers[n.me := n.peers[n.me].(configEpoch := n.currentEpoch + 1)])
  }

  /** clusterGetMaxEpoch is the greatest recorded epoch: `max` is at least all of them and is one of them. */
  ghost predicate IsMaxEpoch(n: Node, max: nat) {
    && (forall p :: p in n.peers ==> n.peers[p].configEpoch <= max)
    && n.currentEpoch <= max
    && (max == n.currentEpoch || exists p :: p in n.peers && n.peers[p].configEpoch == max)
  }

  /** clusterBumpConfigEpochWithoutConsensus, given the greatest epoch. */
  function BumpEpoch(n: Node, max: nat): (r: Node)
    requires n.Valid()
    ensures Keeps(n, r) && SameElection(n, r) && n.currentEpoch <= r.currentEpoch
  {
    var mine := n.peers[n.me].configEpoch;
    if mine == 0 || mine != max then
      n.(currentEpoch := n.currentEpoch + 1,
         peers := n.peers[n.me := n.peers[n.me].(configEpoch := n.currentEpoch + 1)])
    else n
  }

  /** CLUSTER SET-CONFIG-EPOCH, allowed only while this node knows nobody and has no epoch. */
  function SetConfigEpoch(n: Node, epoch: nat): (r: Node)
    requires n.Valid()
    ensures Keeps(n, r) && SameElection(n, r) && n.currentEpoch <= r.currentEpoch
  {
    if |n.peers| > 1 || n.peers[n.me].configEpoch != 0 then n
    else n.(peers := n.peers[n.me := n.peers[n.me].(configEpoch := epoch)],
            currentEpoch := Max(n.currentEpoch, epoch))
  }

  // ------------------------------------------------------------------
  // PING, PONG and UPDATE
  // ------------------------------------------------------------------

  /** Master turned replica: it loses its slots. */
  function Demote(n: Node, p: Id): (r: Node)
    requires n.Valid() && p in n.peers
    ensures Keeps(n, r) && SameEpochs(n, r)
  {
    var d := DelNodeSlots(n, p);
    d.(peers := d.peers[p := d.peers[p].(role := Replica(None))])
  }

  /** The role switch of a PING or PONG. A header that names no master makes its sender one. */
  function SwitchRole(n: Node, h: Header): (r: Node)
    requires n.Valid() && h.sender in n.peers
    ensures Keeps(n, r) && SameEpochs(n, r)
  {
    match h.role
    case Master => SetNodeAsMaster(n, h.sender)
    case Replica(None) => SetNodeAsMaster(n, h.sender)
    case Replica(Some(m)) =>
      var d := if n.IsMaster(h.sender) then Demote(n, h.sender) else n;
      if m in d.peers
      then d.(peers := d.peers[h.sender := d.peers[h.sender].(role := Replica(Some(m)))])
      else d
  }

  /** The sender, or its master when it is a replica. */
  function SenderMaster(n: Node, sender: Id): Option<Id>
    requires sender in n.peers
  {
    if n.IsMaster(sender) then Some(sender) else n.peers[sender].role.of
  }

  /** Do the slots this header claims differ from those recorded? */
  predicate Dirty(n: Node, h: Header)
    requires h.sender in n.peers
  {
    var m := SenderMaster(n, h.sender);
    m.Some? && n.SlotsOf(m.value) != h.slots
  }

  /** A claimed slot that this node knows to belong to a newer configuration. */
  predicate StaleClaim(n: Node, h: Header, j: Slot)
    requires n.Valid()
  {
    j in h.slots && j in n.owner && n.owner[j] != h.sender && n.peers[n.owner[j]].configEpoch > h.configEpoch
  }

  /** The slot the scan of clusterProcessPacket stops at. */
  ghost predicate FirstStale(n: Node, h: Header, first: Option<Slot>)
    requires n.Valid()
  {
    match first
    case None => forall j :: j in h.slots ==> !StaleClaim(n, h, j)
    case Some(j) => StaleClaim(n, h, j) && forall i :: i in h.slots && i < j ==> !StaleClaim(n, h, i)
  }

  function AfterRole(n: Node, h: Header): (r: Node)
    requires n.Valid() && h.sender in n.peers
    ensures Keeps(n, r) && SameElection(n, r) && n.currentEpoch <= r.currentEpoch
  {
    SwitchRole(Absorb(n, h), h)
  }

  function AfterSlots(n: Node, h: Header, migration: bool, redirect: bool): (r: Node)
    requires n.Valid() && h.sender in n.peers
    ensures Keeps(n, r) && SameElection(n, r) && n.currentEpoch <= r.currentEpoch
  {
    var r := AfterRole(n, h);
    if r.IsMaster(h.sender) && Dirty(r, h)
    then UpdateSlots(r, h.sender, h.configEpoch, h.slots, migration, redirect)
    else r
  }

  /** The configuration part of clusterProcessPacket for a PING or PONG. */
  function ProcessPing(n: Node, h: Header, migration: bool, redirect: bool): (r: Node)
    requires n.Valid() && h.sender in n.peers
    ensures Keeps(n, r) && SameElection(n, r) && n.currentEpoch <= r.currentEpoch
  {
    var s := AfterSlots(n, h, migration, redirect);
    if s.IsMaster(s.me) && s.IsMaster(h.sender) && h.configEpoch == s.peers[s.me].configEpoch
    then HandleCollision(s, h.sender) else s
  }

  /** The UPDATE branch of clusterProcessPacket. */
  function ProcessUpdate(n: Node, about: Id, epoch: nat, slots: set<Slot>, migration: bool, redirect: bool): (r: Node)
    requires n.Valid()
    ensures Keeps(n, r) && SameElection(n, r) && n.currentEpoch <= r.currentEpoch
  {
    if about !in n.peers || n.peers[about].configEpoch >= epoch then n
    else
      var n1 := n.(peers := n.peers[about := n.peers[about].(role := Master, configEpoch := epoch)]);
      UpdateSlots(n1, about, epoch, slots, migration, redirect)
  }

  // ------------------------------------------------------------------
  // Elections
  // ------------------------------------------------------------------

  /** The checks of clusterSendFailoverAuthIfNeeded, after the header was absorbed. */
  predicate GrantsVote(n: Node, h: Header, forced: bool, nodeTimeout: nat)
    requires n.Valid() && h.sender in n.peers
  {
    var candidate := n.peers[h.sender];
    && n.IsMaster(n.me) && n.SlotsOf(n.me) != {}
    && h.currentEpoch >= n.currentEpoch
    && n.lastVoteEpoch != n.currentEpoch
    && candidate.role.Replica? && candidate.role.of.Some?
    && (n.peers[candidate.role.of.value].failed || forced)
    && n.now - n.peers[candidate.role.of.value].votedTime >= 2 * nodeTimeout
    && forall j :: j in h.slots && j in n.owner ==> n.peers[n.owner[j]].configEpoch <= h.configEpoch
  }

  function CastVote(n: Node, h: Header): (r: Node)
    requires n.Valid() && h.sender in n.peers && n.peers[h.sender].role.Replica? && n.peers[h.sender].role.of.Some?
    ensures Keeps(n, r)
  {
    var m := n.peers[h.sender].role.of.value;
    n.(lastVoteEpoch := n.currentEpoch, peers := n.peers[m := n.peers[m].(votedTime := n.now)])
  }

  /** Does clusterProcessPacket count this vote? Evaluated after the header was absorbed. */
  predicate CountsVote(n: Node, h: Header)
    requires h.sender in n.peers
  {
    n.IsMaster(h.sender) && n.SlotsOf(h.sender) != {} && h.currentEpoch >= n.authEpoch
  }

  function CountVote(n: Node): Node { n.(authCount := n.authCount + 1) }

  /** What the environment contributes to one call of clusterHandleSlaveFailover: a manual failover in progress
      (`mfEnd`) and allowed to start (`mfCanStart`), the no-failover option, the data age check, the random and
      rank delays of a scheduled election, the delay added by a worse rank, and the cluster size. */
  datatype FailoverInput = FailoverInput(mfEnd: bool, mfCanStart: bool, noFailover: bool, dataTooOld: bool,
                                         delay: nat, addedDelay: nat, size: nat)

  datatype FailoverAction = Nothing | Scheduled | Requested | Won

  function StartDelay(i: FailoverInput): nat { if i.mfEnd then 0 else i.delay }
  function AuthTimeout(nodeTimeout: nat): nat { if 2 * nodeTimeout < 2000 then 2000 else 2 * nodeTimeout }
  function AuthRetryTime(nodeTimeout: nat): nat { 2 * AuthTimeout(nodeTimeout) }

  predicate MayFailover(n: Node, i: FailoverInput)
    requires n.Valid()
  {
    var self := n.peers[n.me].role;
    var manual := i.mfEnd && i.mfCanStart;
    && self.Replica? && self.of.Some?
    && (n.peers[self.of.value].failed || manual)
    && (!i.noFailover || manual)
    && n.SlotsOf(self.of.value) != {}
    && (!i.dataTooOld || manual)
  }

  /** The election time after the rank update. */
  function RankedAuthTime(n: Node, i: FailoverInput): int {
    if !n.authSent && !i.mfEnd then n.authTime + i.addedDelay else n.authTime
  }

  /** What clusterHandleSlaveFailover decides to do. The election age is taken before the rank update. */
  function FailoverDecision(n: Node, i: FailoverInput, nodeTimeout: nat): FailoverAction
    requires n.Valid()
  {
    var age := n.now - n.authTime;
    if !MayFailover(n, i) then Nothing
    else if age > AuthRetryTime(nodeTimeout) then Scheduled
    else if n.now < RankedAuthTime(n, i) || age > AuthTimeout(nodeTimeout) then Nothing
    else if !n.authSent then Requested
    else if n.authCount >= i.size / 2 + 1 then Won
    else Nothing
  }

  /** clusterFailoverReplaceYourMaster: claim the master's slots. */
  function ReplaceMaster(n: Node): (r: Node)
    requires n.Valid()
    ensures Keeps(n, r)
  {
    var self := n.peers[n.me];
    if self.role.Master? || self.role.of.None? then n else
    var former := self.role.of.value;
    n.(peers := n.peers[n.me := self.(role := Master)],
       owner := map j | j in n.owner :: if n.owner[j] == former then n.me else n.owner[j])
  }

  /** clusterHandleSlaveFailover. */
  function HandleFailover(n: Node, i: FailoverInput, nodeTimeout: nat): (r: Node)
    requires n.Valid()
    ensures Keeps(n, r)
  {
    match FailoverDecision(n, i, nodeTimeout)
    case Scheduled =>
      n.(authTime := n.now + StartDelay(i), authCount := 0, authSent := false)
    case Requested =>
      n.(authTime := RankedAuthTime(n, i), currentEpoch := n.currentEpoch + 1, authEpoch := n.currentEpoch + 1,
         authSent := true)
    case Won =>
      var self := n.peers[n.me];
      ReplaceMaster(n.(peers := n.peers[n.me := self.(configEpoch := Max(self.configEpoch, n.authEpoch))]))
    case Nothing =>
      if MayFailover(n, i) then n.(authTime := RankedAuthTime(n, i)) else n
  }
}
