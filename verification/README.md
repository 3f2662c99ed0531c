# Redis 6.2.7, verified models

This project models the parts of Redis 6.2.7 that carry its hardest promises, and proves those promises in Dafny.
The program is the C code under `ready/redis-cluster-ubuntu18/redis-6.2.7/src`.

* **Cluster** (`ClusterNode`, `ClusterPromises`, `ClusterVotes`, `ClusterBus`, `Election`, `ElectionPremises`,
  `ElectionTiming`, `ClusterFailover`, `ClusterFaults`, `ClusterServer`, `Collision`, `SlotTable`, `SlotClaims`,
  `SlotGossip`, `SlotRanges`). A transition system of nodes and packets in flight, with one step per packet, timer or command. Packets may be delayed, lost,
  repeated by resending, and reordered. The handlers also exist as methods on a mutable server, each proved to do what
  the step says.
* **Append-only file** (`AofFormat`, `AofLoad`, `AofStrict`, `AofResume`, `AofBuffer`, `AofFlush`, `AofHistory`,
  `AofEvents`, `AofParent`). The text format and its loader, the block list, the flush path under every answer of the kernel, and whole runs of the
  parent and the rewriting child.
* **CRC64** (`CrcBits`, `CrcSpeed`). Slice-by-8 against the bit-by-bit reference.
* **Blocked clients** (`Blocked`, `BlockedFair`, `BlockedReplay`, `BlockedOrder`, `BlockedServer`). Serving clients that
  wait for lists, what is propagated for them, and the order in which the queues of all kinds of waiters stand.
* **ACL rules** (`Acl`, `AclMeaning`, `AclDescribe`, `AclLine`, `AclRoundTrip`, `AclFile`). The rule interpreter and what
  rules mean, the greedy rule printer, and the file that users are saved to and loaded from.
* **Bit arithmetic** (`Bits`, `BitField`, `Popcount`, `Bitpos`).
* **Doubly linked list** (`Adlist`).

`Common` and `Decimal` hold what several modules share.

Code that updates state in place is a class or works on arrays; each method is tied by its `ensures` to a function of
the old state, and the theorems are lemmas about those functions.

## Premises

* Cluster: node names are distinct; a packet is handled only if its sender is known and out of handshake; a master
  pointer leads to a known node; there is no restart or hard reset inside a run. Where `clusterUpdateSlotsConfigWith`
  would follow a null pointer, or an assertion of `clusterSetMaster` would fail, the transition system goes on:
  `ClusterFaults` says exactly when that is, and that runs which assign no slots to replicas never get there.
* Elections: in epoch e only the nodes of a set `voters(e)` vote, and a candidate that counts its votes for epoch e
  computes the quorum from the size of that set. A fixed set of voting masters is a special case. Safety is not
  unconditional, as `ElectionTiming.TwoWinners` shows: failover_auth_count is reset when an election is scheduled and
  not when its epoch is taken. `Election.AtMostOneWinner` asks that every request for votes is made with the counter
  at zero, and by `Election.RunIffFromZero` that is exactly when the invariants it rests on hold in every state of a
  run; two winners are only possible where they do not. `ElectionPremises` derives the condition from either of two
  other conditions: no vote is counted by a candidate that has not asked for any, or no vote comes later than the retry
  time after the start of its election.
* Slot claims converge from an empty table without importing slots, with one claim per master and distinct epochs.
* Append-only file: the fstat after a rewrite succeeds; fed commands are not SELECT themselves, which the server never
  feeds; MULTI and EXEC come in turns, as the server feeds them. Counts fit an int and lengths fit a long, as in the C
  types, and a log that is recovered can be held in memory command by command.
* Blocked clients: stored lists are not empty between commands, and a client blocks for lists only where there is no
  element, as the blocking commands check.
* ACL: command names are lower-case, distinct, without `|` and not starting with `@`; IDs are distinct and below the
  reserved bit. For the file no name of a command or category contains a blank or newline or ends in a tab or carriage
  return, and the other rules of a user contain no white space, as `ACLSetUser` sees to. No string contains a zero byte.

## Where code and comments differ

* `clusterHandleConfigEpochCollision` is described as taking the greatest known epoch plus one; it takes currentEpoch
  plus one. The epoch invariant makes this no smaller.
* `checkUnsignedBitfieldOverflow` and its signed twin are described as returning -1 on underflow; with WRAP they
  return 1. The model returns what the code returns.
* `loadAppendOnlyFile` goes back to before an open MULTI only on a clean end of file. On a short read it keeps the open
  transaction. Whatever is logged later is then queued behind it, and the first EXEC logged later also runs the half
  transaction: `AofResume.LogContinues`, `LaterLogIntact` and `HalfTransactionRuns` say exactly what and when.
* `loadAppendOnlyFile` counts valid bytes from 0 and not from the end of an RDB preamble, so a short read in the first
  command behind the preamble empties the file, and so does a clean end of file inside a transaction that this command
  opened: `AofLoad.PreambleSurvives` says exactly when.
* `ACLSetUser` refuses white space in keys and channels but not in subcommands, and a line with such a subcommand may
  not load as it was saved: `AclFile.SaveLoad` says exactly when the permissions come back.
* `handleClientsBlockedOnKeys` is described as first in, first out except when clients wait for different types at one
  key. `BlockedOrder.RunIffFair` says exactly when the order of blocking is kept, and `BlockedOrder.OutOfOrder` is a run
  in which it is not.
* `clusterProcessPacket` sends an UPDATE so that a master which comes back with old slots learns of their new owner.
  When that owner is the sender of the UPDATE itself, its header is recorded first and the UPDATE is then ignored as
  nothing new: `ClusterVotes.UpdateHeardIff`. The PONG that went before it carries the same slots.
* `checkSignedBitfieldOverflow` is described as using maxincr and minincr only where they do not overflow; it compares
  maxincr before it has looked at the lower bound. `BitField.StoredIff` says exactly which numbers BITFIELD SET then
  saturates to the wrong end.
* The rules that `ACLDescribeUserCommandRules` prints do not always bring the ALLCOMMANDS flag back as it was:
  `AclRoundTrip.Describe` and `AclRoundTrip.FlagNotPrinted` say exactly when.

## Model

| member | source | states |
|---|---|---|
| `ClusterBus.RunKeepsEpochs` | ready/redis-cluster-ubuntu18/redis-6.2.7/src/cluster.c:1831-1842 | in every reachable state of every run no node records a configEpoch above its own currentEpoch, and no packet in flight carries one, in header or UPDATE body, above its header currentEpoch |
| `ClusterBus.NextKeepsEpochs` | ready/redis-cluster-ubuntu18/redis-6.2.7/src/cluster.c:1754-2243 | one step of any kind (packet, timer, administrator) keeps that invariant |
| `ClusterBus.NewElectionEpochIsFresh` | ready/redis-cluster-ubuntu18/redis-6.2.7/src/cluster.c:3272-3278 | the epoch a candidate takes for a new election is above every configEpoch it knows |
| `ClusterBus.DeliverKeepsEpochs` | ready/redis-cluster-ubuntu18/redis-6.2.7/src/cluster.c:1831-1842 | delivering any packet, in any order, keeps the epoch invariant |
| `ClusterBus.FailoverKeepsEpochs` | ready/redis-cluster-ubuntu18/redis-6.2.7/src/cluster.c:3136-3305 | every outcome of the failover timer keeps the epoch invariant |
| `Election.AtMostOneWinner` | ready/redis-cluster-ubuntu18/redis-6.2.7/src/cluster.c:3285-3301 | election safety: in every run whose requests for votes are all made with failover_auth_count at zero, two replicas that become master for the same epoch are the same replica |
| `Election.RunIffFromZero` | ready/redis-cluster-ubuntu18/redis-6.2.7/src/cluster.c:3272-3283 | the condition is exact: in a run every vote counted by a candidate under way was cast for its current epoch, and every win is backed by a quorum of such votes, in every state, if and only if every request is made with the counter at zero |
| `Election.StepIffFromZero` | ready/redis-cluster-ubuntu18/redis-6.2.7/src/cluster.c:3272-3283 | a step of any kind keeps these invariants if and only if it is not a request made with votes on the counter |
| `Election.NoVoteYet` | ready/redis-cluster-ubuntu18/redis-6.2.7/src/cluster.c:3272-3283 | when a candidate takes a new epoch nobody has voted for it in that epoch, while its counter stays as it was |
| `Election.RunKeepsElections` | ready/redis-cluster-ubuntu18/redis-6.2.7/src/cluster.c:2896-2997 | in every such run each master has voted at most once per epoch, every counted vote was cast for the counter's current election, and every win is backed by a quorum of votes |
| `Election.NextKeepsElections` | ready/redis-cluster-ubuntu18/redis-6.2.7/src/cluster.c:2177-2189 | one step of any kind, but a request made with votes on the counter, keeps the vote, packet, counter and win invariants |
| `Election.VoteStep` | ready/redis-cluster-ubuntu18/redis-6.2.7/src/cluster.c:2990-2997 | granting a vote keeps them: the voter had not voted in that epoch |
| `Election.CountStep` | ready/redis-cluster-ubuntu18/redis-6.2.7/src/cluster.c:2177-2189 | counting a vote keeps them, whether the candidate has asked for votes or not |
| `Election.FailoverStep` | ready/redis-cluster-ubuntu18/redis-6.2.7/src/cluster.c:3206-3305 | scheduling, winning, and requesting with the counter at zero keep them |
| `Election.FailoverShape` | ready/redis-cluster-ubuntu18/redis-6.2.7/src/cluster.c:3206-3305 | what each decision of the failover timer does to the clock, epoch, counter and flag of an election |
| `Election.AckIsCurrent` | ready/redis-cluster-ubuntu18/redis-6.2.7/src/cluster.c:2177-2189 | a vote counted by a candidate that has asked for votes was cast for its current election epoch and not counted before |
| `Election.QuorumsMeet` | ready/redis-cluster-ubuntu18/redis-6.2.7/src/cluster.c:3139-3139 | two sets of at least size/2+1 voters share a voter |
| `ElectionTiming.TwoWinners` | ready/redis-cluster-ubuntu18/redis-6.2.7/src/cluster.c:3208-3213 | safety is not unconditional: a concrete run of twelve steps in which replicas 1 and 2 both win epoch 2; one of its requests is made with a vote on the counter |
| `ElectionTiming.WonWithoutVote` | ready/redis-cluster-ubuntu18/redis-6.2.7/src/cluster.c:3272-3278 | in that run a replica wins epoch 2 with a vote cast in epoch 1, because the counter is reset when an election is scheduled and not when its epoch is taken |
| `ElectionTiming.CountedLate` | ready/redis-cluster-ubuntu18/redis-6.2.7/src/cluster.c:2177-2189 | the vote for epoch 1 arrives after the election was given up and is counted |
| `ElectionPremises.SafeIfAsked` | ready/redis-cluster-ubuntu18/redis-6.2.7/src/cluster.c:2177-2189 | election safety for every run in which no vote is counted by a candidate that has not asked for votes |
| `ElectionPremises.CountIffAsked` | ready/redis-cluster-ubuntu18/redis-6.2.7/src/cluster.c:2177-2189 | counting a vote keeps the election invariants and leaves no candidate with votes that it has not asked for, if and only if its candidate has asked |
| `ElectionPremises.StepIffAsked` | ready/redis-cluster-ubuntu18/redis-6.2.7/src/cluster.c:2177-2189 | a step of any kind leaves no such candidate if and only if it does not count a vote for one |
| `ElectionPremises.AskedRunsStartFromZero` | ready/redis-cluster-ubuntu18/redis-6.2.7/src/cluster.c:3272-3283 | in such a run every request is made with the counter at zero |
| `ElectionPremises.SafeIfInTime` | ready/redis-cluster-ubuntu18/redis-6.2.7/src/cluster.c:3206-3305 | election safety for every run in which no vote comes later than the retry time after the start of its election |
| `ElectionPremises.RunIsTimely` | ready/redis-cluster-ubuntu18/redis-6.2.7/src/cluster.c:3206-3305 | in every run a packet of an election belongs to the election under way at its candidate or is late |
| `ClusterServer.Server.ReceiveHeader` | ready/redis-cluster-ubuntu18/redis-6.2.7/src/cluster.c:1831-1842 | the stored node becomes what the runs say for a packet header |
| `ClusterServer.Server.HandleConfigEpochCollision` | ready/redis-cluster-ubuntu18/redis-6.2.7/src/cluster.c:1169-1184 | only the master with the smaller name moves, to a new epoch |
| `ClusterServer.Server.GetMaxEpoch` | ready/redis-cluster-ubuntu18/redis-6.2.7/src/cluster.c:1060-1073 | the result bounds every recorded epoch and is one of them |
| `ClusterServer.Server.BumpConfigEpochWithoutConsensus` | ready/redis-cluster-ubuntu18/redis-6.2.7/src/cluster.c:1104-1121 | a new epoch exactly when this node's epoch is zero or not the greatest |
| `ClusterServer.Server.ClaimsNewer` | ready/redis-cluster-ubuntu18/redis-6.2.7/src/cluster.c:2971-2988 | true exactly when some claimed slot has an owner with a newer configuration |
| `ClusterServer.Server.SendFailoverAuthIfNeeded` | ready/redis-cluster-ubuntu18/redis-6.2.7/src/cluster.c:2896-2997 | grants exactly when the conditions of ClusterVotes.VoteIff hold, which are spelled out again, and then records the vote |
| `ClusterServer.Server.ReceiveAck` | ready/redis-cluster-ubuntu18/redis-6.2.7/src/cluster.c:2177-2189 | counts the vote exactly when the sender is a master with slots and its epoch is not older than the election |
| `ClusterServer.Server.FailoverReplaceYourMaster` | ready/redis-cluster-ubuntu18/redis-6.2.7/src/cluster.c:3098-3126 | this node becomes master and owner of exactly its former master's slots |
| `ClusterServer.Server.CanFailover` | ready/redis-cluster-ubuntu18/redis-6.2.7/src/cluster.c:3157-3204 | true exactly when a failover may be attempted |
| `ClusterServer.Server.TakeOver` | ready/redis-cluster-ubuntu18/redis-6.2.7/src/cluster.c:3286-3301 | configEpoch is raised to the election epoch before the slots are claimed |
| `ClusterServer.Server.HandleSlaveFailover` | ready/redis-cluster-ubuntu18/redis-6.2.7/src/cluster.c:3136-3305 | schedules, requests, wins or waits exactly as the runs say, and leaves the node in that state |
| `ClusterNode.UpdateSlots` | ready/redis-cluster-ubuntu18/redis-6.2.7/src/cluster.c:1637-1743 | a claim changes roles and slots only: no epoch and no election state |
| `ClusterNode.ProcessPing` | ready/redis-cluster-ubuntu18/redis-6.2.7/src/cluster.c:2015-2128 | a ping keeps names, pointers and the election state, and currentEpoch does not fall |
| `ClusterPromises.AbsorbRaises` | ready/redis-cluster-ubuntu18/redis-6.2.7/src/cluster.c:1831-1842 | a header raises currentEpoch and the sender's configEpoch to the greater value and changes nothing else |
| `ClusterPromises.AbsorbCommutes` | ready/redis-cluster-ubuntu18/redis-6.2.7/src/cluster.c:1831-1842 | headers may come in any order and more than once |
| `ClusterPromises.CollisionMoves` | ready/redis-cluster-ubuntu18/redis-6.2.7/src/cluster.c:1169-1184 | exactly a master with the smaller name and the same epoch moves, to one above currentEpoch, and nothing else changes |
| `ClusterPromises.CollisionMovesOne` | ready/redis-cluster-ubuntu18/redis-6.2.7/src/cluster.c:1169-1184 | of two masters that see each other's collision exactly one moves |
| `ClusterPromises.SetConfigEpochAlone` | ready/redis-cluster-ubuntu18/redis-6.2.7/src/cluster.c:4966-4994 | the command takes effect exactly on a node that is alone and has no epoch, and leaves its epoch no higher than currentEpoch |
| `ClusterPromises.UpdateInstalls` | ready/redis-cluster-ubuntu18/redis-6.2.7/src/cluster.c:2208-2229 | an UPDATE about a known node with a newer epoch makes it a master with that epoch and exactly the slots it takes; any other changes nothing |
| `ClusterPromises.VoteShutsOut` | ready/redis-cluster-ubuntu18/redis-6.2.7/src/cluster.c:2896-2997 | after a vote every other request of that epoch is refused, and every request by a replica of the same master until twice the node timeout has passed |
| `ClusterPromises.WinTakesSlots` | ready/redis-cluster-ubuntu18/redis-6.2.7/src/cluster.c:3286-3301 | a winner is master under an epoch no lower than the election's, owns its former master's slots besides its own, and no other node gains or loses any |
| `ClusterVotes.VoteIff` | ready/redis-cluster-ubuntu18/redis-6.2.7/src/cluster.c:2896-2997 | a request adds exactly one vote and its ACK if the voter is a master with slots, the epoch is its own or newer and not one it voted in, the sender is a replica of a master that is flagged as failed or the request is forced, twice the node timeout has passed since the last vote about that master, and no claimed slot has an owner with a newer configEpoch; and otherwise it changes no vote |
| `ClusterVotes.NoVoteAgainstHealthy` | ready/redis-cluster-ubuntu18/redis-6.2.7/src/cluster.c:2932-2936 | an unforced request against a master that is not flagged as failed leaves votes, lastVoteEpoch and packets as they were |
| `ClusterVotes.NoVoteForStale` | ready/redis-cluster-ubuntu18/redis-6.2.7/src/cluster.c:2970-2988 | so does a claim of a slot that is held under a newer configEpoch |
| `ClusterVotes.CountIff` | ready/redis-cluster-ubuntu18/redis-6.2.7/src/cluster.c:2177-2189 | a vote counts if and only if its sender is a known master with slots and its epoch is that of the election or newer |
| `ClusterVotes.ElectionRuns` | ready/redis-cluster-ubuntu18/redis-6.2.7/src/cluster.c:3136-3305 | what a replica of a failed master with slots does at any time: schedule, wait, ask for votes in a new epoch, wait for votes, or take over with more than half of them |
| `ClusterVotes.ManualElection` | ready/redis-cluster-ubuntu18/redis-6.2.7/src/cluster.c:3139-3140 | a manual failover needs no failed master and no recent data, and starts at once |
| `ClusterVotes.NoElectionAgainstHealthy` | ready/redis-cluster-ubuntu18/redis-6.2.7/src/cluster.c:3164-3168 | a replica of a master that is not flagged as failed does nothing |
| `ClusterVotes.NoElectionWithoutCause` | ready/redis-cluster-ubuntu18/redis-6.2.7/src/cluster.c:3164-3168 | neither does a master, nor a replica of a master without slots |
| `ClusterVotes.NoElectionWhenHeldBack` | ready/redis-cluster-ubuntu18/redis-6.2.7/src/cluster.c:3166-3204 | nor one with no-failover set or data that is too old |
| `ClusterVotes.BumpMakesGreatest` | ready/redis-cluster-ubuntu18/redis-6.2.7/src/cluster.c:1104-1123 | CLUSTER BUMPEPOCH leaves the node with the greatest epoch it knows, and changes nothing if it had it |
| `ClusterVotes.HeaderTells` | ready/redis-cluster-ubuntu18/redis-6.2.7/src/cluster.c:2436-2498 | a master publishes its own slots and epoch, a replica those of its master |
| `ClusterVotes.RoleIsHeard` | ready/redis-cluster-ubuntu18/redis-6.2.7/src/cluster.c:2015-2057 | the role that is recorded for the sender, and that a master which says it is a replica loses exactly its own slots |
| `ClusterVotes.PingSpreads` | ready/redis-cluster-ubuntu18/redis-6.2.7/src/cluster.c:2015-2128 | a PING of a master gives it at the receiver every slot that it claims, that is not imported there and that nobody owns under its epoch or a newer one; it loses none |
| `ClusterVotes.ReplicaTakesNothing` | ready/redis-cluster-ubuntu18/redis-6.2.7/src/cluster.c:2074-2075 | a PING of a replica gives no slot to anybody |
| `ClusterVotes.PingAnswered` | ready/redis-cluster-ubuntu18/redis-6.2.7/src/cluster.c:1863-1916 | a PING is answered with the epochs it brought, and a PONG is not |
| `ClusterVotes.StaleIsTold` | ready/redis-cluster-ubuntu18/redis-6.2.7/src/cluster.c:2095-2119 | a sender that claims a slot of a newer configuration is told of the owner of the first such slot, and no other sender is |
| `ClusterVotes.UpdateHeardIff` | ready/redis-cluster-ubuntu18/redis-6.2.7/src/cluster.c:2208-2229 | a master gives up a slot on an UPDATE if and only if the owner is not yet recorded with that epoch, so not if it is told by that owner itself |
| `ClusterFailover.FailoverSucceeds` | ready/redis-cluster-ubuntu18/redis-6.2.7/src/cluster.c:3136-3305 | from any state in which a replica of a failed master is supported by more than half of the voters of the next epoch, events lead to one in which it is master of all slots of its former master, under that epoch; nobody but it and its voters takes part |
| `ClusterFailover.OrphanedSucceeds` | ready/redis-cluster-ubuntu18/redis-6.2.7/src/cluster.c:3136-3305 | a small cluster in which that happens |
| `ClusterFailover.OneMoreVote` | ready/redis-cluster-ubuntu18/redis-6.2.7/src/cluster.c:2177-2189 | request and vote of one supporter: the candidate has one vote more, and the other supporters stay |
| `ClusterFailover.Asks` | ready/redis-cluster-ubuntu18/redis-6.2.7/src/cluster.c:3208-3283 | scheduling, waiting and asking put a request to every known node on the bus |
| `ClusterFailover.Wins` | ready/redis-cluster-ubuntu18/redis-6.2.7/src/cluster.c:3285-3301 | with more than half of the votes counted the next call of the timer takes over |
| `Collision.MovesOfAll` | ready/redis-cluster-ubuntu18/redis-6.2.7/src/cluster.c:1169-1184 | with N masters any asynchronous run performs at most 2^N - N - 1 collision bumps |
| `Collision.MovesOfOne` | ready/redis-cluster-ubuntu18/redis-6.2.7/src/cluster.c:1169-1184 | the master with k - 1 greater names moves at most 2^(k-1) - 1 times |
| `Collision.QuietMeansDistinct` | ready/redis-cluster-ubuntu18/redis-6.2.7/src/cluster.c:2121-2128 | when no fresh ping would move anybody, all configEpochs are pairwise distinct |
| `Collision.QuietIffDistinct` | ready/redis-cluster-ubuntu18/redis-6.2.7/src/cluster.c:2121-2128 | and conversely |
| `Collision.PingCollides` | ready/redis-cluster-ubuntu18/redis-6.2.7/src/cluster.c:2121-2128 | a ping changes all epochs as the step of these runs does, unless its claim makes this node a replica; for a sender whose slots are recorded as claimed the step is all that the ping does |
| `Collision.DeliveriesArePings` | ready/redis-cluster-ubuntu18/redis-6.2.7/src/cluster.c:2015-2128 | in every run of masters that agree about their slots at first, every delivery does to its receiver what the handler of pings does |
| `Collision.RunKeeps` | ready/redis-cluster-ubuntu18/redis-6.2.7/src/cluster.c:1169-1184 | in every state an epoch that a master left was held before by a master with a greater name |
| `Collision.HeldBound` | ready/redis-cluster-ubuntu18/redis-6.2.7/src/cluster.c:1169-1184 | the k masters with the greatest names have held at most 2^k - 1 epochs between them |
| `Collision.TotalBound` | ready/redis-cluster-ubuntu18/redis-6.2.7/src/cluster.c:1169-1184 | summing the epochs left over all masters gives the bound on moves |
| `SlotGossip.NodesAgree` | ready/redis-cluster-ubuntu18/redis-6.2.7/src/cluster.c:2071-2075 | two nodes that make no claim themselves and heard PINGs of the same masters, in any order and however often, have the same owner of every slot |
| `SlotGossip.NodeSettles` | ready/redis-cluster-ubuntu18/redis-6.2.7/src/cluster.c:2071-2075 | and it is the claimant with the greatest epoch among those heard |
| `SlotGossip.PingDelivers` | ready/redis-cluster-ubuntu18/redis-6.2.7/src/cluster.c:2015-2128 | the handler of one PING changes owners and recorded epochs as one delivery of a claim does |
| `ClusterFaults.OwnsSlotsIff` | ready/redis-cluster-ubuntu18/redis-6.2.7/src/cluster.c:4115-4117 | the assertion of clusterSetMaster that this node has no slots fails, when reached from a slot update, exactly on a replica whose master loses all its slots to the sender while a slot of its own stays with it |
| `ClusterFaults.NullMasterIff` | ready/redis-cluster-ubuntu18/redis-6.2.7/src/cluster.c:1696-1722 | the null pointer to the current master is followed exactly on a replica that knows no master and is told of a slot that nobody has |
| `ClusterFaults.RunSettled` | ready/redis-cluster-ubuntu18/redis-6.2.7/src/cluster.c:1637-1743 | over every run from nodes that are masters, or replicas that know their master and own no slot, neither happens, as long as nobody assigns slots to a replica and no packet bears the name of its receiver |
| `ClusterFaults.NextSettled` | ready/redis-cluster-ubuntu18/redis-6.2.7/src/cluster.c:4836-4873 | one event, CLUSTER REPLICATE included, keeps such nodes such and meets no fault |
| `ClusterFaults.TurnsIff` | ready/redis-cluster-ubuntu18/redis-6.2.7/src/cluster.c:1715-1730 | a node becomes a replica of the sender if and only if its master, or itself, loses all slots to the sender, and without replica migration only if the sender claims nothing else; other roles stay |
| `ClusterFaults.ReplicaWithSlot` | ready/redis-cluster-ubuntu18/redis-6.2.7/src/cluster.c:4115-4117 | a replica that CLUSTER ADDSLOTS gave a slot, and the claim on which its assertion fails |
| `ClusterFaults.ReplicaOfNobody` | ready/redis-cluster-ubuntu18/redis-6.2.7/src/cluster.c:1696-1722 | a node and a claim on which the null pointer is followed |
| `SlotTable.Table.constructor` | ready/redis-cluster-ubuntu18/redis-6.2.7/src/cluster.c:502-503 | a new table is coherent and assigns nothing |
| `SlotTable.Table.SetSlotBit` | ready/redis-cluster-ubuntu18/redis-6.2.7/src/cluster.c:3847-3869 | the bit is set and the count goes up exactly if it was clear |
| `SlotTable.Table.ClearSlotBit` | ready/redis-cluster-ubuntu18/redis-6.2.7/src/cluster.c:3872-3877 | the bit is cleared and the count goes down exactly if it was set |
| `SlotTable.Table.AddSlot` | ready/redis-cluster-ubuntu18/redis-6.2.7/src/cluster.c:3888-3893 | keeps the table coherent; refuses exactly a slot that has an owner |
| `SlotTable.Table.DelSlot` | ready/redis-cluster-ubuntu18/redis-6.2.7/src/cluster.c:3898-3905 | keeps the table coherent; the assertion on the cleared bit never fires |
| `SlotTable.Table.DelNodeSlots` | ready/redis-cluster-ubuntu18/redis-6.2.7/src/cluster.c:3909-3919 | releases exactly the node's slots and returns how many there were |
| `SlotTable.Table.TakeOver` | ready/redis-cluster-ubuntu18/redis-6.2.7/src/cluster.c:3108-3114 | moves exactly the former master's slots to this node |
| `SlotTable.Table.DelNode` | ready/redis-cluster-ubuntu18/redis-6.2.7/src/cluster.c:997-1010 | forgets the node, its slots, and slots in transit from or to it, and nothing else |
| `SlotTable.Table.ClaimSlot` | ready/redis-cluster-ubuntu18/redis-6.2.7/src/cluster.c:1666-1707 | a claimed slot changes hands exactly when it is not being imported and is unowned or held under a smaller epoch |
| `SlotTable.Table.UpdateSlotsConfigWith` | ready/redis-cluster-ubuntu18/redis-6.2.7/src/cluster.c:1637-1743 | the whole claim is applied slot by slot as the claim function says, and one about this node is discarded; this node is told to become a replica exactly when redirections are on, it lost its last slot to the claim, and migration is allowed or all claimed slots were taken from it |
| `SlotTable.Table.ClaimSlots` | ready/redis-cluster-ubuntu18/redis-6.2.7/src/cluster.c:1666-1707 | the loop over the slots, and how many slots were claimed and taken from this shard |
| `SlotTable.Table.ChangeSlots` | ready/redis-cluster-ubuntu18/redis-6.2.7/src/cluster.c:4532-4578 | ADDSLOTS and DELSLOTS are all-or-nothing, and the error is that of the first offending argument |
| `SlotTable.Table.SetSlotNode` | ready/redis-cluster-ubuntu18/redis-6.2.7/src/cluster.c:4624-4675 | SETSLOT NODE moves one slot and clears the transit marks as the command says, keeping the table coherent |
| `SlotClaims.NumslotsSumToAssigned` | ready/redis-cluster-ubuntu18/redis-6.2.7/src/cluster.c:3847-3877 | in a coherent table the counts of all nodes add up to the number of assigned slots |
| `SlotClaims.UnchangedClaim` | ready/redis-cluster-ubuntu18/redis-6.2.7/src/cluster.c:2063-2075 | when the claimed bitmap equals the recorded one the skipped update would have changed nothing |
| `SlotClaims.GreatestEpochWins` | ready/redis-cluster-ubuntu18/redis-6.2.7/src/cluster.c:1637-1707 | from an empty table, after any sequence of deliveries each slot belongs to the claimant with the greatest epoch among those heard |
| `SlotClaims.OrderDoesNotMatter` | ready/redis-cluster-ubuntu18/redis-6.2.7/src/cluster.c:1637-1707 | two delivery sequences that mention the same masters, in any order and with any repetitions, give the same table |
| `SlotClaims.RebindRefines` | ready/redis-cluster-ubuntu18/redis-6.2.7/src/cluster.c:1655-1707 | the owner array of the table and the owner map of the protocol model change alike |
| `SlotRanges.DescribeNode` | ready/redis-cluster-ubuntu18/redis-6.2.7/src/cluster.c:4206-4229 | the scan of one bitmap yields the maximal runs of set bits, in order |
| `SlotRanges.DescribeAll` | ready/redis-cluster-ubuntu18/redis-6.2.7/src/cluster.c:4252-4281 | the single pass over the owner array yields the same for every node that is not filtered out |
| `SlotRanges.DescriptionUnique` | ready/redis-cluster-ubuntu18/redis-6.2.7/src/cluster.c:4206-4229 | a bitmap has only one such description |
| `SlotRanges.GeneratorsAgree` | ready/redis-cluster-ubuntu18/redis-6.2.7/src/cluster.c:4252-4281 | both generators give each node the same ranges |
| `SlotRanges.RangeText` | ready/redis-cluster-ubuntu18/redis-6.2.7/src/cluster.c:278-284 | every printed range is read back as itself |
| `SlotRanges.RangeExamples` | ready/redis-cluster-ubuntu18/redis-6.2.7/src/cluster.c:278-284 | what a range of slots and a single slot look like |
| `SlotRanges.LoadRange` | ready/redis-cluster-ubuntu18/redis-6.2.7/src/cluster.c:278-291 | a word outside the slot space is a format error; otherwise each unowned slot of the range is assigned |
| `SlotRanges.LoadLine` | ready/redis-cluster-ubuntu18/redis-6.2.7/src/cluster.c:248-292 | all words of a line assign exactly the slots they cover |
| `SlotRanges.Load` | ready/redis-cluster-ubuntu18/redis-6.2.7/src/cluster.c:248-292 | loading the printed lines of a coherent table, in any order, into an empty one restores every owner, bitmap and count |
| `Decimal.ReadPrinted` | ready/redis-cluster-ubuntu18/redis-6.2.7/src/aof.c:557-567 | a printed decimal number is read back as itself up to the first byte that is not a digit |
| `AofBuffer.Block.Put` | ready/redis-cluster-ubuntu18/redis-6.2.7/src/aof.c:132-141 | bytes are appended to the block |
| `AofBuffer.Block.Take` | ready/redis-cluster-ubuntu18/redis-6.2.7/src/aof.c:112-119 | the first bytes are removed and the rest moved down |
| `AofBuffer.RewriteBuffer.Size` | ready/redis-cluster-ubuntu18/redis-6.2.7/src/aof.c:79-90 | the size is the length of the content |
| `AofBuffer.RewriteBuffer.Append` | ready/redis-cluster-ubuntu18/redis-6.2.7/src/aof.c:125-171 | the content grows by exactly the bytes fed, whatever blocks it takes; the write event is installed unless sending has stopped |
| `AofBuffer.RewriteBuffer.Drain` | ready/redis-cluster-ubuntu18/redis-6.2.7/src/aof.c:95-122 | what the pipe gains is what the buffer loses, in order, under every pattern of short writes; only an empty buffer, the stop flag or a failing write end the round |
| `AofBuffer.RewriteBuffer.Write` | ready/redis-cluster-ubuntu18/redis-6.2.7/src/aof.c:176-196 | a prefix of the content reaches the file, all of it exactly when every block is written whole |
| `AofBuffer.ConcatExtend` | ready/redis-cluster-ubuntu18/redis-6.2.7/src/aof.c:132-141 | appending to the last block appends to the content |
| `AofFlush.FlushWrites` | ready/redis-cluster-ubuntu18/redis-6.2.7/src/aof.c:415-517 | a complete write empties the buffer into the file and clears the error; one that is not sets the error and leaves in the file only what could not be cut off again |
| `AofFlush.DeliveredIs` | ready/redis-cluster-ubuntu18/redis-6.2.7/src/aof.c:322-339 | all is delivered if the calls of write take as much before one fails, and otherwise what they take |
| `AofFlush.FlushConserves` | ready/redis-cluster-ubuntu18/redis-6.2.7/src/aof.c:415-517 | file plus buffer are the same before and after a flush, however many bytes were delivered and whether or not ftruncate works; the size stays the length of the file |
| `AofFlush.AofFile.Feed` | ready/redis-cluster-ubuntu18/redis-6.2.7/src/aof.c:665-669 | bytes are appended to aof_buf |
| `AofFlush.AofFile.Write` | ready/redis-cluster-ubuntu18/redis-6.2.7/src/aof.c:322-339 | what the kernel takes before it fails is appended to the file; -1 exactly when it takes nothing |
| `AofFlush.AofFile.TryFsync` | ready/redis-cluster-ubuntu18/redis-6.2.7/src/aof.c:519-549 | exits exactly when policy is always and fsync fails; the synced offset never passes the size |
| `AofFlush.AofFile.WriteOut` | ready/redis-cluster-ubuntu18/redis-6.2.7/src/aof.c:415-517 | a full write appends all of the buffer to the file, empties the buffer and clears the error; a partial one sets the error and is undone by ftruncate or trimmed from the buffer; with policy always it exits |
| `AofFlush.AofFile.Flush` | ready/redis-cluster-ubuntu18/redis-6.2.7/src/aof.c:360-550 | waits for a background fsync less than two seconds and not when forced; then a complete write leaves all of the buffer in the file, an incomplete one an error and what ftruncate could not undo; with policy always it is synced, or the process exits; nothing of file plus buffer is lost or repeated |
| `AofFormat.AppendCommand` | ready/redis-cluster-ubuntu18/redis-6.2.7/src/aof.c:552-575 | the loop appends the printed form of the command |
| `AofFormat.ReadPrintedCommand` | ready/redis-cluster-ubuntu18/redis-6.2.7/src/aof.c:822-868 | every printed command is read back as itself whatever bytes follow |
| `AofFormat.CutCommand` | ready/redis-cluster-ubuntu18/redis-6.2.7/src/aof.c:822-868 | wherever the end of the file cuts a printed command the loader sees a short read at the end of the file, never bad syntax |
| `AofFormat.ReadPrintedArg` | ready/redis-cluster-ubuntu18/redis-6.2.7/src/aof.c:839-868 | an argument with arbitrary bytes is read back as itself |
| `AofFormat.CutArg` | ready/redis-cluster-ubuntu18/redis-6.2.7/src/aof.c:839-868 | a cut argument is a short read |
| `AofFormat.CutNumber` | ready/redis-cluster-ubuntu18/redis-6.2.7/src/aof.c:828-831 | a cut count still reads as a positive number no greater than the count |
| `AofFormat.CutLength` | ready/redis-cluster-ubuntu18/redis-6.2.7/src/aof.c:851-858 | a cut length line reads as a length no greater, so no more is allocated |
| `AofLoad.ReadArgsAt` | ready/redis-cluster-ubuntu18/redis-6.2.7/src/aof.c:839-868 | the argument loop reads what the reading function says |
| `AofLoad.ReadCommandAt` | ready/redis-cluster-ubuntu18/redis-6.2.7/src/aof.c:822-868 | and so does the reading of one command, errors included |
| `AofLoad.LoadFile` | ready/redis-cluster-ubuntu18/redis-6.2.7/src/aof.c:753-958 | the loader, with its offsets, its error exits and failing allocations, gives the outcome of the loading function |
| `AofLoad.LogRecovery` | ready/redis-cluster-ubuntu18/redis-6.2.7/src/aof.c:911-947 | for every command sequence without MULTI and every byte prefix of its log exactly the complete commands are run, with their arguments, and the file is cut at the end of the last one |
| `AofLoad.Recovery` | ready/redis-cluster-ubuntu18/redis-6.2.7/src/aof.c:911-947 | the outcome for every command sequence, with MULTI or not, every byte prefix, and a preamble |
| `AofLoad.CompleteFits` | ready/redis-cluster-ubuntu18/redis-6.2.7/src/aof.c:822-868 | the number of complete commands is the largest that fits into the prefix |
| `AofLoad.PreambleSurvives` | ready/redis-cluster-ubuntu18/redis-6.2.7/src/aof.c:785-804 | every prefix of every log behind an RDB preamble: the preamble is kept exactly when the file breaks off behind a complete command, or ends cleanly outside a transaction, or inside one that the first command did not open; otherwise the file is emptied |
| `AofLoad.RecoveredFile` | ready/redis-cluster-ubuntu18/redis-6.2.7/src/aof.c:911-947 | the recovered file is the log of the commands it keeps, and ends inside a transaction exactly when the file broke off inside one of its commands |
| `AofLoad.OpenTransaction` | ready/redis-cluster-ubuntu18/redis-6.2.7/src/aof.c:907-916 | going back to the last MULTI undoes nothing that was run |
| `AofLoad.BeforeMultiIs` | ready/redis-cluster-ubuntu18/redis-6.2.7/src/aof.c:879-879 | valid_before_multi is the offset of the last MULTI |
| `AofLoad.RunOrQueued` | ready/redis-cluster-ubuntu18/redis-6.2.7/src/aof.c:879-893 | every command of a log is either run or queued, in its order, brackets aside |
| `AofLoad.WholeTransactions` | ready/redis-cluster-ubuntu18/redis-6.2.7/src/aof.c:907-916 | loading runs the longest part of the complete commands that ends outside a transaction |
| `AofStrict.StrictLoad` | ready/redis-cluster-ubuntu18/redis-6.2.7/src/aof.c:928-964 | with aof-load-truncated off, or when truncate fails, every prefix of every log behind a preamble is loaded whole if it ends behind a complete command and outside a transaction, and otherwise loading fails and the file stays |
| `AofStrict.FirstBad` | ready/redis-cluster-ubuntu18/redis-6.2.7/src/aof.c:870-876 | the first command that is not known, or that memory cannot hold, decides, whatever comes behind it |
| `AofStrict.GarbageRefused` | ready/redis-cluster-ubuntu18/redis-6.2.7/src/aof.c:828-828 | what does not begin like a command is a format error, wherever it comes |
| `AofStrict.ShapeRefused` | ready/redis-cluster-ubuntu18/redis-6.2.7/src/aof.c:828-850 | neither is a command without arguments accepted, nor one whose arguments do not begin like one |
| `AofResume.LogContinues` | ready/redis-cluster-ubuntu18/redis-6.2.7/src/aof.c:928-947 | what the next load runs of whatever is logged after a recovery: what it gives alone, or, behind a transaction that was left open, the abandoned commands and everything up to the first EXEC logged later, and then the rest |
| `AofResume.LaterLogIntact` | ready/redis-cluster-ubuntu18/redis-6.2.7/src/aof.c:928-947 | the later log gives what it gives alone if and only if no transaction was left open, or it has no EXEC and is empty or begins with MULTI |
| `AofResume.HalfTransactionRuns` | ready/redis-cluster-ubuntu18/redis-6.2.7/src/aof.c:928-947 | the abandoned half of a transaction is run by the next load if and only if an EXEC is logged after the recovery |
| `AofResume.HalfTransaction` | ready/redis-cluster-ubuntu18/redis-6.2.7/src/aof.c:928-947 | a concrete log for which it is |
| `AofHistory.FeedText` | ready/redis-cluster-ubuntu18/redis-6.2.7/src/aof.c:613-663 | the text of one feed is the printed SELECT, if the database changed, and the printed command |
| `AofHistory.SelectText` | ready/redis-cluster-ubuntu18/redis-6.2.7/src/aof.c:617-624 | the constant text for SELECT is what the command printer would print |
| `AofHistory.FeedTracks` | ready/redis-cluster-ubuntu18/redis-6.2.7/src/aof.c:613-624 | replaying what was fed runs every command in its own database, whatever database is selected before |
| `AofHistory.NextKeeps` | ready/redis-cluster-ubuntu18/redis-6.2.7/src/aof.c:1851-2010 | one step of parent, child, pipes or administrator keeps the conservation invariants |
| `AofHistory.RunKeeps` | ready/redis-cluster-ubuntu18/redis-6.2.7/src/aof.c:1603-1701 | in every reachable state what was fed since the fork is diff, pipe and buffer in this order, and a child that is told to finish faces a parent that has stopped sending |
| `AofHistory.RewriteIsExact` | ready/redis-cluster-ubuntu18/redis-6.2.7/src/aof.c:1439-1449 | a successful rewrite leaves a file equal to the snapshot followed by exactly the bytes fed since the fork, for every interleaving |
| `AofHistory.FailedRewriteIsHarmless` | ready/redis-cluster-ubuntu18/redis-6.2.7/src/aof.c:1851-2010 | a rewrite that fails in the child or the parent, or is killed, changes nothing but that the child and its buffer are gone |
| `AofHistory.LogIsHistory` | ready/redis-cluster-ubuntu18/redis-6.2.7/src/aof.c:360-550 | with the file on, file and aof_buf are the last snapshot and everything fed since, in every reachable state of every run with flush failures, rewrites and switching off and on |
| `AofHistory.FlushedIsHistory` | ready/redis-cluster-ubuntu18/redis-6.2.7/src/aof.c:509-517 | a flush that delivers all of the buffer leaves the snapshot and everything fed since in the file, in every run |
| `AofHistory.SwitchedOffIsHistory` | ready/redis-cluster-ubuntu18/redis-6.2.7/src/aof.c:236-254 | so does switching the file off |
| `AofEvents.StartStep` | ready/redis-cluster-ubuntu18/redis-6.2.7/src/aof.c:275-294 | switching the file on waits for the rewrite that it starts; until that is done the file stays as it is |
| `AofEvents.ChildRuns` | ready/redis-cluster-ubuntu18/redis-6.2.7/src/aof.c:1763-1803 | until it ends, the rewrite that an event starts is the one that runs, and what was fed since is what the events of the run feed |
| `AofEvents.HistoryFromStart` | ready/redis-cluster-ubuntu18/redis-6.2.7/src/aof.c:613-668 | until a rewrite succeeds, file and aof_buf are what the server found followed by every command that the events of the run feed, in order and each in its database |
| `AofEvents.HistorySinceRewrite` | ready/redis-cluster-ubuntu18/redis-6.2.7/src/aof.c:1851-1993 | a rewrite that succeeds turns a file on that waits for it; from then on, until another succeeds, file and aof_buf are its snapshot followed by every command that the events of the run feed since that rewrite began |
| `AofHistory.CrashRecovery` | ready/redis-cluster-ubuntu18/redis-6.2.7/src/aof.c:753-958 | after a crash at any moment, the last snapshot being a preamble, which may be empty, and any commands: with the preamble and any number of further bytes of the file left, loading runs these commands and those fed since, each in its own database, up to the last complete one outside a transaction; transactions are run whole or not at all |
| `AofHistory.DoneKeeps` | ready/redis-cluster-ubuntu18/redis-6.2.7/src/aof.c:1851-2010 | finishing a rewrite, with success or any error, keeps the invariants |
| `AofParent.Parent.constructor` | ready/redis-cluster-ubuntu18/redis-6.2.7/src/aof.c:70-76 | a server that starts with the file on |
| `AofParent.Parent.FeedCommand` | ready/redis-cluster-ubuntu18/redis-6.2.7/src/aof.c:613-679 | the stored buffers change as the step of the runs says |
| `AofParent.Parent.FlushFile` | ready/redis-cluster-ubuntu18/redis-6.2.7/src/aof.c:360-550 | a flush is a step of the runs |
| `AofParent.Parent.SendData` | ready/redis-cluster-ubuntu18/redis-6.2.7/src/aof.c:95-122 | sending the diff is a step of the runs |
| `AofParent.Parent.ReadRequest` | ready/redis-cluster-ubuntu18/redis-6.2.7/src/aof.c:1680-1701 | the parent stops sending before it answers |
| `AofParent.Parent.RewriteDone` | ready/redis-cluster-ubuntu18/redis-6.2.7/src/aof.c:1851-2010 | the new file replaces the old one exactly when the child succeeded, every block was written whole and the other calls succeeded, with the log on, waiting or off |
| `CrcBits.ReflectLoopReverses` | ready/redis-cluster-ubuntu18/redis-6.2.7/src/crc64.c:69-78 | the reflection loop reverses the 64 bits |
| `CrcBits.ReflectInvolution` | ready/redis-cluster-ubuntu18/redis-6.2.7/src/crc64.c:69-78 | reflecting twice gives the word back |
| `CrcBits.Linear8` | ready/redis-cluster-ubuntu18/redis-6.2.7/src/crc64.c:88-111 | eight steps are linear over XOR |
| `CrcBits.ReflectByte` | ready/redis-cluster-ubuntu18/redis-6.2.7/src/crc64.c:93-106 | one byte of the reference loop, reflected, is one byte of the shift-right form |
| `CrcBits.ReferenceIsReflected` | ready/redis-cluster-ubuntu18/redis-6.2.7/src/crc64.c:88-111 | the reference loop, reflected, is the shift-right form, for every string and start |
| `CrcBits.Pieces` | ready/redis-cluster-ubuntu18/redis-6.2.7/src/crc64.c:88-111 | feeding a string in pieces gives the same result |
| `CrcBits.CheckValue` | ready/redis-cluster-ubuntu18/redis-6.2.7/src/crc64.c:135-136 | the reference gives 0xe9c6d914c4b8d9ca for the string 123456789 |
| `CrcSpeed.CrcReflect` | ready/redis-cluster-ubuntu18/redis-6.2.7/src/crc64.c:69-78 | the loop computes the reflection |
| `CrcSpeed.BitwiseByte` | ready/redis-cluster-ubuntu18/redis-6.2.7/src/crc64.c:93-106 | the inner loop absorbs one byte bit by bit |
| `CrcSpeed.Crc64Bitwise` | ready/redis-cluster-ubuntu18/redis-6.2.7/src/crc64.c:88-111 | _crc64 computes the reference value |
| `CrcSpeed.LittleInit` | ready/redis-cluster-ubuntu18/redis-6.2.7/src/crcspeed.c:33-50 | every table entry is the effect of its byte after so many zero bytes |
| `CrcSpeed.EightSlices` | ready/redis-cluster-ubuntu18/redis-6.2.7/src/crcspeed.c:125-132 | eight table rows together advance a word by eight bytes |
| `CrcSpeed.FoldWord` | ready/redis-cluster-ubuntu18/redis-6.2.7/src/crcspeed.c:124-132 | absorbing a word equals absorbing its eight bytes one by one |
| `CrcSpeed.Little` | ready/redis-cluster-ubuntu18/redis-6.2.7/src/crcspeed.c:112-144 | slice-by-8 equals byte-by-byte for every string and alignment |
| `CrcSpeed.BigInit` | ready/redis-cluster-ubuntu18/redis-6.2.7/src/crcspeed.c:87-95 | the big-endian table is the byte-reversed one |
| `CrcSpeed.Big` | ready/redis-cluster-ubuntu18/redis-6.2.7/src/crcspeed.c:183-213 | the big-endian form with byte-reversed words agrees for every string and alignment |
| `CrcSpeed.Rev8Xor` | ready/redis-cluster-ubuntu18/redis-6.2.7/src/crcspeed.c:71-83 | byte reversal is linear over XOR |
| `CrcSpeed.Crc64Init` | ready/redis-cluster-ubuntu18/redis-6.2.7/src/crc64.c:116-118 | the table fits the byte order of the machine |
| `CrcSpeed.Crc64` | ready/redis-cluster-ubuntu18/redis-6.2.7/src/crc64.c:121-123 | the fast CRC equals the reflected reference for every start value and string, and the reference itself for start 0, on machines of either byte order |
| `Blocked.HandleKeeps` | ready/redis-cluster-ubuntu18/redis-6.2.7/src/blocked.c:565-618 | if every non-empty list that somebody waits for is queued, then after the handler the queue is empty, index and counters are right, and no client waits for a list that has elements |
| `Blocked.DrainDecreases` | ready/redis-cluster-ubuntu18/redis-6.2.7/src/blocked.c:565-618 | a round either serves a client or leaves the queue empty: the lexicographic measure of blocked clients and queued keys falls |
| `Blocked.ServeLoopProgress` | ready/redis-cluster-ubuntu18/redis-6.2.7/src/blocked.c:267-319 | clients only leave, and a key is queued only if one left |
| `Blocked.ServeLoopKeeps` | ready/redis-cluster-ubuntu18/redis-6.2.7/src/blocked.c:267-319 | after the loop the list is empty or nobody in its queue waits for a list |
| `Blocked.TurnSound` | ready/redis-cluster-ubuntu18/redis-6.2.7/src/blocked.c:275-319 | a turn serves or passes over one waiter and keeps the invariants; without one the list has run out |
| `Blocked.ServeClientKeeps` | ready/redis-cluster-ubuntu18/redis-6.2.7/src/blocked.c:286-315 | serving one client, whether it is given the element, moves it or fails, keeps the invariants |
| `Blocked.PushToKeeps` | ready/redis-cluster-ubuntu18/redis-6.2.7/src/blocked.c:747-783 | creating a destination queues it if anybody waits there |
| `Blocked.ReleaseKeeps` | ready/redis-cluster-ubuntu18/redis-6.2.7/src/blocked.c:694-728 | taking a client off the lists of its keys keeps both sides of the index in step |
| `Blocked.CountedLess` | ready/redis-cluster-ubuntu18/redis-6.2.7/src/blocked.c:205-212 | the counters follow |
| `Blocked.BlockKeeps` | ready/redis-cluster-ubuntu18/redis-6.2.7/src/blocked.c:647-690 | blocking keeps the invariants when the keys hold no elements |
| `Blocked.RotateKeeps` | ready/redis-cluster-ubuntu18/redis-6.2.7/src/blocked.c:279-284 | moving a client of another kind to the tail keeps the invariants |
| `BlockedFair.ServeKeyFifo` | ready/redis-cluster-ubuntu18/redis-6.2.7/src/blocked.c:267-328 | the waiters of a key are served in the order of its queue; all of them unless the list runs out |
| `BlockedFair.TurnFifo` | ready/redis-cluster-ubuntu18/redis-6.2.7/src/blocked.c:275-319 | a turn serves the first in line that waits for a list, or nobody |
| `BlockedFair.HandleTotal` | ready/redis-cluster-ubuntu18/redis-6.2.7/src/blocked.c:565-618 | the whole handler loses and invents no element: every element is in one list or went to one client |
| `BlockedFair.ServeClientTotal` | ready/redis-cluster-ubuntu18/redis-6.2.7/src/blocked.c:286-315 | serving one client conserves elements, also when the pop is undone |
| `BlockedReplay.HandleReplays` | ready/redis-cluster-ubuntu18/redis-6.2.7/src/blocked.c:565-618 | running the propagated LPOP, RPOP and LMOVE on the lists as they were gives the lists that the handler leaves, at every key and in order |
| `BlockedReplay.ServedAsAsked` | ready/redis-cluster-ubuntu18/redis-6.2.7/src/blocked.c:286-315 | a client gets the element of the end it asked for; BLMOVE adds it at the end of the destination it asked for; a failed one changes nothing; reply and propagated command name key, destination and element |
| `BlockedReplay.ClientReplays` | ready/redis-cluster-ubuntu18/redis-6.2.7/src/blocked.c:286-315 | the propagated command of one client does elsewhere what serving did |
| `BlockedReplay.KeyTakes` | ready/redis-cluster-ubuntu18/redis-6.2.7/src/blocked.c:267-328 | when all who wait for the list use BLPOP, the elements they get are the first ones of the list, in order, and the others stay |
| `BlockedReplay.HandleFrees` | ready/redis-cluster-ubuntu18/redis-6.2.7/src/blocked.c:179-213 | whoever the handler unblocks is queued to be processed again |
| `BlockedOrder.RunIffFair` | ready/redis-cluster-ubuntu18/redis-6.2.7/src/blocked.c:556-564 | over every run the waiters of a kind stand in the order in which they blocked, at every key and in every state, if and only if no pass for another kind stops between two of them |
| `BlockedOrder.NextIffFair` | ready/redis-cluster-ubuntu18/redis-6.2.7/src/blocked.c:276-284 | one event keeps that order if and only if it is not such a pass |
| `BlockedOrder.VisitIff` | ready/redis-cluster-ubuntu18/redis-6.2.7/src/blocked.c:345-350 | a pass that moves waiters of other kinds to the tail keeps the order of a kind if and only if it is its own or does not split it |
| `BlockedOrder.SingleKindIsFair` | ready/redis-cluster-ubuntu18/redis-6.2.7/src/blocked.c:562-564 | runs in which no key has waiters of the kind when a pass for another kind visits it are fair |
| `BlockedOrder.FirstComeFirstServed` | ready/redis-cluster-ubuntu18/redis-6.2.7/src/blocked.c:267-328 | after a run without such a pass, those served at a key are served in the order in which they blocked, and before everyone left who blocked later |
| `BlockedOrder.OutOfOrder` | ready/redis-cluster-ubuntu18/redis-6.2.7/src/blocked.c:556-564 | a run of four events after which a client that blocked later stands before one that blocked earlier, both for a list |
| `BlockedOrder.ServeKeyVisits` | ready/redis-cluster-ubuntu18/redis-6.2.7/src/blocked.c:267-328 | serving the waiters for a list is a pass of these runs |
| `BlockedOrder.ProgramEvents` | ready/redis-cluster-ubuntu18/redis-6.2.7/src/blocked.c:565-618 | blocking a client, unblocking it and serving the waiters for a list are events of these runs |
| `BlockedServer.Server.ServeClientsBlockedOnSortedSetKey` | ready/redis-cluster-ubuntu18/redis-6.2.7/src/blocked.c:333-381 | index and counters stay right, and the queues change by a pass that ends with the last element of the sorted set |
| `BlockedServer.Server.constructor` | ready/redis-cluster-ubuntu18/redis-6.2.7/src/server.c:3188-3189 | an empty server meets the invariants |
| `BlockedServer.Server.QueueClient` | ready/redis-cluster-ubuntu18/redis-6.2.7/src/blocked.c:659-688 | the client is appended once to the queue of each key, also of keys named twice |
| `BlockedServer.Server.BlockForKeys` | ready/redis-cluster-ubuntu18/redis-6.2.7/src/blocked.c:647-690 | the client is blocked for its keys and counted |
| `BlockedServer.Server.UnblockWaitingData` | ready/redis-cluster-ubuntu18/redis-6.2.7/src/blocked.c:694-728 | the client leaves the queue of each of its keys, which is always found, and empty queues are dropped |
| `BlockedServer.Server.UnblockClient` | ready/redis-cluster-ubuntu18/redis-6.2.7/src/blocked.c:179-213 | and is counted no longer |
| `BlockedServer.Server.SignalKeyAsReady` | ready/redis-cluster-ubuntu18/redis-6.2.7/src/blocked.c:747-783 | a key is queued at most once and only if somebody waits for it |
| `BlockedServer.Server.PushElem` | ready/redis-cluster-ubuntu18/redis-6.2.7/src/t_list.c:743-760 | a push creates and signals a missing destination |
| `BlockedServer.Server.PushCommand` | ready/redis-cluster-ubuntu18/redis-6.2.7/src/t_list.c:226-260 | a push of one element is refused exactly for a key of another type, and keeps the invariants |
| `BlockedServer.Server.ServeClientBlockedOnList` | ready/redis-cluster-ubuntu18/redis-6.2.7/src/t_list.c:882-933 | delivers, moves, or fails exactly for a destination of another type |
| `BlockedServer.Server.ServeReceiver` | ready/redis-cluster-ubuntu18/redis-6.2.7/src/blocked.c:286-315 | pops, serves, undoes the pop on failure, and always unblocks, as the function that BlockedReplay.ServedAsAsked describes |
| `BlockedServer.Server.ServeTurns` | ready/redis-cluster-ubuntu18/redis-6.2.7/src/blocked.c:273-319 | the loop computes the serving function; the queue is never empty while turns are left |
| `BlockedServer.Server.ServeClientsBlockedOnListKey` | ready/redis-cluster-ubuntu18/redis-6.2.7/src/blocked.c:267-328 | and deletes the list if it is empty |
| `BlockedServer.Server.DrainKeys` | ready/redis-cluster-ubuntu18/redis-6.2.7/src/blocked.c:576-615 | the inner loop serves the keys one after the other |
| `BlockedServer.Server.HandleClientsBlockedOnKeys` | ready/redis-cluster-ubuntu18/redis-6.2.7/src/blocked.c:565-618 | terminates, keeps the invariants, and leaves no client waiting for a list with elements |
| `AclRoundTrip.Describe` | ready/redis-cluster-ubuntu18/redis-6.2.7/src/acl.c:464-603 | the printed rules, replayed on a fresh user, give the same bitmap and the same subcommands, the final comparison never panics, and the ALLCOMMANDS flag comes back exactly when every bit is set |
| `AclRoundTrip.DescribeCategories` | ready/redis-cluster-ubuntu18/redis-6.2.7/src/acl.c:493-555 | the greedy search ends, and the fake user is what the rules printed so far give |
| `AclRoundTrip.DescribeCommands` | ready/redis-cluster-ubuntu18/redis-6.2.7/src/acl.c:557-584 | the last pass makes bitmap and subcommands exact |
| `AclRoundTrip.DescribeCommand` | ready/redis-cluster-ubuntu18/redis-6.2.7/src/acl.c:561-582 | and so command by command |
| `AclRoundTrip.DescribeSubs` | ready/redis-cluster-ubuntu18/redis-6.2.7/src/acl.c:571-582 | the subcommands of one command come back in their order |
| `AclRoundTrip.MadeOk` | ready/redis-cluster-ubuntu18/redis-6.2.7/src/acl.c:825-1014 | every user that any history of rules makes meets what the printer needs |
| `AclRoundTrip.FlagNotPrinted` | ready/redis-cluster-ubuntu18/redis-6.2.7/src/acl.c:397-406 | the ALLCOMMANDS flag is not always preserved: taking a command away and giving it back leaves every bit set and the flag off |
| `AclRoundTrip.UntidySubcommand` | ready/redis-cluster-ubuntu18/redis-6.2.7/src/acl.c:955-985 | a rule gives a user any subcommand that is not empty, tidy or not |
| `AclMeaning.AllowedByRules` | ready/redis-cluster-ubuntu18/redis-6.2.7/src/acl.c:1179-1211 | after any rules a user may run a command if and only if the last rule that speaks of it grants it, or a rule since then has added the subcommand that is called |
| `AclMeaning.RuleMeans` | ready/redis-cluster-ubuntu18/redis-6.2.7/src/acl.c:825-1014 | each rule sets the bits of exactly the commands it names, drops their subcommands, adds a subcommand once and only to a command that is off, and clears the flag exactly when it takes something away |
| `AclMeaning.Spelled` | ready/redis-cluster-ubuntu18/redis-6.2.7/src/acl.c:825-1014 | a text that is accepted spells one of these rules |
| `AclMeaning.CategoryMeans` | ready/redis-cluster-ubuntu18/redis-6.2.7/src/acl.c:414-429 | a category rule sets the bits of exactly its commands that no module brought, and drops their subcommands |
| `AclMeaning.SameAllows` | ready/redis-cluster-ubuntu18/redis-6.2.7/src/acl.c:1188-1211 | users with the same bits and subcommands may run the same commands, whatever their flags |
| `AclMeaning.CheckCommandPerm` | ready/redis-cluster-ubuntu18/redis-6.2.7/src/acl.c:1186-1211 | the flag, the bit, or a subcommand in any case |
| `AclFile.LoadIff` | ready/redis-cluster-ubuntu18/redis-6.2.7/src/acl.c:1535-1623 | a file is loaded if and only if every line names a user and has only good rules; every user is then as the last line that names it says |
| `AclFile.SaveLoad` | ready/redis-cluster-ubuntu18/redis-6.2.7/src/acl.c:1502-1709 | loading the file that was saved brings back every user with the same bitmap and the same subcommands if and only if no subcommand contains a blank or a newline or ends in a tab or carriage return |
| `AclFile.LoadFromFile` | ready/redis-cluster-ubuntu18/redis-6.2.7/src/acl.c:1502-1649 | the loader gives the outcome of the loading function, all of the file or nothing, and applying rules that were tried never fails |
| `AclFile.LoadLine` | ready/redis-cluster-ubuntu18/redis-6.2.7/src/acl.c:1549-1623 | one line, with its three ways to be refused |
| `AclFile.ApplyRules` | ready/redis-cluster-ubuntu18/redis-6.2.7/src/acl.c:1583-1598 | rules are tried one after the other; the line is good if none fails |
| `AclFile.SaveToFile` | ready/redis-cluster-ubuntu18/redis-6.2.7/src/acl.c:1654-1679 | the text is one line for each user |
| `AclFile.SaveUser` | ready/redis-cluster-ubuntu18/redis-6.2.7/src/acl.c:611-672 | a line is the keyword, the name, the other rules and the command rules, separated by blanks |
| `AclFile.NameAsWritten` | ready/redis-cluster-ubuntu18/redis-6.2.7/src/acl.c:1564-1590 | the rules of a line are trimmed, the name is not: a line whose name has white space in it is refused |
| `AclFile.SavedExample` | ready/redis-cluster-ubuntu18/redis-6.2.7/src/acl.c:1654-1679 | the text for a small user |
| `AclFile.LoadWords` | ready/redis-cluster-ubuntu18/redis-6.2.7/src/acl.c:1547-1623 | the words of saved lines load as the users they were printed for |
| `AclFile.LoadTidy` | ready/redis-cluster-ubuntu18/redis-6.2.7/src/acl.c:1583-1598 | no file can give a user a subcommand that is not tidy |
| `AclLine.SavedLoads` | ready/redis-cluster-ubuntu18/redis-6.2.7/src/acl.c:1523-1598 | lines of clean words are read back word for word |
| `AclLine.LoadedTidy` | ready/redis-cluster-ubuntu18/redis-6.2.7/src/acl.c:1523-1598 | whatever the file is, the rules that are read contain no blank or newline and do not end in a tab or carriage return |
| `AclLine.SplitLine` | ready/redis-cluster-ubuntu18/redis-6.2.7/src/sds.c:862-910 | joined words are split into themselves if and only if none contains a blank |
| `AclLine.SplitParts` | ready/redis-cluster-ubuntu18/redis-6.2.7/src/sds.c:862-910 | no part contains the separator, and all characters come from the string |
| `AclLine.TrimParts` | ready/redis-cluster-ubuntu18/redis-6.2.7/src/sds.c:747-760 | what is trimmed is at the two ends and of the set, and what stays neither begins nor ends with one of the set |
| `AclLine.RulesTidy` | ready/redis-cluster-ubuntu18/redis-6.2.7/src/acl.c:955-985 | rules that are tidy words make only tidy subcommands |
| `Acl.SetUserKeeps` | ready/redis-cluster-ubuntu18/redis-6.2.7/src/acl.c:825-1014 | every rule keeps: bits of no command agree with the reserved one, subcommands only for commands that are off and without repetition, and the flag only with every bit set |
| `Acl.SetCategoryKeeps` | ready/redis-cluster-ubuntu18/redis-6.2.7/src/acl.c:414-429 | and so do category rules |
| `Acl.AddSubKeeps` | ready/redis-cluster-ubuntu18/redis-6.2.7/src/acl.c:712-739 | and subcommand rules |
| `Acl.Lookup` | ready/redis-cluster-ubuntu18/redis-6.2.7/src/acl.c:675-681 | a command is found by its name in any case |
| `AclDescribe.AclUser.constructor` | ready/redis-cluster-ubuntu18/redis-6.2.7/src/acl.c:244-265 | a fresh user has no permissions |
| `AclDescribe.AclUser.SetCommandBit` | ready/redis-cluster-ubuntu18/redis-6.2.7/src/acl.c:397-406 | clearing a bit clears the flag |
| `AclDescribe.AclUser.AddAllowedSubcommand` | ready/redis-cluster-ubuntu18/redis-6.2.7/src/acl.c:712-739 | a subcommand is added unless it is there in any case |
| `AclDescribe.AclUser.SetCommandBitsForCategory` | ready/redis-cluster-ubuntu18/redis-6.2.7/src/acl.c:414-429 | refuses exactly an unknown category, and otherwise does what AclMeaning.CategoryMeans says of it |
| `AclDescribe.AclUser.SetAll` | ready/redis-cluster-ubuntu18/redis-6.2.7/src/acl.c:856-867 | all bits, the flag and the subcommands |
| `AclDescribe.AclUser.Rule` | ready/redis-cluster-ubuntu18/redis-6.2.7/src/acl.c:825-1014 | a rule has the effect of the rule function, and an error changes nothing |
| `AclDescribe.CountCategoryBits` | ready/redis-cluster-ubuntu18/redis-6.2.7/src/acl.c:435-455 | the numbers of commands of the category that are on and off |
| `AclDescribe.FindBest` | ready/redis-cluster-ubuntu18/redis-6.2.7/src/acl.c:512-536 | the best of the categories that fit and were not applied, or none if none fits |
| `AclDescribe.CommandRule` | ready/redis-cluster-ubuntu18/redis-6.2.7/src/acl.c:946-954 | a printed command rule sets that command |
| `AclDescribe.SubRule` | ready/redis-cluster-ubuntu18/redis-6.2.7/src/acl.c:955-985 | a printed subcommand rule adds that subcommand |
| `AclDescribe.CategoryRule` | ready/redis-cluster-ubuntu18/redis-6.2.7/src/acl.c:994-999 | a printed category rule sets that category |
| `BitField.IncrBy` | ready/redis-cluster-ubuntu18/redis-6.2.7/src/bitops.c:1044-1114 | the reply is the true sum, or with WRAP the congruent value of the range, with SAT the nearest bound, with FAIL nothing; the field then holds the reply, no other bit changes, and FAIL writes nothing |
| `BitField.GetField` | ready/redis-cluster-ubuntu18/redis-6.2.7/src/bitops.c:1115-1148 | reading through the nine-byte buffer is right for every field, also beyond the string |
| `BitField.Window` | ready/redis-cluster-ubuntu18/redis-6.2.7/src/bitops.c:1125-1135 | the buffer holds up to nine bytes of the string, padded with zeros |
| `BitField.SetField` | ready/redis-cluster-ubuntu18/redis-6.2.7/src/bitops.c:1044-1114 | the reply is the old value; the field then holds the number, or what the mode makes of it, no other bit changes, and FAIL writes nothing |
| `BitField.StoredIff` | ready/redis-cluster-ubuntu18/redis-6.2.7/src/bitops.c:293-353 | saturation stores the nearest number of the range if and only if the number fits, or an unsigned field is given no negative number, or a signed one no number so low that its distance to the maximum leaves int64_t |
| `BitField.LeastBecomesGreatest` | ready/redis-cluster-ubuntu18/redis-6.2.7/src/bitops.c:332-343 | the least int64_t saturates an 8-bit field to 127, and -1 an unsigned one to 255 |
| `BitField.CheckUnsigned` | ready/redis-cluster-ubuntu18/redis-6.2.7/src/bitops.c:288-323 | for every uint64_t: overflow is reported exactly when the value or the true sum is out of range, with the value the mode asks for |
| `BitField.CheckSigned` | ready/redis-cluster-ubuntu18/redis-6.2.7/src/bitops.c:325-377 | the same for every int64_t and fields up to 64 bits, with maxincr and minincr computed in int64_t, wrap-around included |
| `BitField.IncrementsFit` | ready/redis-cluster-ubuntu18/redis-6.2.7/src/bitops.c:325-333 | maxincr and minincr fit int64_t exactly where the checks look at them: unless the field has 64 bits and the value the wrong sign |
| `BitField.WrapSigned` | ready/redis-cluster-ubuntu18/redis-6.2.7/src/bitops.c:357-375 | the sign extension gives the congruent value of the range |
| `BitField.SetUnsigned` | ready/redis-cluster-ubuntu18/redis-6.2.7/src/bitops.c:209-222 | the field takes the lowest bits of the value and no other bit changes |
| `BitField.GetUnsigned` | ready/redis-cluster-ubuntu18/redis-6.2.7/src/bitops.c:229-241 | the value of the bits of the field |
| `BitField.SetSigned` | ready/redis-cluster-ubuntu18/redis-6.2.7/src/bitops.c:224-227 | through the word of the value |
| `BitField.GetSigned` | ready/redis-cluster-ubuntu18/redis-6.2.7/src/bitops.c:243-263 | the two's complement value of the bits |
| `BitField.ValueOfBits` | ready/redis-cluster-ubuntu18/redis-6.2.7/src/bitops.c:209-241 | what was written is read back modulo 2^width |
| `BitField.BitsOfValue` | ready/redis-cluster-ubuntu18/redis-6.2.7/src/bitops.c:209-241 | writing what was read changes nothing |
| `BitField.WrappedIs` | ready/redis-cluster-ubuntu18/redis-6.2.7/src/bitops.c:357-375 | there is only one congruent value in the range |
| `BitField.WrappedInRange` | ready/redis-cluster-ubuntu18/redis-6.2.7/src/bitops.c:357-375 | and the wrapped value is it |
| `Popcount.RedisPopcount` | ready/redis-cluster-ubuntu18/redis-6.2.7/src/bitops.c:40-92 | the number of one bits, for every length, alignment and byte order |
| `Popcount.CountBytes` | ready/redis-cluster-ubuntu18/redis-6.2.7/src/bitops.c:46-50 | the loops over single bytes count the ones they pass |
| `Popcount.SevenWords` | ready/redis-cluster-ubuntu18/redis-6.2.7/src/bitops.c:53-87 | the multiply-and-shift sum of seven words is the number of ones of their 28 bytes |
| `Popcount.CountApart` | ready/redis-cluster-ubuntu18/redis-6.2.7/src/bitops.c:66-79 | the bytes of a word are counted independently |
| `Popcount.PackSum` | ready/redis-cluster-ubuntu18/redis-6.2.7/src/bitops.c:80-86 | the multiplication adds up the four bytes: at most 224, so nothing is lost |
| `Popcount.WordsAreColumns` | ready/redis-cluster-ubuntu18/redis-6.2.7/src/bitops.c:80-86 | counts of seven words do not run over their bytes |
| `Popcount.CountIsTable` | ready/redis-cluster-ubuntu18/redis-6.2.7/src/bitops.c:44-44 | the count within a byte is that of the table |
| `Popcount.OnesAreBits` | ready/redis-cluster-ubuntu18/redis-6.2.7/src/bitops.c:40-92 | counting by bytes is counting by bits |
| `Bitpos.RedisBitpos` | ready/redis-cluster-ubuntu18/redis-6.2.7/src/bitops.c:101-186 | the first place of the zero-padded string that has the bit; -1 only when a one is sought and there is none; the end of the string when all bits are one and a zero is sought |
| `Bitpos.SkipAhead` | ready/redis-cluster-ubuntu18/redis-6.2.7/src/bitops.c:118-142 | bytes and words without the bit are skipped |
| `Bitpos.LoadLast` | ready/redis-cluster-ubuntu18/redis-6.2.7/src/bitops.c:144-159 | the last word is built most significant byte first, padded with zeros |
| `Bitpos.ScanWord` | ready/redis-cluster-ubuntu18/redis-6.2.7/src/bitops.c:168-185 | finds the first such bit of the word; the panic is not reached |
| `Bitpos.TestBit` | ready/redis-cluster-ubuntu18/redis-6.2.7/src/bitops.c:172-180 | the moving mask tests exactly that bit of the byte string |
| `Bits.SetBitAt` | ready/redis-cluster-ubuntu18/redis-6.2.7/src/bitops.c:214-219 | writing one bit of a byte changes that bit only |
| `Adlist.List.constructor` | ready/redis-cluster-ubuntu18/redis-6.2.7/src/adlist.c:42-54 | an empty list |
| `Adlist.List.AddNodeHead` | ready/redis-cluster-ubuntu18/redis-6.2.7/src/adlist.c:89-107 | one node is put in front, all links stay right |
| `Adlist.List.AddNodeTail` | ready/redis-cluster-ubuntu18/redis-6.2.7/src/adlist.c:115-133 | one node is put at the end |
| `Adlist.List.InsertNode` | ready/redis-cluster-ubuntu18/redis-6.2.7/src/adlist.c:135-162 | one node is put before or after the given one |
| `Adlist.List.DelNode` | ready/redis-cluster-ubuntu18/redis-6.2.7/src/adlist.c:168-181 | exactly that node leaves, and it keeps its own links |
| `Adlist.List.RotateTailToHead` | ready/redis-cluster-ubuntu18/redis-6.2.7/src/adlist.c:331-343 | the last node becomes the first |
| `Adlist.List.RotateHeadToTail` | ready/redis-cluster-ubuntu18/redis-6.2.7/src/adlist.c:346-358 | the first node becomes the last |
| `Adlist.List.Join` | ready/redis-cluster-ubuntu18/redis-6.2.7/src/adlist.c:362-378 | the other list is appended and ends up empty but valid |
| `Adlist.List.Empty` | ready/redis-cluster-ubuntu18/redis-6.2.7/src/adlist.c:57-72 | no node is left, and the walk meets no null pointer |
| `Adlist.List.SearchKey` | ready/redis-cluster-ubuntu18/redis-6.2.7/src/adlist.c:291-309 | the first node that matches, or null if none does |
| `Adlist.List.Index` | ready/redis-cluster-ubuntu18/redis-6.2.7/src/adlist.c:316-328 | the node at a position counted from either end, or null |
| `Adlist.List.Dup` | ready/redis-cluster-ubuntu18/redis-6.2.7/src/adlist.c:251-280 | a separate list with the copied values, or null if copying one fails |
| `Adlist.List.Sweep` | ready/redis-cluster-ubuntu18/redis-6.2.7/src/adlist.c:206-241 | an iteration that deletes some of its current nodes still visits each original node exactly once, and the others stay |
| `Adlist.List.SweepBack` | ready/redis-cluster-ubuntu18/redis-6.2.7/src/adlist.c:211-241 | the same from the tail |
| `Adlist.Iter.Next` | ready/redis-cluster-ubuntu18/redis-6.2.7/src/adlist.c:230-241 | the iterator moves on before the node may be deleted |
| `Adlist.SpliceIn` | ready/redis-cluster-ubuntu18/redis-6.2.7/src/adlist.c:154-159 | linking the neighbours to a new node keeps all links right |
| `Adlist.CutOut` | ready/redis-cluster-ubuntu18/redis-6.2.7/src/adlist.c:168-181 | linking the neighbours of a node to each other keeps all other links right |
| `Adlist.LinkEnds` | ready/redis-cluster-ubuntu18/redis-6.2.7/src/adlist.c:362-378 | linking the end of one list to the start of another makes one list |

## Left out

- Handshake, gossip, failure detection, replica migration, node addresses, pub/sub, MIGRATE, DUMP and RESTORE of `cluster.c`; a node is flagged as failed by an event.
- Epochs are unbounded: wrap-around of 64-bit epochs is not modelled.
- Slot bitmaps are sequences of booleans in the table and sets in the protocol; their bytes are not modelled. The flag MIGRATE_TO and the deletion of keys in slots that were lost are left out.
- The words `[slot->-node]` and `[slot-<-node]` of nodes.conf, its other columns, and splitting a line into words.
- CLUSTER SETSLOT with MIGRATING, IMPORTING and STABLE, which only set or clear one mark.
- Saving the configuration to disk before sending, and what a crash does to votes.
- Rewriting of each data type into commands, the RDB preamble, and the time at which fsync happens; a snapshot is any byte string.
- Translation of expire commands before they are fed; the model starts from the translated command.
- `write` that returns zero forever keeps aofWrite looping; the model covers the runs in which the kernel answers finitely often.
- What clients blocked on sorted sets, streams and module keys are given; only their places in the queues are modelled, and streams and modules only by clients that leave. Timeouts and the list of clients to be processed again are not modelled beyond membership.
- Blocked keys live in one database; a key may be read as a pair of database and name.
- The bitmap of an ACL user is an array of booleans, not words. Passwords, keys and channels are words that are carried along; users in redis.conf and the writing of the file are left out.
- Popcount: the table of 256 entries is given by its meaning and not by its literal text.
- The parsing of BITFIELD arguments.
- The 16-bit routines of `crcspeed.c`, `crc16.c`, sockets, event loops, TLS, configuration tables and the Ansible files of the repository.
