# HPIM-DM, modelled and proved in Dafny

HPIM-DM is a hard-state multicast routing protocol. Routers on a link keep replicas of each other's
state: every message carries `<BootTime, SN>`, is acknowledged and retransmitted, and a router that
is new to another one gets a snapshot, in fragments, while updates go on. On top of the replicas each
router runs one state machine per (source, group) tree. This project models that protocol and proves,
for every run, every input and any number of routers, links, trees and threads, what it is for.

`dafny verify dfyconfig.toml` checks the whole project with Dafny 4.11.

## How it is built

| files | what they hold |
|---|---|
| `Types`, `Metrics` | addresses, trees, stamps, and the two orders on metrics |
| `ReliableSpec`, `NeighborSpec`, `TreeDatabase` | reliable transmission, one end of an adjacency, and what all neighbours of a link say in sum, as pure functions |
| `ReliableRuns` | what one interface keeps over every run: stamps, CheckpointSN, and when a neighbour is given up |
| `Interface` | the same as the objects the router updates in place: `ReliableMessageTransmission`, `InterfaceHPIM`, `Neighbor`; every method is proved against the functions |
| `Link` | a link with any number of routers as a state machine; the network loses, duplicates, delays and reorders |
| `LinkInv`, `LinkNb`, `LinkFrame`, `LinkFlight`, `LinkSteps`, `LinkDeliver` | the invariant of a link, and that each step keeps it |
| `LinkTheorems` | complete snapshots, replication as replay, sound acks, nothing lost, what a neighbour stores in the end |
| `LinkBoot` | BootTimes: a newer one starts over, an older one is ignored, none is forgotten |
| `LinkInterest` | whether a neighbour counts as interested, from what was said and what was forgotten |
| `LinkTable` | when what a router told its neighbours of a tree agrees with its own table, over every run |
| `LockStep`, `LinkMeet` | the exchange of snapshots: lockstep, its bound, agreement of both ends, and that any two routers can always finish one |
| `TreeSpec`, `TreeEntry`, `Refusal`, `KernelEntry`, `TreeExample` | the state machine of one tree, as values and as the object with its handlers, what it tells the upstream neighbours it wants nothing from, and the cases in which interest signalling fails |
| `Kernel` | the table of trees, its caches and the removal of entries |
| `LinkTree`, `Removal` | all trees of a router, one entry after the other, as the environment of its links: when its snapshots say what was announced |
| `Network` | many routers that have converged: no loops, no tree without a source, one assert winner |
| `RWLock` | the writer-preference lock, one primitive step at a time |
| `Codec`, `Checksum`, `LinkWire` | the binary formats, the checksum, and why the link model may exchange values |

Code that updates objects in place is a class whose methods are proved against pure functions
(`Interface`, `KernelEntry`, `Kernel`); protocols between parties are state machines over those same
functions (`Link`, `RWLock`), so a theorem over runs is a theorem about what the methods do.

## What the code does not do

Six promises turned out to hold only under a condition. The model keeps the code as it is, shows an
input that fails, and states the condition.

- **Interest signalling** (`hpimdm/tree/KernelEntry.py:391-417`). After a change of route the last
  Interest or NoInterest told to the best upstream neighbour may be wrong, in two cases. In a live tree
  the new root interface is created after the replaced non-root has stopped holding its forwarding
  state and tells the neighbour NoInterest; the first non-root that then wins its assert brings the
  router back into the tree, which it never left as far as `_was_in_tree` knows
  (`TreeExample.TheReturnIsOverlooked`). And when the change revives an Inactive tree the new root
  interface says nothing at all (`TreeExample.TheRevivedIsSilent`).
  `KernelEntryNonOriginator.NetworkUpdate` states exactly when either happens (`Overlooked`). Every other
  handler keeps the signalling right.
- **NoInterest in an Unsure tree** (`hpimdm/tree/KernelEntry.py:391-413`,
  `hpimdm/tree/tree_if_non_root.py:39-61`). While a tree is Unsure the router wants no data from the
  upstream neighbours of its non-root links, and tells the best one of each link so. When the route
  moves in a tree that stays Unsure, the former root link becomes such a link, but its best upstream
  neighbour, which was told Interest if the router is in the tree, is told nothing
  (`TreeExample.TheFormerRootIsNotRefused`). `Refusal.SwapRefused`, and
  of the handlers `NetworkUpdate` and `NewInterface`, state that this, and nothing else, breaks it
  (`Unrefused`); `Refusal.UnrefusedExactlyIf` states when it happens. Every other handler keeps it.
- **Snapshots agree with announcements** (`hpimdm/Kernel.py:530-548`). An entry is removed without a
  word. Usually it was Inactive and is not announced any more. But an Inactive entry that a change of
  route revives announces the tree again, and its removal goes on all the same: `Removal.RevivedAndRemoved`
  takes the handlers through it. From then on the neighbours hold what the snapshots omit. After a
  removal the two agree on a link exactly if the old entry was not announced there or the new one is
  (`Removal.RemoveMulticastRoute`, `LinkTree.RemovalExactlyIf`); how long they do not is
  `LinkTree.OrphanedExactlyIf`, what the link makes of it `LinkTable.TruthfulExactlyIf`.
- **Cache coherence** (`hpimdm/tree/KernelEntry.py:82-83`, `hpimdm/Kernel.py:513-548`). An Inactive
  entry ignores what its neighbours say until its removal, which runs in a thread of its own, gets its
  turn. If the route to the source changes back before that, the entry is live again with old caches
  (`Kernel.StaleWhileBeingRemoved`). The caches of an entry that has never been Inactive are right
  between any two handlers about every link on which nobody is being synchronised; and each handler leaves an entry right about its link exactly if the entry
  was not Inactive or was right about it already (`Heeded`).
- **Lossless packets** (`hpimdm/packet/PacketHPIMSync.py:216-267`,
  `hpimdm/packet/PacketHPIMHeader.py:120-129`). A Sync with options and more trees loses the options,
  and a security value longer than its stated length shifts the payload. `Codec.SyncRoundTrip` and
  `Codec.HeaderRoundTrip` state the exact conditions; the neighbour machine never violates the first.
- **The checksum of RFC 1071** (`hpimdm/utils.py:4-14`). The bytes are exchanged at the end whatever
  the byte order of the host, so a big-endian host computes it exactly if both bytes are equal
  (`Checksum.HostsAgree`, `Checksum.BigEndianFails`).

Details the model follows although they look unintended: the reply of a synchronised end passes no
trees (`hpimdm/Neighbor.py:78`), modelled as the empty list; the header of an Ack carries the
interface's current BootTime and not that of the adjacency (it is sound all the same, because an
adopted snapshot was taken for a BootTime no later than the adjacency's); a second removal thread
removes whatever entry the tree then has (`hpimdm/Kernel.py:525-531`).

## Model

| member | source | states |
|---|---|---|
| `Metrics.AssertOrderIsTotal` | hpimdm/tree/metric.py:59-63 | of two claims exactly one is better unless they are the same, so elections never tie; a lower preference decides whatever the costs |
| `Metrics.AssertOrderIsTransitive` | hpimdm/tree/metric.py:9-19 | better than better is better |
| `ReliableRuns.RunKeepsInv` | hpimdm/ReliableMsgTransmission.py:15-158 | over every run: in-flight messages carry the current BootTime and an SN not above the sequencer, an in-flight unicast is newer than the multicast of its tree, and whatever is in flight has an armed timer |
| `ReliableRuns.IssuedStampsIncrease` | hpimdm/InterfaceHPIM.py:212-227 | the stamps an interface issues strictly increase, across a wrap of the SN too |
| `ReliableRuns.NowNeverGoesBack` | hpimdm/InterfaceHPIM.py:212-227 | the current stamp never goes back |
| `ReliableRuns.CheckpointIsMonotone` | hpimdm/InterfaceHPIM.py:229-246 | within one BootTime the CheckpointSN never decreases |
| `ReliableRuns.SettledStays` | hpimdm/InterfaceHPIM.py:229-246 | a CheckpointSN once sent stays behind everything in flight |
| `ReliableRuns.RetransmissionsAreBounded` | hpimdm/ReliableMsgTransmission.py:178-247 | with no new messages or neighbours, after ACK_FAILURE_THRESHOLD + 2 expiries nothing is in flight, whatever acks arrive in between |
| `ReliableRuns.FailsExactlyWhen` | hpimdm/ReliableMsgTransmission.py:237-247 | a neighbour that acks nothing of what is in flight for it stays one up to ACK_FAILURE_THRESHOLD expiries, and no longer, whatever is acked by others |
| `ReliableRuns.NobodyFailsEarly` | hpimdm/ReliableMsgTransmission.py:237-247 | from no counted failures, ACK_FAILURE_THRESHOLD expiries cost no neighbour, whoever acks what |
| `ReliableRuns.GivenUpOnlyIfOwing` | hpimdm/ReliableMsgTransmission.py:178-247 | over every run a neighbour is given up only at the expiry for a tree about which it owed an ack at more than ACK_FAILURE_THRESHOLD expiries |
| `Interface.ReliableMessageTransmission.SendMulticast` | hpimdm/ReliableMsgTransmission.py:15-48 | a new number, the message in flight for everybody with its timer armed, everything older of the tree cancelled, the packet sent |
| `Interface.ReliableMessageTransmission.SendUnicast` | hpimdm/ReliableMsgTransmission.py:50-90 | a new number, the message in flight for one neighbour, older ones for it cancelled, the packet sent |
| `Interface.ReliableMessageTransmission.ReceiveAck` | hpimdm/ReliableMsgTransmission.py:92-115 | an ack settles what was sent to that neighbour up to the acked stamp, and no more |
| `Interface.ReliableMessageTransmission.RetransmissionTimeout` | hpimdm/ReliableMsgTransmission.py:178-213 | exactly what is still in flight is sent again; the neighbours and failures become those of the runs in `ReliableRuns` |
| `Interface.ReliableMessageTransmission.GetSequenceNumber` | hpimdm/ReliableMsgTransmission.py:215-231 | the lowest number in flight for the tree, less one: the most its CheckpointSN may be |
| `Interface.ReliableMessageTransmission.CheckNeighborFailures` | hpimdm/ReliableMsgTransmission.py:237-247 | the neighbours over the threshold, and only those, are forced to fail; `ReliableRuns.FailsExactlyWhen` says when that is |
| `Interface.InterfaceHPIM.GetSequenceNumber` | hpimdm/InterfaceHPIM.py:212-227 | the next number, or number 1 of a new BootTime with nothing in flight |
| `Interface.InterfaceHPIM.GetCheckpointSn` | hpimdm/InterfaceHPIM.py:229-246 | the largest number not above the sequencer and below everything in flight |
| `Interface.InterfaceHPIM.NewNeighbor` | hpimdm/InterfaceHPIM.py:463-471 | an unknown sender gets a record, and the exchange of snapshots starts |
| `Interface.InterfaceHPIM.ReceiveHello` | hpimdm/InterfaceHPIM.py:473-492 | the interface, its records and what it sends are as the link model says (`LinkBoot`, `LinkTheorems.CheckpointForgets`); a neighbour known by that BootTime that gives a hold time of zero is lost instead |
| `Interface.InterfaceHPIM.Receive` | hpimdm/InterfaceHPIM.py:473-718 | whatever packet arrives, the router of the link model that the interface stands for becomes what that model says |
| `Interface.InterfaceHPIM.ReceiveSync` | hpimdm/InterfaceHPIM.py:494-530 | the same for a Sync; one for another BootTime changes nothing |
| `Interface.InterfaceHPIM.ReceiveReliable` | hpimdm/InterfaceHPIM.py:532-676 | the same for IamUpstream, IamNoLongerUpstream, Interest and NoInterest, and which of its handlers the table is to run |
| `Interface.InterfaceHPIM.ReceiveAck` | hpimdm/InterfaceHPIM.py:678-718 | the same for an Ack |
| `Interface.InterfaceHPIM.GetTreeState` | hpimdm/InterfaceHPIM.py:328-350 | the best claim of all synchronised neighbours, and whether any of them is interested; `LinkInterest` says when one is |
| `TreeDatabase.BestIsUnique` | hpimdm/InterfaceHPIM.py:335-350 | the best claim does not depend on the order of the neighbours |
| `TreeDatabase.BestIsLowest` | hpimdm/tree/metric.py:9-19 | no neighbour's claim has a lower preference than the best, nor the same and a lower cost, nor the same metric and a higher address |
| `Interface.InterfaceHPIM.SendMulticast` | hpimdm/InterfaceHPIM.py:735-764 | what the interface announces, as the link model says |
| `Interface.InterfaceHPIM.SendUnicast` | hpimdm/InterfaceHPIM.py:766-782 | what the interface tells one neighbour, as the link model says |
| `Interface.InterfaceHPIM.NeighborStartSynchronization` | hpimdm/InterfaceHPIM.py:784-792 | whatever was in flight for the neighbour is settled by the snapshot |
| `Interface.InterfaceHPIM.ClearReliableTransmission` | hpimdm/InterfaceHPIM.py:818-824 | nothing is in flight any more |
| `Interface.InterfaceHPIM.RemoveNeighbor` | hpimdm/InterfaceHPIM.py:395-407 | the neighbour is gone, all others stay, and all trees are to be rechecked exactly if it was one |
| `Interface.InterfaceHPIM.LoseNeighbor` | hpimdm/InterfaceHPIM.py:395-407 | losing a neighbour, for whatever reason, is the step of the link model |
| `Interface.Neighbor.NewNeighborOrAdjacencyReset` | hpimdm/Neighbor.py:27-52 | a new snapshot, everything stored forgotten, the first Sync sent as driver |
| `Interface.Neighbor.InstallTreeState` | hpimdm/Neighbor.py:367-379 | a fragment is stored but for trees about which something newer than the snapshot arrived |
| `Interface.Neighbor.MasterRecvSync` | hpimdm/Neighbor.py:86-130 | the driven end: all branches, the answer, and when it finishes |
| `Interface.Neighbor.SlaveRecvSync` | hpimdm/Neighbor.py:150-205 | the driving end: all branches, which of two drivers yields, and when it finishes |
| `Interface.Neighbor.SyncedRecvSync` | hpimdm/Neighbor.py:65-83 | a synchronised end repeats its last answer, or starts over |
| `Interface.Neighbor.UnknownRecvSync` | hpimdm/Neighbor.py:225-245 | the first Sync of a stranger is answered or starts an exchange |
| `Interface.Neighbor.RecvSync` | hpimdm/Neighbor.py:426-438 | older BootTimes are ignored, newer ones start over, all else goes to the state |
| `Interface.Neighbor.SyncTimeout` | hpimdm/Neighbor.py:132-147 | the last Sync, as driver or as driven, is sent again |
| `Interface.Neighbor.RecvHello` | hpimdm/Neighbor.py:411-422 | the record and what is sent are as in the link model, where a newer BootTime starts over (`LinkBoot.NewerBootStartsOver`) and the CheckpointSN counts only when synchronised |
| `Interface.Neighbor.RecvReliablePacket` | hpimdm/Neighbor.py:440-482 | which messages are delivered, which only acked, which ignored, and which start over |
| `Interface.Neighbor.RecvAck` | hpimdm/Neighbor.py:484-499 | an ack is accepted exactly when it names both snapshots of the adjacency |
| `Interface.Neighbor.SetCheckpointSn` | hpimdm/Neighbor.py:504-514 | last numbers up to a greater CheckpointSN are forgotten |
| `Interface.Neighbor.StartSnapshot` | hpimdm/Neighbor.py:525-538 | the snapshot gets a number of its own and settles what was in flight |
| `LinkNb.InstallKeepsReplays` | hpimdm/Neighbor.py:367-379 | fragment k on top of fragments 0..k-1 leaves every tree as the snapshot, or the newer message, says |
| `LinkNb.HeardReplays` | hpimdm/InterfaceHPIM.py:557-565 | a delivered message replaces what was stored about its tree and touches no other tree |
| `LinkTheorems.RunOk` | hpimdm/Neighbor.py:86-482 | over every run of any number of routers the invariant of the link holds |
| `LinkTheorems.SnapshotIsComplete` | hpimdm/Neighbor.py:86-222 | a synchronised router stores a tree about which nothing newer arrived exactly as the one snapshot it adopted has it |
| `LinkTheorems.ReplicationIsReplay` | hpimdm/Neighbor.py:440-482 | a tree about which something was delivered is stored as the last delivered message left it; none is both upstream and a matter of interest |
| `LinkTheorems.DeliveriesIncrease` | hpimdm/Neighbor.py:464-482 | within an adjacency the delivered numbers of a tree strictly increase |
| `LinkTheorems.DeliveredExactlyIf` | hpimdm/Neighbor.py:440-482 | a message of the known BootTime is delivered exactly if it is past the snapshot and the CheckpointSN and later than all delivered about its tree, and acked exactly if it is that or the very last of them |
| `LinkTheorems.CheckpointForgets` | hpimdm/Neighbor.py:504-514 | after a greater CheckpointSN a synchronised router remembers of all delivered numbers just those that are greater |
| `LinkTheorems.PruningChangesNothing` | hpimdm/Neighbor.py:504-514 | the pruned map of last numbers acks, delivers and ignores the same messages as the unpruned one |
| `LinkTheorems.NothingIsLost` | hpimdm/ReliableMsgTransmission.py:92-158 | what a router said since the snapshot of an adjacency is in flight for the neighbour or it, or something later, was delivered there |
| `LinkTheorems.NothingIsPrunedWhileSyncing` | hpimdm/Neighbor.py:367-379 | while fragments may still be installed the last number of every delivered tree is at hand, so no fragment overwrites fresher state |
| `LinkTheorems.WhatBecameOfIt` | hpimdm/ReliableMsgTransmission.py:92-158 | a message is out of flight for a neighbour only if the neighbour is gone, the numbers started over, a later snapshot covers it, a later message took its place, or the neighbour delivered it or a later one |
| `LinkTheorems.AcksAreSound` | hpimdm/Neighbor.py:484-499 | an ack takes out of flight only what its sender has delivered, itself or a later message, in the same pair of snapshots |
| `LinkTheorems.StoredIsLastSaid` | hpimdm/InterfaceHPIM.py:306-323 | once nothing is pending about a tree, a neighbour holds exactly what the last message to it about the tree said |
| `LinkTheorems.StoredIsSnapshot` | hpimdm/Neighbor.py:367-379 | and if there was none since the snapshot, exactly what that snapshot says |
| `LinkTheorems.QuiescentAgreement` | hpimdm/InterfaceHPIM.py:306-323 | once nothing is pending about a tree, a synchronised neighbour stores it as upstream exactly if, and with the metric that, the router announces, provided that the router told nobody otherwise since it last announced it |
| `LinkTable.TruthStep` | hpimdm/InterfaceHPIM.py:306-323 | a step leaves what was told in agreement with the table exactly if it announces the tree, or there was agreement and it puts nothing else into a snapshot and asks for no announced tree |
| `LinkTable.TruthfulExactlyIf` | hpimdm/InterfaceHPIM.py:306-323 | over every run what a router told of a tree agrees with its table exactly if after the last contradiction it announced the tree again or came up again |
| `LinkTable.AgreementOverRuns` | hpimdm/InterfaceHPIM.py:306-323 | then, and with nothing pending, every synchronised neighbour agrees with the table |
| `LinkTheorems.PendingCanBeSettled` | hpimdm/Neighbor.py:440-482 | between matched routers one delivery and one ack settle any pending message, whatever CheckpointSN was heard |
| `LockStep.RunInStep` | hpimdm/Neighbor.py:66-222 | over every run nothing was sent beyond the number an end has reached, and something of the other end brought it there |
| `LockStep.DrivenIsLevelOrOneAhead` | hpimdm/Neighbor.py:118-129 | the driven end of a pair is level with the driving end or one ahead |
| `LockStep.OneEndDrives` | hpimdm/Neighbor.py:160-174 | an exchange that got anywhere has exactly one driver |
| `LockStep.SyncedTogether` | hpimdm/Neighbor.py:118-129 | when one end is synchronised the other is at the same number, and synchronised too or waiting as driver |
| `LockStep.DriverFinishesLast` | hpimdm/Neighbor.py:175-204 | when the driver becomes synchronised the other end already is, on the same pair of snapshots |
| `LockStep.NoFurtherThanNeeded` | hpimdm/Neighbor.py:175-204 | no SyncSN exceeds the number of fragments of the larger snapshot, at least one |
| `LockStep.EverySyncCounts` | hpimdm/Neighbor.py:66-204 | every Sync of the exchange changes nothing or strictly decreases what is left to do |
| `LockStep.CanFinish` | hpimdm/Neighbor.py:132-147 | from any state of a matched pair the Sync timers alone, each packet delivered once, bring both ends to Synced |
| `LinkMeet.CanMeet` | hpimdm/Neighbor.py:27-245 | from any reachable state, whatever any two routers of a link hold of each other, some continuation of steps of these two alone makes both ends synchronised on each other's snapshot |
| `LinkBoot.NewerBootStartsOver` | hpimdm/Neighbor.py:411-450 | any accepted packet of a newer BootTime, a Hello too, leaves a record that knows nothing of the neighbour but that BootTime and drives an exchange, and sends exactly one packet, the first Sync, which names it |
| `LinkBoot.OlderBootIsIgnored` | hpimdm/Neighbor.py:415-416 | a packet of an older BootTime changes nothing |
| `LinkBoot.BootIsRemembered` | hpimdm/Neighbor.py:411-422 | over every run, once a packet of some BootTime was accepted the neighbour is known by that one or a newer one until it is lost |
| `LinkInterest.InterestReadBack` | hpimdm/Neighbor.py:543-556 | over every run, between synchronised ends with nothing pending, the sender counts as interested exactly if its last message about the tree was Interest, or IamNoLongerUpstream, or a NoInterest forgotten since it was heard, and as upstream exactly if it was IamUpstream |
| `LinkInterest.SilenceIsInterest` | hpimdm/Neighbor.py:543-556 | who said nothing about a tree since its snapshot counts as interested exactly unless the snapshot has it as upstream |
| `LinkInterest.UnsyncedCountsForNothing` | hpimdm/Neighbor.py:548-550 | whoever is not synchronised is neither interested nor upstream, whatever is stored |
| `KernelEntry.KernelEntryNonOriginator.constructor` | hpimdm/tree/KernelEntry.py:271-308 | a new entry is classified, has the root role exactly at the inbound interface, knows the caches it was given, told its interest, refused whom it wants nothing from, announced what a snapshot would say, and took nothing back |
| `KernelEntry.KernelEntryNonOriginator.CheckInterfaceState` | hpimdm/tree/KernelEntry.py:77-91 | the caches of the link are replaced unless the tree is Inactive; state, roles, elections, announcements and interest are right again, and in an Unsure tree a new best upstream neighbour of a non-root link is refused |
| `KernelEntry.KernelEntryNonOriginator.CheckInterestState` | hpimdm/tree/KernelEntry.py:93-105 | the same when only interest changed |
| `KernelEntry.KernelEntryNonOriginator.NotifyMembership` | hpimdm/tree/tree_interface.py:204-213 | local members are noted, and whoever has to know of the router's interest knows |
| `KernelEntry.KernelEntryNonOriginator.HoldForwardingStateTimeout` | hpimdm/tree/tree_if_non_root.py:204-210 | the former winner stops forwarding, and whoever has to know of the router's interest knows |
| `KernelEntry.KernelEntryNonOriginator.CalculateAssertWinner` | hpimdm/tree/tree_if_non_root.py:68-132 | the assert state is that of the rule, a loser holds its forwarding state, and interest is evaluated on a change |
| `KernelEntry.KernelEntryNonOriginator.TreeTransitionToActive` | hpimdm/tree/tree_if_non_root.py:152-160 | the neighbours of the interface know what a snapshot would tell them, nobody else heard anything |
| `KernelEntry.KernelEntryNonOriginator.TreeTransitionToUnsure` | hpimdm/tree/tree_if_non_root.py:162-176 | the same on the way to Unsure, and the best upstream neighbour of the link was last told NoInterest |
| `KernelEntry.KernelEntryNonOriginator.TreeTransitionToInactive` | hpimdm/tree/tree_if_non_root.py:178-191 | the same on the way to Inactive |
| `KernelEntry.KernelEntryNonOriginator.NotifyRpcChange` | hpimdm/tree/tree_if_non_root.py:321-331 | the same when the route metric changes |
| `KernelEntry.KernelEntryNonOriginator.CheckTreeState` | hpimdm/tree/KernelEntry.py:310-329 | the tree is in the state it classifies to, and every interface was told in turn |
| `KernelEntry.KernelEntryNonOriginator.NetworkUpdate` | hpimdm/tree/KernelEntry.py:354-422 | after a change of route, in whatever state the tree was, everything holds again; the best upstream neighbour is right about the router's interest exactly unless the change is overlooked, and who was to be refused is exactly unless the former root link's best upstream neighbour is not told |
| `KernelEntry.KernelEntryNonOriginator.NewInterface` | hpimdm/tree/KernelEntry.py:441-508 | a new interface, whatever role it takes, leaves everything right, but for the refusal of the former root link's best upstream neighbour in that same case, and exactly then |
| `KernelEntry.KernelEntryNonOriginator.RemoveInterface` | hpimdm/tree/KernelEntry.py:249-268 | an interface that goes takes its caches along and leaves everything right |
| `KernelEntry.KernelEntryNonOriginator.DeleteState` | hpimdm/tree/KernelEntry.py:207-213 | the interfaces go and nobody is told |
| `TreeEntry.ProvisionalIsFinal` | hpimdm/tree/KernelEntry.py:382-413 | the state chosen before the swap is the one found after it, in every live tree; in an Inactive one exactly when it stays so |
| `TreeEntry.StatesMean` | hpimdm/tree/KernelEntry.py:315-329 | a tree is found Active exactly if the best upstream neighbour on the root link has a lower preference, or the same and a lower cost, and otherwise Inactive exactly if nobody is upstream anywhere |
| `TreeEntry.AssertRule` | hpimdm/tree/tree_if_non_root.py:68-116 | who forwards to a link, by preference, cost and address in an Active tree, by the absence of upstream neighbours in an Unsure one, everybody in an Inactive one |
| `TreeEntry.ForwardingGoesOn` | hpimdm/tree/tree_if_non_root.py:193-202 | whatever changes state, metric or best neighbour, an interface that forwards goes on, as winner or by held state |
| `TreeEntry.WantedIsAskedFor` | hpimdm/tree/KernelEntry.py:424-436 | where the router forwards and data is wanted, a best upstream neighbour that knows the truth was last told Interest |
| `TreeEntry.UnwantedIsRefused` | hpimdm/tree/KernelEntry.py:424-436 | and NoInterest where it forwards nothing that anybody wants |
| `Refusal.ToldKeepsRefused` | hpimdm/tree/tree_if_non_root.py:162-172 | an interface that is told of a change leaves whoever was refused refused, becoming Unsure too; a new metric refuses nobody else |
| `Refusal.NewBestIsRefused` | hpimdm/tree/non_root_state_machine.py:65-76 | a non-root interface of an Unsure tree that gets another best upstream neighbour and tells it NoInterest leaves all links refused |
| `Refusal.GreetingRefuses` | hpimdm/tree/tree_if_non_root.py:39-61 | a fresh non-root interface of a tree that becomes Unsure tells its best upstream neighbour NoInterest, of one that was Unsure nothing |
| `Refusal.SwapRefused` | hpimdm/tree/KernelEntry.py:391-417 | an exchange of roles keeps all links refused exactly unless the tree stays Unsure and the former root link's best upstream neighbour was not told NoInterest before |
| `Refusal.UnrefusedExactlyIf` | hpimdm/tree/KernelEntry.py:391-417 | with interest signalled right this happens exactly if the router was in the tree |
| `TreeEntry.GreetingInforms` | hpimdm/tree/tree_if_non_root.py:39-61 | what a fresh non-root interface sends brings its neighbours from what they held to what a snapshot would say |
| `TreeEntry.RootGreetingInforms` | hpimdm/tree/tree_if_root.py:20-40 | a fresh root interface takes back what was announced and tells its best upstream neighbour whether the router is in the tree |
| `TreeEntry.WhatWasTold` | hpimdm/tree/KernelEntry.py:424-436 | after a swap the best upstream neighbour knows the truth exactly unless the first assert that flips brings the router back unawares |
| `TreeExample.TheReturnIsOverlooked` | hpimdm/tree/KernelEntry.py:391-417 | a live entry and a route for which interest signalling fails |
| `TreeExample.TheRevivedIsSilent` | hpimdm/tree/tree_if_root.py:20-40 | an Inactive entry and a route that revives it for which interest signalling fails |
| `TreeExample.TheFormerRootIsNotRefused` | hpimdm/tree/tree_if_non_root.py:39-61 | an Unsure entry and a route after which a neighbour the router wants nothing from was last told Interest |
| `LinkTree.PlayedTable` | hpimdm/InterfaceHPIM.py:735-782 | while an interface stays up, what the trees say on it makes the router of the link model announce just the table that replaying it yields |
| `LinkTree.RunIsSpoken` | hpimdm/Kernel.py:261-289 | over every history of a router, with any number of trees and entries made, removed and made again, every entry is in order and the links heard what the entries said |
| `LinkTree.SnapshotsListTheTable` | hpimdm/Kernel.py:294-304 | over every such history, what the neighbours of a link heard of a tree is what a snapshot of the link says, exactly unless the tree is orphaned there |
| `LinkTree.OrphanedExactlyIf` | hpimdm/Kernel.py:530-548 | a tree is orphaned only by the removal of an entry that announced it when no new one does, and until an entry speaks of it on the link or the interface comes up again |
| `LinkTree.RemovalExactlyIf` | hpimdm/Kernel.py:530-548 | after a removal a snapshot of a link agrees with what its neighbours heard exactly if the tree was not announced there or the new entry announces it |
| `LinkTree.InactiveLeavesNoOrphan` | hpimdm/Kernel.py:530-548 | the removal of an entry that is still Inactive orphans nothing |
| `LinkTree.SnapshotContradicts` | hpimdm/tree/tree_if_non_root.py:263-273 | a router of the link model that takes a snapshot contradicts its table about a tree exactly if the tree is orphaned on the link |
| `LinkTree.AskingExactlyIf` | hpimdm/tree/tree_if_root.py:99-124 | interest is told on a link where the tree is announced exactly if it was orphaned there |
| `Removal.RemoveMulticastRoute` | hpimdm/Kernel.py:530-543 | the entry goes without a word and perhaps comes back as new, and on each link its snapshots agree with what was heard exactly under that condition |
| `Removal.RevivedAndRemoved` | hpimdm/Kernel.py:190-191 | the handlers, one after the other, that leave a tree announced by a router that has forgotten it |
| `Kernel.Kernel.CreateEntry` | hpimdm/Kernel.py:261-289 | the entry of a tree somebody brings is not Inactive and knows what the neighbours of every link say |
| `Kernel.Kernel.RecvUpstreamMsg` | hpimdm/Kernel.py:219-239 | the tables are in order again after somebody's upstream state changed; the entry is right about the link exactly if it was not Inactive or was right, and about every other link as before |
| `Kernel.Kernel.RecvInterestMsg` | hpimdm/Kernel.py:241-256 | the same after somebody's interest changed, given that the best neighbour is known |
| `Kernel.Kernel.ReceiveReliable` | hpimdm/InterfaceHPIM.py:557-565 | the same for storing a delivered message and running the handler it asks for, from any state between two handlers |
| `Kernel.Kernel.RecheckAllTrees` | hpimdm/Kernel.py:306-336 | whatever changed on a link, trees that somebody brings have entries, and each entry is right about the link exactly if it is new, was not Inactive or was right |
| `Kernel.Kernel.SetSynced` | hpimdm/Neighbor.py:351-365 | the same when a neighbour gets synchronised |
| `Kernel.Kernel.RemoveNeighbor` | hpimdm/InterfaceHPIM.py:395-407 | the same when a neighbour is gone |
| `Kernel.Kernel.NetworkUpdate` | hpimdm/Kernel.py:206-214 | an entry of the wrong kind becomes Inactive and its removal starts |
| `Kernel.Kernel.CreateHpimInterface` | hpimdm/Kernel.py:60-86 | a new interface is known to all entries |
| `Kernel.Kernel.RemoveHpimInterface` | hpimdm/Kernel.py:122-145 | an interface that goes is forgotten by all entries |
| `Kernel.Kernel.RemoveMulticastRoute` | hpimdm/Kernel.py:513-548 | the tree keeps an entry exactly if some synchronised neighbour is still upstream, and that entry is live and knows everything |
| `Kernel.EntryWhileBrought` | hpimdm/Kernel.py:219-336 | with everybody synchronised, a tree whose source is not heard and whose entry, if any, has never been Inactive has an entry exactly while some neighbour is upstream |
| `Kernel.RowStandsForEntry` | hpimdm/tree/KernelEntry.py:310-329 | the table's view of an entry is Inactive exactly when the entry classifies itself so |
| `Kernel.StaleWhileBeingRemoved` | hpimdm/tree/KernelEntry.py:82-83 | an entry that lives on while its removal is under way may hold old caches |
| `Kernel.LiveWhenRemoved` | hpimdm/Kernel.py:530-548 | an entry may be live when its removal gets its turn although no neighbour brings the tree any more |
| `Network.NoLoops` | hpimdm/tree/KernelEntry.py:315-329 | following best upstream neighbours from an Active router never comes back to a router |
| `Network.WayGetsNearer` | hpimdm/tree/metric.py:9-19 | along that way the preference decreases, or stays the same and the cost decreases |
| `Network.EveryWayEndsAtAnOriginator` | hpimdm/tree/KernelEntry.py:315-329 | from every Active router such a way leads to an Active originator |
| `Network.NoOriginatorNoTree` | hpimdm/tree/KernelEntry.py:315-329 | without an Active originator no router is Active |
| `Network.ExactlyOneWinner` | hpimdm/tree/tree_if_non_root.py:68-116 | of any number of routers on a link on which somebody advertises the tree exactly one wins the assert, and no other announcement there has a lower preference, nor the same and a lower cost, nor the same metric and a higher address |
| `Network.OnlyTheWinnerForwards` | hpimdm/tree/tree_if_non_root.py:276-303 | once no forwarding state is held, nobody else forwards |
| `RWLock.RunKeepsInv` | hpimdm/rwlock/RWLock.py:93-207 | over every interleaving of any number of threads, timeouts included, locks and counters fit what the threads hold |
| `RWLock.MutualExclusion` | hpimdm/rwlock/RWLock.py:107-207 | while a writer has the lock nobody else does |
| `RWLock.CountersAreExact` | hpimdm/rwlock/RWLock.py:112-198 | each counter is the number of threads counted in and not yet out |
| `RWLock.ReleasesAreLegal` | hpimdm/rwlock/RWLock.py:112-198 | no primitive lock is released that is not locked |
| `RWLock.NoDeadlock` | hpimdm/rwlock/RWLock.py:112-198 | whenever a thread is in the middle of a call some thread can move |
| `RWLock.WritersGoFirst` | hpimdm/rwlock/RWLock.py:165-188 | while a registered writer waits no reader that had not passed ReadTry gets in |
| `Codec.HelloRoundTrip` | hpimdm/packet/PacketHPIMHello.py:97-122 | options come back as they were sent |
| `Codec.UnknownOptionsAreSkipped` | hpimdm/packet/PacketHPIMHelloOptions.py:163-173 | options of unknown kinds, wherever they stand, change nothing about the known ones |
| `Codec.OptionsBytes` | hpimdm/packet/PacketHPIMHello.py:97-105 | the loop that encodes options computes the encoding the round trip is about |
| `Codec.ParseOptions` | hpimdm/packet/PacketHPIMHello.py:111-122 | the loop that decodes options computes the decoding the round trip is about |
| `Codec.EntriesComeBack` | hpimdm/packet/PacketHPIMSync.py:126-163 | any list of trees comes back, whatever follows it |
| `Codec.EntryLayout` | hpimdm/packet/PacketHPIMSync.py:127-152 | source, group, preference and cost of a tree lie in this order, four bytes each, in network order |
| `Codec.SyncLayout` | hpimdm/packet/PacketHPIMSync.py:216-230 | where the numbers, the two flags, a SyncSN that leaves room for them, and each tree of a Sync lie |
| `Codec.OptionLayout` | hpimdm/packet/PacketHPIMHelloOptions.py:137-230 | type, length and value of an option |
| `Codec.HeaderLayout` | hpimdm/packet/PacketHPIMHeader.py:83-129 | BootTime, version and kind, security identifier, length and value, and payload lie in this order |
| `Codec.SyncRoundTrip` | hpimdm/packet/PacketHPIMSync.py:216-267 | a Sync comes back exactly when its number leaves room for the flags and it carries options only without trees to follow |
| `Codec.SyncBytes` | hpimdm/packet/PacketHPIMSync.py:216-230 | the encoder computes the encoding the round trip is about |
| `Codec.ParseSync` | hpimdm/packet/PacketHPIMSync.py:240-267 | the decoder computes the decoding the round trip is about |
| `Codec.MachineSyncsAreLossless` | hpimdm/Neighbor.py:103-129 | what an end of an adjacency sends is of that kind |
| `LinkWire.SyncsSurviveTheWire` | hpimdm/Neighbor.py:66-222 | over every run every Sync ever sent is received as it was sent |
| `Codec.HeaderRoundTrip` | hpimdm/packet/PacketHPIMHeader.py:83-157 | header and payload come back exactly when the security value has the length given for it |
| `Codec.FragmentsFit` | hpimdm/Neighbor.py:533-537 | with the fragment size derived from the MTU every Sync fits one packet |
| `Checksum.Compute` | hpimdm/utils.py:4-14 | the checksum of any even-length packet of up to 65537 words is that of RFC 1071, section 1, in the byte order of the host |
| `Checksum.HostsAgree` | hpimdm/utils.py:4-14 | a little-endian host computes the checksum of RFC 1071, a big-endian one exactly if both bytes of it are equal |
| `Checksum.BigEndianFails` | hpimdm/utils.py:14 | a packet on whose checksum two hosts do not agree |
| `Checksum.FoldIsOnesSum` | hpimdm/utils.py:11-12 | folding the sum of words in host order twice is the one's complement sum (RFC 1071, section 2(B)) |

## Left out

What is taken as given: the clock has passed the old BootTime whenever numbers start over; each handler
runs as one step under its lock (only `RWLock` looks inside); timers are armed or not and may expire
at any time; loss of liveness is the neighbour being lost; HPIM is enabled on a link before its tree
interfaces exist; fragments hold at least one tree.

- LinkTheorems.QuiescentAgreement: for numbers that have not started over since the adjacency's snapshot, because the wrap drops what is in flight (`hpimdm/InterfaceHPIM.py:221-225`).
- LinkTheorems.NothingIsLost: under the same condition.
- KernelEntry.KernelEntryNonOriginator.NetworkUpdate: a change that keeps the inbound interface keeps right what was right; interest that was told wrong before may stay so.
- Removal.RemoveMulticastRoute: an entry made again for a source that is directly connected by then is an originator's and not modelled here.
- Kernel.Kernel.NetworkUpdate: what changes inside the entry is in `KernelEntry`; here the entry is its caches, whether it is Inactive and of which kind it is.
- Kernel.Kernel.RemoveMulticastRoute: the kernel's own forwarding table is not modelled.
- Interface.Neighbor.StartSnapshot: the size of a fragment is an input of the step; its derivation from the MTU is in `Codec.FragmentsFit`.
- Codec.HeaderRoundTrip: the security value is opaque bytes; how it is computed is left out.
- Checksum.Compute: packets of odd length are outside the function's contract (`hpimdm/utils.py:9` fails for them).
- Tree interfaces are values in the entry that owns them, and the caches and databases of `Kernel` are values too; aliasing between them is not modelled.
- A claim of a neighbour carries a number that tells one received object from another, for the comparison by identity in `hpimdm/tree/tree_if_non_root.py:228-240`.
- Whether a router's interface is on the link of the source is fixed per entry; membership is an input of `NotifyMembership`.
- KernelEntryOriginator and its source-active timer: an abstract Active router in `Network`, and a kind of entry that may stay live without neighbours in `Kernel`.
- Source and group of IPv6 and the JSON packets: the same structure with other field widths.
- `RWLockRead` and `RWLockFair`: not used by the modelled code.
- `cancel_all_messages`, `cancel_interest_message`, `cancel_upstream_message` of the interface (`hpimdm/InterfaceHPIM.py:794-816`): nothing calls them.
- IGMP and MLD, sockets, routes in the kernel, unicast routing, configuration, command line, logging and display.
