# Spread 4.0.0: the token ring, recovery and the group exchange, in Dafny

Spread orders messages among daemons with a circulating token and keeps them consistent across
membership changes (Extended Virtual Synchrony). This project models the protocol core of the daemon and
proves its guarantees, over all runs.

`dafny verify dfyconfig.toml` checks everything.

## What is modelled

* **The ring** (`AruRule`, `Burst`, `Packets`, `Daemon`, `DaemonInv`, `Ring`, `RingInv`, `RingSafety`,
  `RingTheorems`, `RingProgress`, `RingService`). N daemons as a state machine: a client's message is put into a down
  queue, a copy of any packet ever made arrives at any daemon (so packets may be lost, doubled, delayed and reordered), the token
  visits the next daemon. `Daemon` follows the handlers of `protocol.c` on a store that maps sequence numbers
  to packets; fatal exits are part of the model.
* **The array** (`Protocol`). The same handlers as a class that works in place on the 8192-entry packet array,
  the up queues and the counters, each proved to do what the function in `Daemon` does;
  `RingTheorems.ArrayFits` shows that the ring always gives them what they require.
* **The token network** (`Arq`, `TokenReturn`). Token copies with the 4-bit round number, resending and swallowing,
  refined to the ring; and how a lost token comes back.
* **Membership** (`Form1`, `FormWalk`, `Evs`, `EvsRuns`, `EvsNumbers`, `Recovery`, `RecoveryDefect`, `EvsLoops`, `EvsArray`,
  `EvsTaken`). The FORM1 entry of an old ring, the walk of the form token while the old ring still runs, FORM2, and
  recovery up to the first state of the next ring: what the two loops hand up (`Evs`), every run of a daemon in EVS
  (`EvsRuns`), from the old ring to the end (`Recovery`), and the same in place on the array (`EvsLoops`, `EvsArray`,
  `EvsTaken`).
* **The barrier** (`EvsBarrier`, `EvsBarrierDefect`, `EvsRing`). All daemons of the next ring in EVS and the one token
  that visits them: nobody goes over before everybody has everything; and what the next ring starts with.
* **The cycle** (`Cycle`). Sorting of the members, the membership built from them, the token addresses and the
  walk of the FORM2 token.
* **Datagrams** (`Packing`). Packets packed into datagrams and taken out again, byte by byte.
* **Groups** (`GroupsBuf`, `GroupsRoundTrip`, `GroupsMerge`, `GroupsGather`, `GroupsExchange`, `GroupsState`). The
  cutting of a group table into GROUPS messages, the gathering of the messages of all synced sets and its end,
  and what all daemons then have.

Environment decisions are parameters: which packets and token copies arrive, how many retransmissions were
sent, how many requests fit on the token, whether a token was sent again. Daemons of a ring are named by their
place on it, groups' daemons by their place in the configuration.

A run of the ring starts when the token reaches the first daemon that entered OP, all others having entered it
since (`RingSafety.Start`): counters are 0, the token has seq 0 and still the aru of the recovery phase.

## What does not hold of the code

* **Aru safety needs a good start.** The token that comes to the first daemon in OP still has the form token's
  sequence number as its aru (`membership.c:2017`) and seq 0, and its aru_last_id was set by nobody if nothing had to be
  recovered. That daemon then takes the branch at `protocol.c:587` and keeps a Set_aru although it misses
  nothing. With three daemons or more this Set_aru can later equal an aru that another daemon lowered, and the
  aru is raised too far. `RingDefect.AruSafeIffGoodStart` says exactly when Aru is safe: at most two daemons, or
  a token with aru 0, or one whose aru the first daemon set itself.
* **16 rounds of delay.** `Arq.TakesIff`, `Arq.StaleTaken` and `Arq.StaleReached`: a token copy that is a positive
  multiple of 16 rounds old is taken, and a round is processed again; such a copy is reached from everywhere.
* **15 retransmissions.** The retransmission number of a token has four bits (`net_types.h:98-99`), and a daemon
  sends its last token again only for a number above that token's (`protocol.c:484`). `TokenReturn.LostTokenIff`: once a
  daemon after the leader that sent the token on has come to 15, a token lost behind it does not come back, however often the
  leader's timeout fires; `TokenReturn.PatientRunsRecover`: it takes 15 timeouts in one round to get there.
* **Commit sets.** The commit set is reset only when a token is lost in OP or GATHER (`membership.c:747`, `:779`),
  and `Memb_commit` (`membership.c:2213`) installs a whole old one. If a set names a daemon that is gone, a hole of
  that daemon can make the others exit: `RecoveryDefect.StaleCommitSetExits` is such a run.
  `Evs.RecoverKeeps` says exactly when: the exit is taken if and only if what survives is not accepted packet by
  packet, which the ring's packets and the entry decide, so that all daemons exit or none
  (`Recovery.RecoverySynchronizes`). It never is when all named daemons came (`Recovery.NoMemberMisses`).
* **The barrier of EVS.** A daemon goes over to the next ring when Aru has come to the form token's number, which is
  to mean that every daemon has everything. The token of EVS keeps seq 0 (`membership.c:2016`, `protocol.c:596`), so
  that an aru of 0 is raised by the next daemon as if it were complete (`protocol.c:581`); and Set_aru is not reset
  when EVS begins, so that a daemon may take an aru that another one set for its own (`protocol.c:579`).
  `EvsRing.BarrierIff` says exactly when the barrier holds over all runs of two daemons or more: nobody's My_aru can
  rest at 0, that is, misses packet 1; and no daemon but the first can rest where the Set_aru of one visited later was
  left, nor the first one together with one visited after that. `EvsBarrierDefect.BadRun` is the run from every other
  start, and `RecoveryDefect.BarrierBroken` one from a good start of the old ring. When the barrier holds,
  `EvsBarrier.NextRingStarts` says what the next ring starts with.
* **Late packets.** A packet of the old ring that the entry does not know may still arrive.
  Between the form tokens it can fill a hole: `EvsRuns.HoleExitIff`. It can let My_aru pass the entry's Highest_seq, which
  `Read_form2` then lowers Highest_seq to, and the daemon does not commit; exactly those daemons cannot get to the next
  ring by what the entry knows: `EvsRuns.CommitsIff`, `Recovery.GetsThroughIff`, and the run of
  `RecoveryDefect.PassedArrival`. In EVS a late packet is handed up by its daemon and by no other,
  `EvsRuns.LatePacketBreaks` and `RecoveryDefect.LateArrival`, or leaves a gap that is a fatal exit,
  `EvsRuns.GapRunExits` and `RecoveryDefect.GapArrival`. `EvsRuns.LateIff`, `EvsRuns.SynchronyIff` and
  `EvsRuns.LateSynchronyIff` say exactly when it does no harm.
* **Old duplicates in EVS.** Aru drops to 0 at the first token visit in EVS, so a packet discarded before is
  stored again when it arrives again, and stays in the array of the next ring: `EvsRuns.OldDuplicateStays`, and
  `EvsRuns.EmptyIff` for when the array is left empty. What is handed up does not change, unless the packet is
  so old that its entry of the array stands for a live number of which there is no packet (`EvsArray.PutNear`,
  `EvsArray.ArrayRunAgrees`). It then takes the place of that one, which is refused from then on. The outcome is
  still right exactly when a hole comes before that entry, the old packet's sender is no member of the commit set, and
  the packet refused takes no part in the order or would be left out as well (`EvsTaken.TakenPlaceIff`,
  `EvsTaken.ArrayOutcomeIff`). Otherwise the old packet is handed up twice, or there is a fatal exit
  (`EvsTaken.RecoverDoubled`), or the packet refused is lost.
* **The limit on local members.** `GroupsBuf.BuildingEndsIff` and `GroupsBuf.LimitTooHigh`: with 3122 members of
  one daemon in a group, which the limit in `groups.h` admits, the building of GROUPS messages does not end.

## Model

| member | source | states |
|---|---|---|
| AruRule.FirstVisit | spread-src-4.0.0/daemon/protocol.c:578-596 | the first token visit in OP establishes the rule's invariant when the token's leftover aru is 0, was set by the visited daemon, or the ring has at most two daemons |
| AruRule.RaiseFacts | spread-src-4.0.0/daemon/protocol.c:579-586 | when a daemon may raise the token's aru, it is the one that set it or the aru was complete, and (with three daemons or more) nobody else still waits with a Set_aru |
| AruRule.VisitKeepsInv | spread-src-4.0.0/daemon/protocol.c:578-637 | one application of the aru rule keeps the invariant over all daemons; the Aru computed is at most what every daemon has and at least every Aru computed before |
| AruRule.ReceiveKeepsInv | spread-src-4.0.0/daemon/protocol.c:390-406 | packets arriving between token visits keep that invariant |
| Burst.TakeBound | spread-src-4.0.0/daemon/protocol.c:871-952 | counting flushes instead of packets: at most 40 packets per datagram counted, and at most one datagram more than allowed |
| Burst.VisitBound | spread-src-4.0.0/daemon/flow_control.c:61-73 | a visit sends at most 640 packets and none when the window allows none |
| Burst.AllowedIs | spread-src-4.0.0/daemon/flow_control.c:61-73 | what a visit may send is the most that keeps the token's count within both windows and its own within PERSONAL_WINDOW, and nothing beyond the gap to Aru |
| Burst.TakeAll | spread-src-4.0.0/daemon/protocol.c:862-953 | a visit that leaves packets waiting has counted all it was allowed |
| Packets.ChainOfOrd | spread-src-4.0.0/daemon/protocol.c:955-1000 | overtaking packets leave the up queue of their sender as it is |
| Packets.RebuiltOfOrd | spread-src-4.0.0/daemon/protocol.c:955-1029 | the messages rebuilt from the ordered packets are the messages rebuilt from all packets, overtaking ones left out |
| DaemonInv.DeliverAccepted | spread-src-4.0.0/daemon/protocol.c:986-993 | the sequence-error exit is not taken on the packet whose turn it is, nor on an overtaking one |
| DaemonInv.DeliverAgreedKeeps | spread-src-4.0.0/daemon/protocol.c:1056-1084 | Deliver_agreed_packets keeps the daemon's invariant and takes no exit |
| DaemonInv.DeliverSinglesKeeps | spread-src-4.0.0/daemon/protocol.c:1031-1054 | Deliver_reliable_packets keeps the daemon's invariant |
| DaemonInv.DiscardKeeps | spread-src-4.0.0/daemon/protocol.c:1086-1259 | Discard_packets outside EVS finds every packet up to Aru, hands up what was not handed up and drops it |
| DaemonInv.ReceiveKeeps | spread-src-4.0.0/daemon/protocol.c:360-410 | an arriving packet, old, doubled or new, keeps the daemon's invariant; My_aru stops at the first packet missing |
| DaemonInv.TakePart | spread-src-4.0.0/daemon/protocol.c:878-910 | the indices 1 .. n-1, -n given to the parts of a message make the up queue rebuild exactly that message |
| DaemonInv.SendManyKeeps | spread-src-4.0.0/daemon/protocol.c:862-953 | Send_new_packets numbers the parts on from the highest number of the ring, never finds an entry taken, and loses nothing of the down queue |
| DaemonInv.MissingIs | spread-src-4.0.0/daemon/protocol.c:542-563 | the requests are for exactly the numbers missing among those looked at |
| RingInv.VisitKeeps | spread-src-4.0.0/daemon/protocol.c:512-651 | a whole token visit keeps the visited daemon's invariant, and the token carries the ring's highest number |
| RingInv.VisitLoad | spread-src-4.0.0/daemon/protocol.c:520-531 | flow_control after a visit: the daemon's last counts are replaced by its new ones |
| RingInv.StepKeepsInv | spread-src-4.0.0/daemon/protocol.c:360-651 | every step of the ring (a message posted, any packet arriving again or never, the token visiting) keeps the ring's invariant |
| RingSafety.FirstRuleOk | spread-src-4.0.0/daemon/protocol.c:578-637 | at the first visit in OP the Aru computed is 0, and everything sent is had |
| RingSafety.RunKeeps | spread-src-4.0.0/daemon/protocol.c:360-651 | the invariant holds over every run from a good start |
| RingTheorems.AruSafety | spread-src-4.0.0/daemon/protocol.c:633-637 | in every reachable state no Aru exceeds any daemon's My_aru, everything up to an Aru is or was at every daemon, requests are above every Aru, and no fatal exit was taken |
| RingTheorems.Monotone | spread-src-4.0.0/daemon/protocol.c:578-651 | no Aru ever falls; what was handed up or made stays so |
| RingTheorems.SafeDelivery | spread-src-4.0.0/daemon/protocol.c:1056-1084 | a SAFE packet is handed up only when every daemon has it |
| RingTheorems.ExactlyOnce | spread-src-4.0.0/daemon/protocol.c:1031-1259 | over the three delivery paths no number is handed up twice at a daemon, all up to Aru are, and only packets of the ring |
| RingTheorems.TotalOrder | spread-src-4.0.0/daemon/protocol.c:1056-1084 | the ordered packets two daemons handed up are prefixes of one sequence |
| RingTheorems.NoAliasing | spread-src-4.0.0/daemon/protocol.c:364-409 | no two live packets fall on one entry of the 8192-entry array |
| RingTheorems.ArrayFits | spread-src-4.0.0/daemon/protocol.c:364-409 | in every reachable state what the in-place handlers require of the array holds |
| RingTheorems.FlowControlConserved | spread-src-4.0.0/daemon/protocol.c:520-531 | the token's flow_control is the number of datagrams of everybody's last visit |
| RingTheorems.MessagesInOrder | spread-src-4.0.0/daemon/protocol.c:878-1029 | the messages a daemon pushes up for a sender, overtaking ones aside, are a first part of those posted there, unchanged and in order |
| RingTheorems.NothingInvented | spread-src-4.0.0/daemon/protocol.c:955-1029 | every message pushed up was posted by its sender |
| RingService.RequestsIff | spread-src-4.0.0/daemon/protocol.c:542-563 | in every reachable state a token visit leaves requests on the token for exactly the packets its daemon still misses up to Highest_seq, as far as the room goes |
| RingService.RequestsAnswered | spread-src-4.0.0/daemon/protocol.c:786-806 | whoever made a requested packet still has it |
| RingService.AnswersExact | spread-src-4.0.0/daemon/protocol.c:778-806 | wherever the token is, the daemon there can look up every request in its array, and answers with exactly the packets requested that it has |
| RingService.ReceiveGets | spread-src-4.0.0/daemon/protocol.c:364-396 | a packet of the ring that arrives is there afterwards, unless it was discarded |
| RingService.OvertakesAtOnce | spread-src-4.0.0/daemon/protocol.c:402-406 | an overtaking packet that arrives out of order goes up at once, alone, and is marked; any other packet out of order waits |
| RingService.OvertakingIsPrompt | spread-src-4.0.0/daemon/protocol.c:1031-1054 | in every reachable state every overtaking packet of another sender that a daemon holds above its My_aru is handed up |
| RingService.OwnOvertake | spread-src-4.0.0/daemon/protocol.c:649 | after a visit the overtaking packets among the last made, as many as the visit counted, are up at their maker |
| RingService.WindowsKept | spread-src-4.0.0/daemon/flow_control.c:61-73 | in every reachable state a visit sends only within the windows and the gap, by at most one datagram over them, and stops while messages wait only when a window is used up |
| RingProgress.Progress | spread-src-4.0.0/daemon/protocol.c:578-651 | when everybody has every packet and nothing waits, three rounds of the token make every daemon hand up and drop every packet, SAFE ones too |
| RingProgress.DeliveryIsPrompt | spread-src-4.0.0/daemon/protocol.c:1056-1084 | packets received without a gap are handed up to the first SAFE packet that is not stable |
| RingDefect.FirstVisitSets | spread-src-4.0.0/daemon/protocol.c:587-591 | the first visit in OP with a leftover aru leaves a Set_aru behind although nothing is missing |
| RingDefect.CirclingStep | spread-src-4.0.0/daemon/protocol.c:578-596 | while the token comes round, a catch-up visit keeps the lowered aru and the Set_aru left behind |
| RingDefect.BadRun | spread-src-4.0.0/daemon/protocol.c:578-637 | from every start that is not good some run makes one daemon's Aru exceed another one's My_aru |
| RingDefect.AruSafeIffGoodStart | spread-src-4.0.0/daemon/protocol.c:578-637 | Aru is safe over every run from a start exactly when the start is good |
| Protocol.StorePut | spread-src-4.0.0/daemon/protocol.c:394-396 | writing one entry of the circular array is one map update, as long as the live numbers span at most 8192 |
| Protocol.StoreShift | spread-src-4.0.0/daemon/protocol.c:1257-1258 | moving Last_discarded over freed entries changes nothing |
| Protocol.ChainedAppend | spread-src-4.0.0/daemon/protocol.c:986-1028 | the up queue array and the messages pushed stay those of the packets handed up |
| Protocol.Engine.constructor | spread-src-4.0.0/daemon/protocol.c:105-128 | everything empty |
| Protocol.Engine.ChainPacket | spread-src-4.0.0/daemon/protocol.c:976-1028 | the up-queue part of Deliver_packet: exit exactly when the packet is not its sender's next |
| Protocol.Engine.DeliverPacket | spread-src-4.0.0/daemon/protocol.c:955-1029 | hands up an entry of the array in place |
| Protocol.Engine.DeliverAgreedPackets | spread-src-4.0.0/daemon/protocol.c:1056-1084 | does in place what DeliverAgreed says |
| Protocol.Engine.DeliverReliablePackets | spread-src-4.0.0/daemon/protocol.c:1031-1054 | does in place what DeliverReliable says |
| Protocol.Engine.DiscardPackets | spread-src-4.0.0/daemon/protocol.c:1240-1259 | does in place what Discard says |
| Protocol.Engine.HandlePacket | spread-src-4.0.0/daemon/protocol.c:360-410 | does in place what Receive says, overtaking packets included; a packet of an unknown daemon is dropped |
| Protocol.Engine.NewMessage | spread-src-4.0.0/daemon/protocol.c:720-738 | puts the message at the end of the down queue |
| Protocol.Engine.SendPart | spread-src-4.0.0/daemon/protocol.c:871-946 | one round of the loop of Send_new_packets |
| Protocol.Engine.SendNewPackets | spread-src-4.0.0/daemon/protocol.c:862-953 | sends the packets and counts the datagrams that BurstOf says |
| Protocol.Engine.AnswerRetrans | spread-src-4.0.0/daemon/protocol.c:778-806 | exits exactly on a request below Aru; else answers with the packets requested that are in the array, in the order of the requests |
| Protocol.Engine.Requests | spread-src-4.0.0/daemon/protocol.c:542-563 | the requests put on the token |
| Protocol.Engine.UpdateAru | spread-src-4.0.0/daemon/protocol.c:578-637 | the aru rule and Aru on the fields of the daemon |
| Protocol.Engine.HandleToken | spread-src-4.0.0/daemon/protocol.c:512-651 | Prot_handle_token outside EVS, on a token that was not swallowed, does in place what Visit says, its requests and its fatal exits included, and answers the requests on it |
| Arq.TakesIff | spread-src-4.0.0/daemon/protocol.c:471-503 | a daemon takes a token copy exactly when it is the one it waits for, which only the next daemon can get, or is a positive multiple of 16 rounds old |
| Arq.TakenInOrder | spread-src-4.0.0/daemon/protocol.c:471-604 | any copy taken that is not that old takes its daemon to the next round |
| Arq.StaleTaken | spread-src-4.0.0/daemon/protocol.c:471-511 | a copy that old makes a daemon process a round again |
| Arq.StaleReached | spread-src-4.0.0/daemon/protocol.c:471-511 | from every state with the token on its way some run makes the copy delivered now that old, and it is taken once more |
| Arq.VisitHurried | spread-src-4.0.0/daemon/protocol.c:1294-1331 | a token sent again without its requests is handled like the first one, but for the requests |
| Arq.RunRefines | spread-src-4.0.0/daemon/protocol.c:471-604 | under loss, doubling, resending, reordering and delay, a run without such old copies is a run of the ring |
| Arq.PunctualRunsAreSafe | spread-src-4.0.0/daemon/protocol.c:471-604 | so all guarantees of the ring hold of it |
| TokenReturn.HurryStep | spread-src-4.0.0/daemon/protocol.c:1294-1331 | the leader's timeout puts its last token on the net once more, with the next retransmission number and without the requests |
| TokenReturn.AskedOnce | spread-src-4.0.0/daemon/protocol.c:481-492 | a daemon that took the round and gets a copy with a higher number sends its own last token on, with that number |
| TokenReturn.DuplicateIgnored | spread-src-4.0.0/daemon/protocol.c:471-503 | a copy that arrives again is neither taken nor sent on twice |
| TokenReturn.ReturnsAfter | spread-src-4.0.0/daemon/protocol.c:481-492 | all copies lost: once the leader's number exceeds those on the way, its timeout brings the token to the daemon that waits for it, which visits as the ring says; only the requests are lost |
| TokenReturn.LostTokenIff | spread-src-4.0.0/daemon/protocol.c:484-487 | a lost token can come back exactly when no daemon after the leader that sent it on has come to retransmission number 15; else no run whatever makes a daemon take a token again |
| TokenReturn.PatientRunsRecover | spread-src-4.0.0/daemon/protocol.c:603 | each round starts at number 0 again: in every run without stale copies in which the timeout fires at most 14 times before the token comes back, a token lost at any time comes back |
| Form1.FirstExact | spread-src-4.0.0/daemon/membership.c:1345-1397 | the entry made by the first daemon of a ring is exact |
| Form1.MergeExact | spread-src-4.0.0/daemon/membership.c:1715-1786 | merging keeps the entry exact, with every member of the commit set once, and does not take the exit on a wrong transitional set |
| Form1.FindHoles | spread-src-4.0.0/daemon/membership.c:1362-1376 | the loop over the packet array that collects holes |
| Form1.KeepHoles | spread-src-4.0.0/daemon/membership.c:1717-1733 | the loop that keeps the holes of the entry that are holes here too |
| Form1.InsertMembers | spread-src-4.0.0/daemon/membership.c:1063-1082 | Insert_member, member by member |
| Form1.CreateForm1 | spread-src-4.0.0/daemon/membership.c:1291-1397 | Create_form1 on the packet array makes the entry Create says, and gives the token its number |
| Form1.FillForm1 | spread-src-4.0.0/daemon/membership.c:1492-1786 | Fill_form1 on the packet array makes the ring's entry that Open or Merge says, or takes the exit, and raises the token's number |
| FormWalk.HoleMergingIsExact | spread-src-4.0.0/daemon/membership.c:1345-1786 | after any walk of the form token over a ring that still runs, the entry holds the greatest Aru and Highest_seq, exactly the numbers that no visited daemon had, in order, the visited daemons, each once, and all members brought, each once (with one daemon visited: if its own set has each once) |
| FormWalk.HolesFit | spread-src-4.0.0/daemon/membership.c:1719-1720 | every hole recorded lies in the window of the next visited daemon's array: a discarded packet is never taken for a hole |
| Evs.HandUpBeforeKeeps | spread-src-4.0.0/daemon/protocol.c:1104-1131 | the loop before the signal ends just before the first hole or SAFE packet, with everything ordered before it handed up |
| Evs.HandUpAfterKeeps | spread-src-4.0.0/daemon/protocol.c:1139-1176 | the loop after the signal hands up what survives; it takes the sequence-error exit exactly when the up queues do not accept what survives |
| Evs.RecoverKeeps | spread-src-4.0.0/daemon/protocol.c:1095-1176 | the two loops together: the fatal exit is taken exactly when what survives is not accepted packet by packet (Sound), a condition on the ring's packets and the entry alone; otherwise the right packets are handed up, and only entries outside the range stay |
| EvsNumbers.EverythingUp | spread-src-4.0.0/daemon/protocol.c:1095-1176 | overtaking packets included: what a daemon that has everything hands up before the signal is exactly what lies before the first hole or SAFE packet, and in all exactly what survives |
| EvsNumbers.SurvivorsUp | spread-src-4.0.0/daemon/protocol.c:1090-1238 | that for every run from the FORM2 token on, compared with what was up when the token came |
| Evs.ForeignSound | spread-src-4.0.0/daemon/protocol.c:1152-1153 | when no member of the commit set misses a packet, what survives is accepted |
| Evs.MissingPartExits | spread-src-4.0.0/daemon/protocol.c:1139-1176 | if a member of the commit set misses one packet of a message of several, and has a later ordered packet there, every daemon takes the exit |
| EvsRuns.HoleExitIff | spread-src-4.0.0/daemon/membership.c:1945-1970 | Read_form2 takes its exit exactly when a packet recorded as a hole arrived since the FORM1 visit |
| EvsRuns.ReadForm2Keeps | spread-src-4.0.0/daemon/membership.c:1945-1970 | otherwise it starts EVS with the holes in place, whatever else arrived since |
| EvsRuns.InsertKeeps | spread-src-4.0.0/daemon/protocol.c:360-410 | any packet of the ring arriving in EVS, old, late or twice, keeps the invariant of EVS; it is there afterwards, and My_aru moves over it to the first one missing |
| EvsRuns.CommitKeeps | spread-src-4.0.0/daemon/protocol.c:566-573 | a token visit in EVS commits exactly when nothing is missing up to Highest_seq and My_aru has not passed it; Aru reaches the form token's number only then |
| EvsRuns.LateIff | spread-src-4.0.0/daemon/protocol.c:1095-1176 | with packets above the entry's Highest_seq in the array, the outcome is the right one exactly when there is no gap below the daemon's Highest_seq and the late packets overtake or are left out |
| EvsRuns.RecoveryKeeps | spread-src-4.0.0/daemon/protocol.c:1090-1238 | that condition for every run from the FORM2 token on: whatever packets and tokens arrive, in whatever order |
| EvsRuns.VirtualSynchrony | spread-src-4.0.0/daemon/protocol.c:1095-1176 | two daemons with the same entry hand up the same ordered packets before the transitional signal and the same after it, each at most once, or both take the exit |
| EvsRuns.SynchronyIff | spread-src-4.0.0/daemon/protocol.c:1095-1176 | a daemon agrees with a peer for which what came late makes no difference exactly when what came late to it makes none either |
| EvsRuns.LateSynchronyIff | spread-src-4.0.0/daemon/protocol.c:1095-1176 | two daemons that both got late packets, the one with the lower Highest_seq without a gap, agree exactly when the other has no gap and its packets above that Highest_seq make no difference |
| EvsRuns.LatePacketBreaks | spread-src-4.0.0/daemon/protocol.c:360-410 | a late packet that makes a difference does break the outcome: the run that shows it, and the same run without it |
| EvsRuns.GapRunExits | spread-src-4.0.0/daemon/protocol.c:1144-1145 | a late packet above a gap, between the two tokens, ends with the exit on a packet that does not exist |
| EvsRuns.CommitsIff | spread-src-4.0.0/daemon/protocol.c:566-573 | a daemon can get to the next ring by the packets the entry knows exactly when its My_aru did not pass the entry's Highest_seq between the form tokens |
| EvsRuns.PassedNeverCommits | spread-src-4.0.0/daemon/protocol.c:566-573 | a daemon whose My_aru did pass never commits, in any run to which nothing late comes |
| EvsRuns.EntersClean | spread-src-4.0.0/daemon/protocol.c:1221-1232 | when nothing late and nothing old arrived, the daemon enters the next ring as the ring model starts |
| EvsRuns.EmptyIff | spread-src-4.0.0/daemon/protocol.c:1104-1176 | recovery leaves the array empty exactly when nothing lay outside the range it ran over |
| EvsRuns.OldDuplicateStays | spread-src-4.0.0/daemon/protocol.c:633-637 | the first visit in EVS sets Aru to 0, so a discarded packet that arrives again is stored again and, whatever follows, is still there in the next ring |
| Recovery.VisitHas | spread-src-4.0.0/daemon/protocol.c:936-951 | a daemon keeps, until it discards them, the packets it has, and has those it makes |
| Recovery.FormNumber | spread-src-4.0.0/daemon/membership.c:1492 | the form token's number is above every packet of the old ring |
| Recovery.NoMemberMisses | spread-src-4.0.0/daemon/membership.c:1345-1786 | when every daemon named in a commit set that was brought has come itself, no packet of a member is a hole, and what survives is accepted |
| Recovery.Form2Holds | spread-src-4.0.0/daemon/membership.c:1945-1970 | at every visited daemon Read_form2 exits exactly when a hole was filled, and else what recovery relies on holds |
| Recovery.RecoverySynchronizes | spread-src-4.0.0/daemon/protocol.c:1095-1176 | for every run of the old ring, every walk of the form token, whatever the commit sets, and every recovery with no hole filled, late and old packets included: two daemons for which what came late makes no difference (nothing late is a case of it) hand up the same or both exit; they exit exactly when what survives is not accepted, and never when all named daemons came; if what came late makes none to one, they agree exactly when it makes none to the other |
| Recovery.GetsThroughIff | spread-src-4.0.0/daemon/protocol.c:566-573 | a daemon the form token visited can get to the next ring by the packets the entry knows exactly when its My_aru did not pass the entry's Highest_seq between the form tokens |
| RecoveryDefect.StaleCommitSetExits | spread-src-4.0.0/daemon/membership.c:2213-2216 | a run from a good start with a commit set that names a daemon which is gone: recovery takes the fatal exit |
| RecoveryDefect.LateArrival | spread-src-4.0.0/daemon/protocol.c:360-410 | a run from a good start in which one packet arrives late in EVS: the outcome is not that of a daemon without it |
| RecoveryDefect.GapArrival | spread-src-4.0.0/daemon/protocol.c:1144-1145 | a run from a good start in which a packet arrives late in EVS above one that is missing: the exit on a packet that does not exist |
| RecoveryDefect.PassedArrival | spread-src-4.0.0/daemon/membership.c:1945-1970 | a run from a good start in which one packet between the form tokens lifts My_aru above the entry's Highest_seq: the daemon stays in EVS whatever follows of what the entry knows |
| RecoveryDefect.BarrierBroken | spread-src-4.0.0/daemon/protocol.c:578-637 | a run from a good start and a form token's walk over both daemons after which one can go over to the next ring while the other has not committed |
| EvsBarrier.VisitKeeps | spread-src-4.0.0/daemon/protocol.c:566-637 | one token visit in EVS keeps the invariant of the barrier, leftover values of Set_aru included |
| EvsBarrier.VisitDone | spread-src-4.0.0/daemon/protocol.c:633-637 | when a daemon goes over, everybody has committed and let the token go with the form token's number; it set the aru itself if anybody had taken it down |
| EvsBarrier.GoodIsSafe | spread-src-4.0.0/daemon/protocol.c:578-637 | from a good start of EVS nobody goes over to the next ring before everybody has committed, over all runs |
| EvsBarrier.AllGoOver | spread-src-4.0.0/daemon/protocol.c:578-637 | once one daemon has gone over, each other one does at its next token visit |
| EvsBarrier.NextRingStarts | spread-src-4.0.0/daemon/protocol.c:578-637 | what EVS leaves on the token: the aru rule of the next ring starts well exactly with two daemons, or when some daemon missed a packet when the token came to it, or when the aru_last_id left on the token is the first daemon's |
| EvsBarrierDefect.BadRun | spread-src-4.0.0/daemon/protocol.c:578-637 | from every start of EVS that is not good some run lets one daemon go over while another has not committed |
| EvsBarrierDefect.BarrierIffGood | spread-src-4.0.0/daemon/protocol.c:578-637 | the barrier holds over all runs exactly from good starts |
| EvsRing.FromForm2 | spread-src-4.0.0/daemon/membership.c:1945-1970 | a daemon after Read_form2 whose My_aru did not pass is as the barrier's start wants it |
| EvsRing.RunRefines | spread-src-4.0.0/daemon/protocol.c:360-637 | every run of daemons in EVS, whatever arrives of what the entries know, is a run of the barrier |
| EvsRing.RunReal | spread-src-4.0.0/daemon/protocol.c:360-637 | every run of the barrier is one of the daemons: the packets they miss arrive as it says |
| EvsRing.BarrierIff | spread-src-4.0.0/daemon/protocol.c:566-637 | for the daemons themselves: over all runs nobody goes over before everybody has committed, exactly when nobody can rest at 0 nor at a Set_aru left at another |
| EvsRing.AllFollow | spread-src-4.0.0/daemon/protocol.c:566-637 | then every daemon has every packet up to its entry's Highest_seq, or a hole, and goes over at its next token visit, which leaves aru and aru_last_id as they are |
| EvsLoops.ReadForm2 | spread-src-4.0.0/daemon/membership.c:1945-1970 | Read_form2 in place on the packet array |
| EvsLoops.HandlePacket | spread-src-4.0.0/daemon/protocol.c:360-410 | a packet arriving in EVS, in place: it goes to its entry, whatever number that entry stands for by now |
| EvsLoops.CommitToken | spread-src-4.0.0/daemon/protocol.c:566-637 | the token visit in EVS from the commit on, in place; the token it lets go, whose seq stays |
| EvsLoops.RecoverBefore | spread-src-4.0.0/daemon/protocol.c:1104-1131 | the loop before the signal, in place |
| EvsLoops.RecoverAfter | spread-src-4.0.0/daemon/protocol.c:1139-1176 | the loop after the signal, in place |
| EvsLoops.Recover | spread-src-4.0.0/daemon/protocol.c:1090-1238 | the whole recovery in place, up to the variables for the next ring; what is left in the array has numbers of the next ring |
| EvsArray.Form2Fits | spread-src-4.0.0/daemon/membership.c:1945-1970 | at every visited daemon Read_form2 on the array gets what it requires |
| EvsArray.EvsFits | spread-src-4.0.0/daemon/protocol.c:364-409 | every state of EVS gives the handlers on the array what they require, whatever arrives |
| EvsArray.PutNear | spread-src-4.0.0/daemon/protocol.c:364-380 | one packet arriving: array and map stay alike exactly when it does not take the place of a missing one, that is, unless it was discarded, is above Aru, and its entry stands for a live number of which there is no packet |
| EvsArray.ArrayRunAgrees | spread-src-4.0.0/daemon/protocol.c:364-409 | as long as no arriving packet takes another one's place, every recovery on the array, late packets included, hands up what the one on the map does |
| EvsArray.RecentNeverTaken | spread-src-4.0.0/daemon/protocol.c:364-380 | when all that arrive are less than 8192 numbers, less what is live, below Aru, none takes another one's place |
| EvsArray.SeatAbove | spread-src-4.0.0/daemon/protocol.c:372-378 | the entry of such a packet lies above what is live |
| EvsArray.DuplicateTakesPlace | spread-src-4.0.0/daemon/protocol.c:364-380 | an older one can take the place of a missing packet, which is then refused |
| EvsTaken.RecoverDoubled | spread-src-4.0.0/daemon/protocol.c:1104-1176 | a packet handed up before that lies in another one's place is handed up again, or the exit is taken, if its sender is a member or no hole comes before it |
| EvsTaken.RecoverShadow | spread-src-4.0.0/daemon/protocol.c:1104-1176 | otherwise recovery is what it is with holes in those places |
| EvsTaken.OutcomeIff | spread-src-4.0.0/daemon/protocol.c:1095-1176 | on the array, whatever took whose place and whatever came late: the outcome is the right one exactly when nothing is missing and every entry is right, which the array and the entry say |
| EvsTaken.ArrayOutcomeIff | spread-src-4.0.0/daemon/protocol.c:360-1238 | that condition for every recovery on the array at every daemon the form token visited, for any packets and tokens arriving in any order |
| EvsTaken.TakenPlaceIff | spread-src-4.0.0/daemon/protocol.c:364-1176 | the run in which an old packet takes the missing one's place: right exactly when a hole comes before, the old sender is no member, and the missing packet takes no part in the order or is left out too; on the map it always ends rightly |
| GroupsBuf.FillGroupsIs | spread-src-4.0.0/daemon/groups.c:1837-1994 | one buffer holds the next entries of the table, none lost or doubled, and leaves room for the message header |
| GroupsBuf.FillFull | spread-src-4.0.0/daemon/groups.c:1901-1994 | a buffer ends before the table does only when the next daemon or the next group does not fit |
| GroupsBuf.BuildGroupsBuf | spread-src-4.0.0/daemon/groups.c:1901-1994 | the two iterators of G_build_groups_buf and where a buffer ends |
| GroupsBuf.BuildNewGroupsBufs | spread-src-4.0.0/daemon/groups.c:1997-2010 | all buffers together hold every (group, daemon) entry once, in the table's order |
| GroupsBuf.BuildingEndsIff | spread-src-4.0.0/daemon/groups.c:1997-2010 | building ends exactly when no daemon has more than 3121 members in a group |
| GroupsBuf.LimitTooHigh | spread-src-4.0.0/daemon/groups.h:52-55 | MAX_LOCAL_GROUP_MEMBERS is one too high: a daemon at that limit keeps the building from ending |
| GroupsRoundTrip.ReadBack | spread-src-4.0.0/daemon/groups.c:2128-2242 | the buffers made of a table, read into an empty one, give it back: groups, ids, marks, daemons, members and counts |
| GroupsMerge.AddRecKeeps | spread-src-4.0.0/daemon/groups.c:2128-2242 | one record read into the table |
| GroupsMerge.SortedUnique | spread-src-4.0.0/daemon/groups.c:2547-2579 | sorted lists of the same daemons are the same list, by which the merged synced set is unique |
| GroupsMerge.NotifiedIs | spread-src-4.0.0/daemon/groups.c:1514-1532 | a group after the exchange: no mark, the id (Reg_memb_id, 1) if it changed and else the id its sets had, the daemons that the sets have with the members they have, each daemon with the group's membership id |
| GroupsGather.CountTells | spread-src-4.0.0/daemon/groups.c:1408-1422 | the daemons represented by AGREED messages are never more than all sets have, and as many exactly when every AGREED message is in |
| GroupsGather.CountIffAllIn | spread-src-4.0.0/daemon/groups.c:1408-1433 | when the synced sets partition the membership, Num_daemons_gathered equals its size exactly when every message of every set is in |
| GroupsGather.GatherKeeps | spread-src-4.0.0/daemon/groups.c:1380-1426 | one GROUPS message: the links hold what came of every other set, the counts and the members brought add up, and a set is complete exactly when its AGREED message came |
| GroupsExchange.Gathering | spread-src-4.0.0/daemon/groups.c:1318-1433 | for every interleaving of the sets' messages the daemon takes no exit and does not compute its groups before the last one |
| GroupsExchange.ExchangeEnds | spread-src-4.0.0/daemon/groups.c:1430-1463 | it computes them with the last one: then the synced set is the membership, the records read are those of the other sets, and nothing is left for the next exchange |
| GroupsExchange.SyncedIsMembership | spread-src-4.0.0/daemon/groups.c:2547-2579 | the synced sets merged one after the other are the membership, in the configuration's order, and no two meet |
| GroupsExchange.ExchangeConverges | spread-src-4.0.0/daemon/groups.c:1318-1536 | after the exchange any two daemons have the same table and synced set, the membership, whatever order their messages came in; and that table is, in terms of the sets' tables: their groups, with their daemons and members, the ids of changed groups new and of others as they were, no marks, and num the number of all members |
| GroupsExchange.CountedIs | spread-src-4.0.0/daemon/groups.c:2210-2235 | num of a group is the sum over its daemons of their members, if the sets' tables name each daemon of the set at most once in a group |
| GroupsExchange.OverOnce | spread-src-4.0.0/daemon/groups.c:1330-1336 | one more GROUPS message after the last one is the fatal exit in GOP |
| GroupsState.Groups.MessToGroups | spread-src-4.0.0/daemon/groups.c:2104-2242 | G_mess_to_groups on a message: its synced set, if it is a first message, and its records |
| GroupsState.Groups.NotifyChanged | spread-src-4.0.0/daemon/groups.c:1500-1533 | the loop of G_compute_and_notify over the groups does in place what Notify says (NotifiedIs for what that is): ids of changed groups and of their established daemons, members kept |
| GroupsState.Groups.AddToSyncedSet | spread-src-4.0.0/daemon/groups.c:2547-2579 | merges two sorted sets into one; exits exactly when they meet |
| GroupsState.Groups.ComputeAndNotify | spread-src-4.0.0/daemon/groups.c:1466-1536 | G_compute_and_notify in place, as Computed says (ExchangeConverges for what that is) |
| GroupsState.Groups.HandleGroups | spread-src-4.0.0/daemon/groups.c:1318-1463 | G_handle_groups in place |
| Packing.PackedAppend | spread-src-4.0.0/daemon/network.c:296-350 | queueing a packet is packing it after those before |
| Packing.TakeCuts | spread-src-4.0.0/daemon/protocol.c:871-952 | the packets taken at a visit, cut into datagrams as they go out: each fits, and with the next packet it would not; the datagrams counted are as many |
| Packing.BcastQueue.Enqueue | spread-src-4.0.0/daemon/network.c:280-352 | the packet joins the queue, which is flushed first exactly when the packet does not fit after it; no packet is lost, doubled or reordered, and the counting of Burst is that of the bytes |
| Packing.BcastQueue.Flush | spread-src-4.0.0/daemon/network.c:354-385 | the datagram sent is the packets queued, at most 1472 bytes |
| Packing.CheckLengths | spread-src-4.0.0/daemon/network.c:584-633 | the walk of Net_recv ends exactly at the length received; it finds the headers of the packets queued, in order, none overlapping, each on a multiple of four |
| Packing.Unpack | spread-src-4.0.0/daemon/protocol.c:310-358 | the walk of Prot_handle_bcast yields the packets queued, in order |
| Cycle.SmallestMember | spread-src-4.0.0/daemon/membership.c:1169-1197 | a least member by segment and place |
| Cycle.SortMembers | spread-src-4.0.0/daemon/membership.c:1239-1255 | Sort_members sorts its array in place |
| Cycle.BuildMembership | spread-src-4.0.0/daemon/membership.c:1917-1926 | the membership built from the list has the list's members, in order |
| Cycle.SetMembership | spread-src-4.0.0/daemon/network.c:165-246 | the token is sent to the next member, or from the last to the first |
| Cycle.OneCycle | spread-src-4.0.0/daemon/network.c:217-246 | the token address of each member of the sorted list is the next member, that of the last the first |
| Cycle.MembershipUnique | spread-src-4.0.0/daemon/membership.c:1917-1926 | a membership is determined by who is in it, so all daemons that take the token build the same |
| Cycle.ReadForm2 | spread-src-4.0.0/daemon/membership.c:1887-1927 | Read_form2 with the address that the membership gives: the token goes on as Hop says, and the membership has exactly the members of the list, in order |
| Cycle.Form2Walk | spread-src-4.0.0/daemon/membership.c:1887-2024 | sent to the first member, the token passes every member, each in its turn and with the check passed, and nobody else; the last one sends the regular token, to the first |
| Cycle.ConfLeader | spread-src-4.0.0/daemon/configuration.c:644-655 | the first member |
| Cycle.ConfLast | spread-src-4.0.0/daemon/configuration.c:657-671 | the last member |
| Cycle.Ends | spread-src-4.0.0/daemon/membership.c:2005-2023 | Conf_leader and Conf_last are the ends of the sorted list |

## Left out

- Protocol.Engine.HandleToken: outside EVS only; which copies are swallowed is in Arq; sending packets and tokens is taken to succeed, and token holding is a matter of when the token visits.
- Protocol.Engine.AnswerRetrans: where retransmissions are sent (one daemon, a segment, all) is not modelled, and the number counted is a free choice of the environment, since sending may fail; requests of foreign rings only take room; what it says of the answers is for requests that the array can hold, as those of every reachable state are (RingService.AnswersExact).
- EvsLoops.CommitToken: requests on the token in EVS are not modelled, nor the exit on a request below Aru in EVS, nor the limit on token rounds in EVS.
- Recovery.RecoverySynchronizes: single-packet RELIABLE messages are not compared between daemons, since they overtake and one daemon may have handed up what another never got; that all that survive go up is EvsNumbers.SurvivorsUp. How a commit set came about is not modelled: a walk brings any.
- EvsTaken.ArrayOutcomeIff: for entries whose surviving packets are accepted (Sound); for others it does not say when the array, unlike the map, takes no exit.
- EvsRing.BarrierIff: for runs to which nothing late comes, and daemons whose My_aru did not pass the entry's Highest_seq (the others never commit, EvsRuns.CommitsIff); token copies, retransmission requests and the limit on token rounds in EVS are not modelled; daemons of several old rings are named by their place on the next one.
- EvsBarrier.NextRingStarts: that the ring's start has all daemons in OP when the token comes to the first one again is what AllGoOver and EntersClean give daemon by daemon; the counts of retransmissions in EVS that the token carries are not modelled.
- RingDefect.BadRun: from a start that is not good only Aru safety is shown to fail; whether total order and exactly-once fail too is left open.
- FormWalk.HoleMergingIsExact: the token's room (MAX_FORM_REPS, MAX_PROCS_RING) is not modelled.
- Form1.FillForm1: the lists of members and representatives that the token carries, and entries of other rings, are not modelled.
- GroupsExchange.ExchangeConverges: a transitional membership during the exchange (GGT), mailboxes and the notifications sent to clients are not modelled; that a set's AGREED message comes after its RELIABLE ones is what the ring guarantees, and is a hypothesis here; group ids of unchanged groups known to two sets are taken to agree.
- GroupsExchange.CountedIs: that the sets' tables are kept well and name only daemons of their set (KnownOnce) is a hypothesis; leaving and transitional memberships, which see to it, are not modelled.
- GroupsBuf.BuildGroupsBuf: records are counted in bytes but not laid out as bytes; byte order is not modelled.
- GroupsBuf.BuildNewGroupsBufs: likewise.
- GroupsState.Groups.MessToGroups: a message is its records, not their bytes.
- GroupsState.Groups.HandleGroups: synced sets in messages are taken to be sorted, as every daemon keeps its own.
- Cycle.Form2Walk: the second copy that every hop sends, lost copies and the rings' entries on the token are not modelled; members are named by segment and place.
- Packing.CheckLengths: datagrams are those that the queue emits; headers are opaque but for data_len, and the routing and byte-order marks are not modelled.
- TokenReturn.LostTokenIff: the membership's own timeout, which ends the ring when no token comes, is not modelled.
- Burst.TakeBound: windows are the default ones; the monitor's changes to them are not modelled, and ARCH_SCATTER_SIZE is 1024.
- Integer widths: counters, lengths and ids are mathematical integers, but for the 4-bit fields of the token.
- Failure during EVS (Backoff_membership), the discovery of members by timeouts (SEG, REPRESENTED, GATHER) and form tokens that are lost: the walk of one form token is modelled.
- Joining, leaving and killing of group members, virtual-synchrony sets in membership messages, sessions (their table, partial reads and writes) and fragmenting into scatter elements.
- Time, sockets, logging, status and monitor messages, access control, configuration reload and the parser.
