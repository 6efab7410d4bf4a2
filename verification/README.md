# Open-AVB in Dafny: the MRP participant and four small companions

A model of the Multiple Registration Protocol endpoint in `daemons/mrpd` (MVRP and MSRP over
IEEE 802.1Q-2011), of the code it relies on, and of three other self-contained algorithms in
the repository, with proofs about every input, every run and pairs of stations.

* `Mrp`, `ApplicantRuns`: the Applicant, Registrar and LeaveAll machines, and the
  two-announcement rule over all runs of one attribute.
* `Mrpdu`, `MrpduParse`, `MrpduRoundTrip`, `MrpduMessages`, `FirstValues`: the MRPDU wire
  format for VIDs, talkers, listeners and domains; the receivers as functions of arbitrary
  bytes; encoded messages read back as what they encode.
* `Emission`, `EmissionMeaning`, `EmissionFits`, `EmissionReach`: which attributes the emitters
  send, what the result means to a receiver, when everything fits, how far an emitter writes.
* `Emitter`, `Receiver`: the same emitters and receivers as loops over a frame buffer.
* `Mvrp`, `MvrpPerVid`, `MvrpRuns`, `MvrpTimers`, `MvrpFlags`, `MvrpFrames`, `MvrpStations`,
  `MvrpDaemon`: the MVRP participant as a state machine and as a class that refines it; its
  declarations, client notifications, timers and frames over all runs; two stations.
* `Msrp`, `MsrpRuns`, `MsrpKeys`, `MsrpDeclared`, `MsrpTimers`, `MsrpWire`, `MsrpFrames`,
  `MsrpStations`, `MsrpLeaveAll`, `MsrpUndeclared`, `MsrpAnnounced`, `MsrpDaemon`: the same for
  MSRP, with merging, pruning, talker records and four messages to a frame.
* `MsrpReach`, `MsrpTxpdu`: the four emitter calls of `msrp_txpdu` in one buffer, and when they
  stay inside it.
* `MsrpStreamIds`: the table of interesting stream IDs, kept in the sorted EUI-64 table.
* `AttribList`, `LinkedTable`: the doubly linked attribute lists, pointer by pointer; both
  participants keep their attributes in one.
* `Eui64Set`, `Que`, `InetChecksum`, `NvmChecksum`: the sorted EUI-64 table, the thread queue,
  the scatter/gather Internet checksum and the 82580 NVM checksums.

Functions and lemmas describe what happens; the classes and methods update state, buffers and
pointers step by step as the C code does and are proved equal to those functions.

Where a promise turned out not to hold as stated, the code is modelled as it is and the exact
condition is proved:

* The two-announcement rule of `mrp.h` fails exactly when an unannounced applicant sends a
  LeaveAll in VP or is joined in LA (`TwoAnnouncementsBeforeQuiet`, `UnannouncedApplicants`).
* The join timer serves every applicant that has something to send, except exactly when the last
  thing that concerned the applicants was a LeaveAll sent while some applicant was not an
  announced declaration (`MvrpTimers.JoinTimerExact` and `JoinThenLeaveAllWaits`, and key by key
  `MsrpTimers.WaitsExactly`, where I-S can also take the waiting talker out).
* An MSRP attribute that is heard again stays registered, and the clients hear of news, exactly if
  it is heard with New or Join: merging empties the registrar on news, and an In or Mt does not
  fill it again (`NewsIsNotified`, `InWithNewsUnregisters`, `InWithNewsIsSilent`).
* An emitter stays in the room it is given exactly under a condition on the room, the first due
  attribute and the empty LeaveAll; the rooms that fail are listed type by type, and a list that
  client commands can build meets one of them (`ReachIff`, `TightRooms`, `AlmostFullFrame`).
* A client's own New reports New while the registrar is empty; the clients' view is right
  exactly when no own New is pending (`ClientViewTracksRegistration`, `OwnNewMisleads`).
* MSRP declarations follow the last client command while pruning is off, and for listeners and
  domains always (`CommandsDecide`). With pruning, own commands for a talker that is not wanted
  are dropped, and I-S and S-L take out a client's own talker; the exact condition is over the
  history (`MsrpDeclared.DeclaredExactly`, `OwnNewDropped`, `OwnTalkerTakenOut`, `OwnLvDropped`).
* An MSRP LeaveAll frame leaves its sender's declarations registered, except exactly a stream that
  it advertises and the receiver itself declares as Talker Failed: the advertisement comes first,
  and the LeaveAll for Talker Failed after it (`MsrpLeaveAll.LeaveAllSafety`,
  `CrossedTalkersLeave`). What its sender does not keep declared leaves under the leave timer,
  except exactly a key for which the frame has an Mt with news (`UndeclaredLeaves`,
  `OtherVidUnregisters`).
* Removing a key from the EUI-64 table by overwriting it with all ones takes out the entry that
  was found, in every order qsort may give equal keys, exactly if no other entry has the key all
  ones with another pointer (`RemovalExact`).
* `inet_checksum_sg` equals the flat checksum for all contents of given buffer lengths exactly
  when no empty buffer at an odd offset has data behind it (`GatherChecksumIff`).
* A frame holds everything that is due exactly under a size condition on the list
  (`MvrpFrames.FrameHoldsAllIff`, `MsrpFrames.FrameHoldsAllIff`).

Assumptions: timer starts and allocations succeed, `send` delivers bytes unchanged, the host is
little-endian where 16-bit words are loaded, structure padding is zero, and the receive buffer
is zeroed before each frame, as `mrpd.c` does, so bytes behind a short frame read as 0.
Received frames, client commands, timer expiries and the point-to-point setting are inputs.

## Model

| member | source | states |
|---|---|---|
| ApplicantRuns.PaidStep | daemons/mrpd/mrp.c:551-904 | from a state with enough announcements, one event keeps the two-announcement debt paid if and only if it is not a TxLa in VP or a Join in LA with nothing announced |
| ApplicantRuns.TwoAnnouncementsBeforeQuiet | daemons/mrpd/mrp.h:75-79 | for every run: quiet states have two announcements behind them and anxious ones one, at every point, if and only if no skipping step occurs |
| ApplicantRuns.UnannouncedApplicants | daemons/mrpd/mrp.c:627-687 | two short runs that reach AA without any announcement |
| Mrpdu.Unpack3 | daemons/mrpd/mrp.h:177 | every event of a three-packed sequence is the base-6 digit the receivers extract, in the byte they look in |
| Mrpdu.Unpack4 | daemons/mrpd/mrp.h:178-179 | every listener substate is the base-4 digit the receiver extracts |
| Mrpdu.IncrementCounts | daemons/mrpd/msrp.c:692-707 | the carry loop counts: all bytes but the first are a big-endian number plus one, modulo 256^(n-1) |
| FirstValues.IncrementInPlace | daemons/mrpd/mmrp.c:425-440 | the in-place byte loop leaves exactly the incremented value and never touches the first byte |
| Mrpdu.NextKeyOfPrefix | daemons/mrpd/msrp.c:2213-2230 | incrementing a whole talker record and sending its first value is the same as incrementing the first value |
| MrpduRoundTrip.VidValuesRead | daemons/mrpd/mvrp.c:532-611 | the packed events of a VID vector read back as the events of consecutive VIDs, those above 0xFFF discarded |
| MrpduRoundTrip.KeyValuesRead | daemons/mrpd/msrp.c:1172-1345 | packed events and substates of an MSRP vector read back as (key, event, substate) in order, Ignore entries skipped |
| MrpduRoundTrip.VectorsRead | daemons/mrpd/msrp.c:1359-1904 | parsing any list of encoded vectors gives exactly their meaning, with only the first LeaveAll of the type, and stops at the end mark |
| MrpduMessages.ListLengthAccepted | daemons/mrpd/msrp.c:709-765 | the AttributeListLength that the emitters write always passes the receiver's length and end-mark check |
| MrpduMessages.MvrpMessageRead | daemons/mrpd/mvrp.c:389-644 | an encoded MVRP message list is received as exactly its meaning |
| MrpduMessages.MvrpEmptyLeaveAllRead | daemons/mrpd/mvrp.c:498-531 | an empty MVRP LeaveAll vector dispatches the LeaveAll, then reception ends as malformed |
| MrpduMessages.MsrpMessagesRead | daemons/mrpd/msrp.c:767-1931 | an encoded MSRP message list of any types is received as exactly the messages' meanings in order, one LeaveAll per type |
| Emission.RunEnd | daemons/mrpd/mvrp.c:748-820 | the run after a leading attribute is the longest stretch of due attributes with consecutive keys |
| Emission.EmitFromWellFormed | daemons/mrpd/mvrp.c:677-850 | everything emitted is a well-formed vector, and with the end mark stays inside the room given |
| EmissionMeaning.SentExactly | daemons/mrpd/mvrp.c:677-850 | nothing is sent twice, every must-send attribute is sent, optional ones only to continue a contiguous run |
| EmissionMeaning.EmittedMeaning | daemons/mrpd/msrp.c:2551-2916 | for every attribute type the emitted vectors mean one LeaveAll if asked for and then the sent attributes' events |
| EmissionFits.EverythingFits | daemons/mrpd/mvrp.c:677-850 | with room for all vectors and both end marks no attribute that is due is left out |
| EmissionFits.CompleteSize | daemons/mrpd/mvrp.c:677-850 | a complete emission takes exactly the sum of the run sizes |
| Emitter.PackRun | daemons/mrpd/mvrp.c:748-820 | the inner loop packs the run's events into the buffer, clears exactly the run's flags, and fails only when an attribute has no event or the frame is full |
| Emitter.WriteFourPacked | daemons/mrpd/msrp.c:2797-2852 | the listener substates end up four to a byte behind the events, or the frame is full |
| EmissionReach.ReachIff | daemons/mrpd/msrp.c:2232-2549 | for every type, list and room: an emitter call writes no byte behind its room if and only if the room is below the smallest vector, or holds the first due vector's start and trailer, or, with nothing due, an empty LeaveAll message when one is asked for |
| EmissionReach.TightRooms | daemons/mrpd/msrp.c:1934-2207 | the rooms that fail, type by type: 31 bytes for a lone Talker Advertise, 40 for a lone Talker Failed, 8 to 10 for a domain, and those too small for an empty LeaveAll message |
| EmissionReach.Overrun | daemons/mrpd/msrp.c:2232-2549 | a call writes at most seven bytes behind its room, and when it does it fails or is an empty LeaveAll that leaves no room for anything else |
| EmissionReach.WideRoom | daemons/mrpd/mvrp.c:677-850 | room for a message header, one vector header, one first value and an end mark always suffices |
| Emitter.EmitVectors | daemons/mrpd/msrp.c:2232-2549 | for any room, in a zeroed buffer, the emitter writes exactly the specified message of the type, or nothing, or reports failure exactly when the specification does; only transmit flags of the attributes change, and bytes exactly as far as `Reach` says |
| Receiver.ReadVidValues | daemons/mrpd/mvrp.c:532-611 | the VID event loop dispatches what the specification says for every byte string |
| Receiver.ReadSubstates | daemons/mrpd/msrp.c:1161-1224 | the growing substate array holds every four-packed substate of the vector |
| Receiver.ReadKeyValues | daemons/mrpd/msrp.c:1236-1345 | the MSRP event loops dispatch what the specification says for every byte string, dropped bytes included |
| Receiver.ReadVectors | daemons/mrpd/mvrp.c:498-620 | the vector loop equals the vector specification for every byte string, malformed ones included |
| Receiver.ReadMvrp | daemons/mrpd/mvrp.c:389-644 | the message loop equals the MVRP specification for every byte string |
| Receiver.ReadMsrp | daemons/mrpd/msrp.c:767-1931 | the message loop equals the MSRP specification for every byte string |
| MvrpPerVid.StepPerVid | daemons/mrpd/mvrp.c:155-360 | every event keeps the list strictly ascending with no notification pending, and acts on each VID as that VID's own small step, for any VID and list |
| MvrpRuns.RunPerVid | daemons/mrpd/mvrp.c:155-360 | in every run the database is valid and each VID's attribute is what its own history makes it |
| MvrpRuns.DeclaredExactly | daemons/mrpd/mvrp.c:155-360 | at every point of every run a VID is listed with a declaring applicant if and only if its last client command was New or Join |
| MvrpRuns.ClientViewTracksRegistration | daemons/mrpd/mrp.c:932-1054 | in every run a registered VID was last reported New or Join, and an empty or absent one Lv or never, if and only if no own New is pending; a pending own New means the registrar is empty |
| MvrpRuns.OwnNewMisleads | daemons/mrpd/mvrp.c:302-307 | the run of one own New that reports New with an empty registrar |
| MvrpTimers.LeaveTimerCovers | daemons/mrpd/mrp.c:382-408 | in every run a registrar in LV means the leave timer is running |
| MvrpTimers.LeaveTimerClears | daemons/mrpd/mvrp.c:236-250 | after the leave timer fires no registrar is in LV and nothing reclaimable is listed |
| MvrpTimers.JoinTimerAfterTx | daemons/mrpd/mrp.c:906-930 | after a transmit opportunity the join timer runs if and only if some applicant is in AN or AA, and otherwise all are quiet |
| MvrpTimers.JoinTimerExact | daemons/mrpd/mrp.c:353-380 | in every run the join timer runs or all applicants are quiet, if and only if it is not the case that the last input other than leave timer and reclaim was a LeaveAll sent while some applicant was not an announced declaration |
| MvrpTimers.JoinThenLeaveAllWaits | daemons/mrpd/mvrp.c:166-190 | the run Join, LeaveAll timer, after which an applicant is not quiet and no join timer runs |
| MvrpTimers.LeaveAllStopsJoinTimer | daemons/mrpd/mvrp.c:166-190 | after sending a LeaveAll the join timer is off, and all applicants are quiet if and only if all were announced declarations |
| MvrpTimers.TxLowersRank | daemons/mrpd/mvrp.c:211-235 | every transmit opportunity strictly lowers the rank sum until it is 0, which is all-quiet |
| MvrpTimers.ThreeTxReachQuiet | daemons/mrpd/mvrp.c:211-235 | from any database three transmit opportunities in a row end all-quiet with the join timer off |
| MvrpFlags.FlagsAreDead | daemons/mrpd/mvrp.c:155-360 | databases that differ only in transmit flags take the same steps, tell clients the same and send the same frames |
| MvrpFrames.FrameRoundTrip | daemons/mrpd/mvrp.c:646-889 | for every sorted list, receiving the frame built from it dispatches one LeaveAll if due and then exactly the sent (VID, event) sequence |
| MvrpFrames.FrameHoldsAllIff | daemons/mrpd/mvrp.c:891-1009 | a frame with everything due goes out if and only if there is something to send and the due bytes leave room for type, length and end marks |
| MvrpStations.TwoStationRegistration | daemons/mrpd/mvrp.c:211-235 | delivering A's fitting Tx frame makes B's registrar IN for every VID A had in VP, VN, AN, AP or AA, for all lists of both |
| MvrpStations.LeaveAllSafety | daemons/mrpd/mvrp.c:166-190 | delivering A's LeaveAll frame: one LeaveAll first; A's live declarations are IN at B; every other VID registered at B is leaving under a running leave timer |
| MvrpStations.OnlyDeclaredAnnounced | daemons/mrpd/mrp.c:551-904 | in every run a frame says New or Join only of declared VIDs and Lv only of withdrawn ones |
| MvrpDaemon.Participant.constructor | daemons/mrpd/mvrp.c:1243-1298 | a new participant is the initial database with only the LeaveAll timer running |
| LinkedTable.Table.InsertBefore | daemons/mrpd/mvrp.c:108-119 | head insertion puts the item before its node and leaves a soundly linked list that carries every item at its place |
| LinkedTable.Table.InsertAfter | daemons/mrpd/msrp.c:225-230 | tail insertion puts the item after its node, likewise |
| LinkedTable.Table.Remove | daemons/mrpd/mvrp.c:1308-1315 | unlinking takes out exactly the node's item, returns the next node and leaves a soundly linked list |
| MvrpDaemon.Participant.Find | daemons/mrpd/mvrp.c:74-85 | the pointer walk returns the first node with the VID, and null if and only if the VID is not listed |
| MvrpDaemon.Participant.Add | daemons/mrpd/mvrp.c:87-139 | the walk stitches the attribute in before the first VID that is not smaller, or at the tail |
| MvrpDaemon.Participant.ConditionalReclaim | daemons/mrpd/mvrp.c:1300-1328 | unlinks the attribute and reports Lv if and only if nobody wants it, and returns the next node |
| MvrpDaemon.Participant.ReclaimAll | daemons/mrpd/mvrp.c:1330-1342 | the loop drops exactly the reclaimable attributes and reports Lv for each, in order |
| MvrpDaemon.Participant.LeaveWalk | daemons/mrpd/mvrp.c:236-250 | registrar step and reclaim interleaved in one loop equal a full walk followed by a filter |
| MvrpDaemon.Participant.SendPdu | daemons/mrpd/mvrp.c:891-1009 | building the frame in a buffer sends exactly the specified frame or nothing, and changes only transmit flags |
| MvrpDaemon.Participant.Event | daemons/mrpd/mvrp.c:155-360 | each event is one step of the model, so state, client notifications and frames follow the model over any history, and the list stays soundly linked and strictly ascending |
| MvrpDaemon.Participant.RecvMsg | daemons/mrpd/mvrp.c:389-644 | any received bytes become exactly the steps of their dispatched events |
| MvrpDaemon.DeliveryIsRun | daemons/mrpd/mvrp.c:389-644 | receiving a frame is continuing the run with its events |
| Msrp.Find | daemons/mrpd/msrp.c:145-174 | the first attribute with the key, both talker types being one key and a domain its class |
| Msrp.Merged | daemons/mrpd/msrp.c:304-411 | merging keeps key and applicant and leaves the registrar as it was or empty |
| MsrpRuns.StepKeeps | daemons/mrpd/msrp.c:416-664 | every event and command keeps one attribute per key, clean advertisements, no pending notification and a leave timer that covers all leavers |
| MsrpRuns.LvTickKeeps | daemons/mrpd/msrp.c:521-535 | after the leave timer fires no registrar is in LV and nothing reclaimable is listed |
| MsrpRuns.RunKeepsValid | daemons/mrpd/msrp.c:304-411 | in every run each stream has one talker and one listener attribute at most and each class one domain, although merging rewrites talker types in place |
| MsrpKeys.ApplyPerKey | daemons/mrpd/msrp.c:576-632 | an event changes its own key to what merge and machines say, or drops it, and no other key |
| MsrpKeys.NewsIsNotified | daemons/mrpd/msrp.c:304-411 | a registered attribute heard again, for all six received events: New and Join keep it registered and notify of a New or of news; In and Mt with news unregister it without a notification, Lv with news without the leave timer; exactly when it stays listed unregistered and unreported |
| MsrpKeys.InWithNewsUnregisters | daemons/mrpd/msrp.c:351-385 | the run JoinIn, In with another substate, after which the listener is not listed |
| MsrpKeys.InWithNewsIsSilent | daemons/mrpd/msrp.c:386-406 | the run own Join, In with another VID, after which the class is listed, not registered, and no client was told |
| MsrpKeys.MergeTakesOver | daemons/mrpd/msrp.c:304-411 | a merge changes only type, failure information, substate, neighbour priority and VID, takes them from the arriving attribute, streams only in the same direction; without news only failure information can change |
| MsrpKeys.PrunedTalkerIgnored | daemons/mrpd/msrp.c:553-640 | with pruning on, an event for a talker that is neither listed nor listened to changes nothing at all |
| MsrpKeys.TalkerEntersWanted | daemons/mrpd/msrp.c:553-574 | a talker enters the list only in a step in which its stream is wanted |
| MsrpKeys.EveryTalkerWasWanted | daemons/mrpd/msrp.c:553-574 | in every run with pruning each listed talker's stream was interesting or listened to at an earlier point |
| MsrpKeys.UnwantedTalkersRemoved | daemons/mrpd/msrp.c:3769-3803 | after I-S without a listener, and after S-L of an unlisted stream, no talker of the stream is left |
| MsrpDeclared.DeclaredExactly | daemons/mrpd/msrp.c:416-664 | in every run a key is listed with a declaring applicant if and only if the last client command for it that was not pruned away was New or Join and no I-S or S-L took its talker out since |
| MsrpDeclared.CommandsDecide | daemons/mrpd/msrp.c:416-664 | without pruning, and for listeners and domains always, that is the last client command for the key being New or Join |
| MsrpDeclared.OwnNewDropped | daemons/mrpd/msrp.c:553-574 | with pruning a client's own New for a stream nobody wants is not declared |
| MsrpDeclared.OwnTalkerTakenOut | daemons/mrpd/msrp.c:3769-3803 | I-S takes out the talker the client itself declared |
| MsrpDeclared.OwnLvDropped | daemons/mrpd/msrp.c:3804-3806 | after I-A a client's own Lv is dropped and its talker stays declared |
| MsrpTimers.WaitsExactly | daemons/mrpd/msrp.c:576-580 | in every run and for every key: the applicant has something to send while no join timer runs, if and only if a LeaveAll left it so, only idle inputs came since, and no I-S took it out |
| MsrpTimers.JoinTimerExact | daemons/mrpd/mrp.c:353-380 | in every run the join timer runs or all applicants are quiet, if and only if no key was left waiting by a LeaveAll |
| MsrpTimers.JoinThenLeaveAllWaits | daemons/mrpd/msrp.c:433-459 | the run Join, LeaveAll timer, after which a listener is not quiet and no join timer runs |
| MsrpWire.TalkerRoundTrip | daemons/mrpd/msrp.c:1359-1904 | every talker record survives encoding and decoding, failure information included |
| MsrpWire.TalkerBytesRoundTrip | daemons/mrpd/msrp.c:2310-2351 | every 34 bytes are some record's encoding, so records and first values correspond one to one |
| MsrpWire.SentValueSays | daemons/mrpd/msrp.c:2213-2549 | the value sent for a talker, listener or domain tells the receiver exactly that attribute |
| MsrpWire.HeardArrives | daemons/mrpd/msrp.c:1484-1600 | what the receiver hands to the state machine is always a fresh, clean attribute |
| MsrpWire.HeardRegisters | daemons/mrpd/msrp.c:576-632 | a received New or Join of interest leaves the registrar IN, with the sender's record if the key is new |
| MsrpFrames.FrameRoundTrip | daemons/mrpd/msrp.c:2918-3017 | for every list, the frame is received as, type by type, one LeaveAll if due and then exactly the sent attributes' events |
| MsrpFrames.FrameTellsTruth | daemons/mrpd/msrp.c:2918-3017 | every value heard from a frame is true of an attribute in the sender's list |
| MsrpFrames.FrameTellsAll | daemons/mrpd/msrp.c:2551-2916 | every must-send attribute before its type's walk stopped is heard exactly as it is |
| MsrpFrames.FrameHoldsAllIff | daemons/mrpd/msrp.c:2918-3017 | a frame with everything due goes out if and only if there is something to send, the total leaves room for the end mark, and each type finds room for its smallest vector in turn |
| MsrpReach.StaysInsideIff | daemons/mrpd/msrp.c:2918-3017 | the four emitter calls stay inside the frame if and only if each finds sufficient room behind what the earlier ones used |
| MsrpReach.AlmostFullFrame | daemons/mrpd/msrp.c:2918-3017 | 74 client commands after which a Tx frame holds 1976 bytes before its domain, whose emitter call does not suffice with the 9 bytes left |
| MsrpTxpdu.WriteFrame | daemons/mrpd/msrp.c:2918-3017 | for every list, writing the four messages one behind the other into one zeroed buffer gives exactly the specified frame or none, and writes behind the buffer if and only if the calls do not stay inside |
| MsrpStations.FeedRegisters | daemons/mrpd/msrp.c:416-664 | among values with distinct keys a wanted announcement registers whatever comes before or after it |
| MsrpStations.TwoStationRegistration | daemons/mrpd/msrp.c:487-520 | delivering A's Tx frame makes B's registrar IN for every talker, listener and domain A was announcing, with A's stream record, substate or class, priority and VID if new to B, except talkers B prunes |
| MsrpLeaveAll.LeaveAllPerKey | daemons/mrpd/msrp.c:460-485 | a LeaveAll heard for one type moves the registrars of that type, starts the leave timer for them, and no other key |
| MsrpLeaveAll.LeaveAllSafety | daemons/mrpd/msrp.c:429-459 | delivering A's LeaveAll frame with everything due leaves each of A's live declarations that B does not prune IN at B, or in LV under a running leave timer exactly if A advertises a stream that B itself declares as Talker Failed |
| MsrpLeaveAll.UnlistedLeaves | daemons/mrpd/msrp.c:429-485 | every key registered at B that A does not list is leaving afterwards, with the leave timer running |
| MsrpLeaveAll.CrossedTalkersLeave | daemons/mrpd/msrp.c:429-485 | two stations after one client command each, A advertising a stream that B declares as failed: A's LeaveAll frame leaves the stream leaving at B |
| MsrpUndeclared.UndeclaredLeaves | daemons/mrpd/msrp.c:429-485 | a key registered at B that A lists without keeping it declared, or not at all, is leaving with the leave timer running, or unregistered at once exactly if the frame has an Mt for it with news that B does not prune |
| MsrpUndeclared.OtherVidUnregisters | daemons/mrpd/msrp.c:386-406 | two stations that have a class with different VIDs: A's LeaveAll frame unregisters it at B at once |
| MsrpAnnounced.OnlyDeclaredAnnounced | daemons/mrpd/mrp.c:551-904 | in every run an MSRP frame says New or Join only of declared keys and Lv only of keys that are not |
| MsrpStreamIds.ReadInjective | daemons/common/eui64set.c:36-50 | different stream IDs are different table keys |
| MsrpStreamIds.StreamTable.Find | daemons/mrpd/msrp.c:566 | finds exactly the stream IDs that were put in and not taken out |
| MsrpStreamIds.StreamTable.Add | daemons/mrpd/msrp.c:3754-3766 | adds a stream ID unless it is there already or the table is full |
| MsrpStreamIds.StreamTable.Remove | daemons/mrpd/msrp.c:3767-3779 | removes exactly that stream ID, or reports that it is not there |
| MsrpDaemon.ReceivedSound | daemons/mrpd/msrp.c:767-1931 | whatever bytes arrive, only well-formed MSRP values are dispatched |
| MsrpDaemon.Participant.constructor | daemons/mrpd/msrp.c:3828-3882 | a new participant is the initial database with an empty stream ID table of at least eight places |
| MsrpDaemon.Participant.AddInteresting | daemons/mrpd/msrp.c:3752-3766 | I+S is the model's step, refused without pruning, for a known ID and for a full table |
| MsrpDaemon.Participant.DropInteresting | daemons/mrpd/msrp.c:3767-3803 | I-S is the model's step, with the stream's talkers taken out unless a listener wants them |
| MsrpDaemon.Participant.WithdrawListener | daemons/mrpd/msrp.c:3630-3667 | S-L is the model's step, with the talkers of an unlisted stream taken out |
| MsrpDaemon.Participant.Lookup | daemons/mrpd/msrp.c:145-174 | the pointer walk returns the first node with the key, and null if and only if there is none |
| MsrpDaemon.Participant.Add | daemons/mrpd/msrp.c:192-302 | the two-level walk stitches the attribute in at the specified place among the attributes of its type, or at the end; tail, head and empty-list insertion leave a soundly linked list |
| MsrpDaemon.Participant.ConditionalReclaim | daemons/mrpd/msrp.c:3928-3956 | unlinks the attribute if and only if nobody wants it and returns the next node |
| MsrpDaemon.Participant.SendPdu | daemons/mrpd/msrp.c:2918-3017 | builds the frame in place and sends exactly the specified one or nothing, and records whether it was built inside its buffer |
| MsrpDaemon.Participant.Merge | daemons/mrpd/msrp.c:304-411 | the field updates of the merge, by type and direction, give the specified attribute |
| MsrpDaemon.Participant.LeaveWalk | daemons/mrpd/msrp.c:521-535 | registrar step and reclaim interleaved in one loop equal a full walk followed by a filter |
| MsrpDaemon.Participant.RemoveTalkers | daemons/mrpd/msrp.c:3779-3803 | the removal loop takes out exactly the stream's talkers |
| MsrpDaemon.Participant.Event | daemons/mrpd/msrp.c:416-664 | each event or command is one step of the model, so state and frames follow the model over any history, the database stays valid and the list soundly linked, and it is known whether every frame was built inside its buffer |
| MsrpDaemon.Participant.RecvMsg | daemons/mrpd/msrp.c:767-1931 | any received bytes become exactly the steps of their dispatched events |
| AttribList.MemCmpIsNumeric | daemons/mrpd/mmrp.c:85-185 | memcmp orders keys of equal length as the big-endian numbers they spell |
| AttribList.SortedInserted | daemons/mrpd/mvrp.c:87-139 | inserting a new key at the place mvrp_add finds keeps the list strictly ascending |
| AttribList.GroupedInserted | daemons/mrpd/mmrp.c:85-185 | inserting at the place mmrp_add finds keeps each type contiguous and strictly ascending within itself |
| AttribList.RemovedKeepsOrder | daemons/mrpd/mvrp.c:1300-1328 | unlinking a node keeps both orders |
| AttribList.List.AddSorted | daemons/mrpd/mvrp.c:87-139 | the prev/next updates leave a well-formed doubly linked list with the node in its sorted place |
| AttribList.List.AddGrouped | daemons/mrpd/mmrp.c:85-185 | the same for the two-level list, tail and head insertion and the empty list included |
| AttribList.List.Unlink | daemons/mrpd/mvrp.c:1300-1328 | unlinking leaves a well-formed list without the node, in the order it had, and returns its successor |
| AttribList.List.Lookup | daemons/mrpd/mmrp.c:58-83 | the pointer walk returns the first matching node, and null if and only if there is none |
| Eui64Set.ReadWrite | daemons/common/eui64set.c:36-62 | reading what was written gives the value back, for all 64-bit values |
| Eui64Set.ReadIsBigEndian | daemons/common/eui64set.c:36-50 | the shifts read the big-endian value |
| Eui64Set.SentinelRemoves | daemons/common/eui64set.c:170-192 | overwriting a key with all ones, sorting and dropping the last removes exactly that key, even when all ones is itself a key |
| Eui64Set.KeySet.InsertAndSort | daemons/common/eui64set.c:146-155 | adds the key to the sorted table unless it is full |
| Eui64Set.KeySet.Find | daemons/common/eui64set.c:157-168 | finds an entry with the key, and so its pointer, if and only if the key is in the table |
| Eui64Set.RemovalExact | daemons/common/eui64set.c:170-192 | removal takes out the found entry in every sorted order if and only if no other entry has the key all ones with another pointer |
| Eui64Set.KeySet.RemoveAndSort | daemons/common/eui64set.c:170-192 | removes one occurrence of the key, and its entry unless all ones is another key; or reports absence and changes nothing |
| Que.NoUnreadOverwritten | daemons/mrpd/que.c:69-77 | in every reachable state a push writes a slot that holds no unread item |
| Que.QueueIsFifo | daemons/mrpd/que.c:69-92 | for every interleaving popped items are a prefix of pushed items in order, and free tokens, stored items and operations under way add up to the capacity |
| Que.PopGetsNext | daemons/mrpd/que.c:79-92 | a pop that holds a data token gets the next item in pushing order |
| Que.Queue.Push | daemons/mrpd/que.c:69-77 | the critical section writes the item at the input position and advances it around the ring |
| Que.Queue.Pop | daemons/mrpd/que.c:79-86 | the critical section returns the item at the output position and advances it around the ring |
| InetChecksum.FoldAll | examples/simple_talker/simple_talker.c:136-139 | folding terminates with the complement of the ones' complement value |
| InetChecksum.InetChecksum | examples/simple_talker/simple_talker.c:123-140 | returns the RFC 1071 checksum for every byte string, the 32-bit accumulator never wrapping |
| InetChecksum.GatherIsFlat | examples/simple_talker/simple_talker.c:152-192 | for aligned lists of buffers the scatter/gather total is the word sum of the concatenation, odd boundaries included |
| InetChecksum.NonEmptyAligned | examples/simple_talker/simple_talker.c:152-192 | every list of non-empty buffers is aligned |
| InetChecksum.GatherChecksumIff | examples/simple_talker/simple_talker.c:159-176 | for given buffer lengths the two checksums agree on all contents if and only if no empty buffer at an odd offset has data behind it |
| InetChecksum.InetChecksumGather | examples/simple_talker/simple_talker.c:152-192 | the loop over the buffers returns the gathered checksum, and the flat one for every aligned list, and leaves of each buffer its last odd byte or nothing |
| InetChecksum.SummedOnce | examples/simple_talker/simple_talker.c:152-192 | a second call on a list of even buffers sees no data and returns 0xFFFF |
| InetChecksum.StoredChecksumVerifies | examples/simple_talker/simple_talker.c:123-140 | storing the checksum in a zeroed field at an even offset makes the checksum of the whole 0 |
| NvmChecksum.UpdateMakesValid | kmod/igb/e1000_82575.c:2615-2639 | updating a region makes it pass validation |
| NvmChecksum.UpdateKeepsOthers | kmod/igb/e1000_82575.c:2690-2724 | updating one of the four regions leaves every other one as valid or invalid as it was |
| NvmChecksum.UpdateValidates | kmod/igb/e1000_82575.c:2649-2724 | after the 82580 update the compatibility bit is set, all four regions validate, and only the compatibility word and the checksum words changed |
| NvmChecksum.Nvm.ValidateRegion | kmod/igb/e1000_82575.c:2578-2602 | succeeds if and only if all words can be read and sum to the magic value modulo 2^16 |
| NvmChecksum.Nvm.UpdateRegion | kmod/igb/e1000_82575.c:2615-2639 | on success writes the region's checksum word and nothing else, on a read or write error nothing |
| NvmChecksum.Nvm.Validate82580 | kmod/igb/e1000_82575.c:2649-2680 | validates one region, or four when the compatibility bit is set |
| NvmChecksum.Nvm.Update82580 | kmod/igb/e1000_82575.c:2690-2724 | on success all four regions validate; on every outcome no word other than the compatibility and checksum words changes |
| NvmChecksum.Nvm.UpdateAndValidate | kmod/igb/e1000_82575.c:2649-2724 | validation after a successful update of a readable NVM succeeds |

## Left out

- MsrpTxpdu.WriteFrame: takes the bytes behind the frame buffer as memory that nobody else uses.
- MsrpDaemon.Participant.SendPdu: transmit flags are off afterwards; every Tx and LeaveAll walk sets them again.
- MsrpUndeclared.UndeclaredLeaves: for a listener that B has as AskingFailed, the condition asks whether B lists the stream's talker once the frame is in.
- MsrpFrames.FrameRoundTrip: is about the two calls the code makes, with the LeaveAll flag and the empty LeaveAll vectors both on or both off.
- MsrpDaemon.Participant.Add: claims no order of the list, since merging changes types in place.
- AttribList.List.AddSorted: nodes carry their key as a number (`AttribList.MemCmpIsNumeric`); attributes are carried in `LinkedTable`.
- Que.QueueIsFifo: takes each semaphore operation and each critical section as one atomic action.
- Listener substates other than 0 to 3, which a client command could ask for.
- The text and the order of MSRP client notifications; the MSRP model keeps only whether one is pending.
- MMRP events, emitters and receiver; its list and its address increment are modelled.
- An invariant that a pruned database holds only wanted talkers: I-A clears the stream ID table without removing talkers, so only that they were wanted earlier is proved.
- Feedback of frames that overflow: the code never feeds TxLaf back to the machines.
- The periodic timer's own machine, client lists, status strings and logging.
- Sockets, the select loop, timer file descriptors, packet capture and the Windows port.
- Command parsing, table dumps and notification text, which rest on sscanf and snprintf.
- The rest of the igb driver, the gPTP daemon, the shapers and the example talkers and listeners.
