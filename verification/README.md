# Verified model of the Zigbee hub firmware

The firmware runs on an ESP32 and drives a CC2652P7 Zigbee coprocessor over a serial link that speaks
TI's MT protocol. This project models its stateful parts in Dafny and proves what they promise. Code
that changes state step by step is modelled by classes and loops in the same form, each proved
against functions on values; the main results are lemmas about those functions, over every input
or every run.

| module | what it covers |
|---|---|
| `Bits` | bytes, XOR, little-endian and two's complement numbers, powers of two |
| `Wrappers` | optional values |
| `MtFrame` | MT frame codec with its check byte |
| `RxMachine` | byte-at-a-time receiver against a parser that looks at whole candidates and asks the frame decoder |
| `ZnpLink` | the module statics of the transport: RX task, dispatch task, both halves of a request, the consumer |
| `Correlator` | all tasks interleaved as a transition system: who gets which response |
| `ResetHandshake` | a reset of the coprocessor among all other tasks: when it succeeds |
| `LateResponse` | a run from the start that shows the limit of the correlation |
| `FreshResponse` | exactly when a request can get a response that was there before it |
| `OwnResponse` | the same tasks with a coprocessor that answers in order: exactly when a request can get the answer to another one |
| `Conservation` | where every frame goes, in which order, and what the error counter counts |
| `Subsequences` | in-order parts of sequences |
| `NetConfig` | hex key codec, stored configuration, parameters in force |
| `NvNetwork` | the coprocessor's non-volatile items under requests that may be granted, denied or lost |
| `Framework` | bring-up with retries, in steps that others may come between, READY loop, commands, configuration changes, power cycles |
| `CommandEffects` | what passes, commands and stored parameters do in the end, by number of item and command |
| `PermitJoinClock` | deadline and remaining time on a wrapping 32-bit tick counter |
| `AttrReports` | attribute report records and their typed values |
| `DeviceRegistry` | slots, stored records, descriptors, AF messages, restart |
| `RegistryEffects` | what joins, leaves and descriptors do for the device they are about, and cluster lists that do not fit |
| `ReportBytes` | from the bytes of a message to its events, by the numbers of the ZCL specification |
| `EventBus` | the bounded notification queue between those who emit events and the subscribers |
| `Button` | the push button on a wrapping tick counter |

How things outside the code are modelled:

- Queues are bounded sequences, binary semaphores are bits, the request mutex is an optional owner. A
  timeout may fire whenever the thing waited for is not there.
- An action of `Correlator` is one atomic step of one task. Comparing a response with the pending pair,
  copying it and signalling are one step, and so is each update of the error counter.
- The coprocessor answers each request with granted, denied or lost, as an arbitrary function of the
  request number; a lost write may or may not have been applied.
- Time is a parameter. Ticks are 1000 a second; a 32-bit counter shows the true time modulo 2^32.
- Masks and shifts on bytes are written as arithmetic (`/`, `%`, sums of disjoint parts); 32-bit and
  8-bit wrap-around is written out.
- Events in `Framework`, `DeviceRegistry` and `Button` are those emitted; `EventBus` has the queue that they
  go through, and what of them reaches a subscriber. A file is one record.
- In `OwnResponse` the coprocessor answers requests in the order in which they were written, each at most once,
  some perhaps never, and sends no other responses.
- Every lemma carries `{:induction false}`: inductive proofs recurse explicitly.

Where the code does something else than its comments or documents say, the model follows the code:

- A LEN of 251 to 255 leaves the receiver in its payload state for ever (`CanResyncIffNotDoomed`).
- The key reader accepts more than 32-digit texts: blanks, signs and missing second digits (`AcceptedKeys`,
  `BlanksAccepted`).
- Change-channel on a file with an unreadable key can put other stored values in force
  (`ChangeChannelOnly` gives the exact condition, `ChangeChannelBringsIn` a file).
- The comment "Persist updated caps" is wrong: records are stored without endpoints, so capabilities are
  gone after a restart (`RestoreRebuilds`).
- "Empty for new devices" is wrong: a freed slot keeps its capability list for the next device
  (`NewDeviceCaps`, `InheritsCaps`, `CapsOutliveDevice`).
- The position of the second cluster list of a descriptor is an 8-bit sum, so one that announces 122 in-clusters or more
  can have bytes of its front taken for out-clusters (`ListsFoundIff`, `HeaderIsLearned`).
- A one-byte PowerFactor, the size of its type, is never translated (`PowerFactorTranslatedIff`).
- The retry limit for network bring-up is never reached (`BringUpFailuresNeverHalt`, `FailsForEver`); the task
  halts exactly as `HaltedIff` says.
- A configuration stored during a pass that forms a network is lost if it comes between the network check and
  the save; before and after it is kept (`WriteDuringPass`).
- A formation that breaks off before the key is not repaired: the next pass finds PAN ID and channel in place and
  the key is never written (`Recovers` and `InstalledAfterPassIff` say exactly when the items hold, `KeyNeverWritten` gives a run).
- An event for which the notification queue has no room is lost, so a subscriber may still know a device that has
  left (`NothingLostIff`, `SubscriberKnowsRegistry`, `LeftIsLost`).
- A channel outside 11 to 26 is never recognised again and leads to a reconfiguration in every pass
  (`ResumesAfterReady`).
- The wait for the coordinator fails at once when its deadline lies behind a wrap of the tick counter
  (`AwaitAcrossWrap`), and goes on for another 2^32 ticks when the deadline passes between its two readings
  (`OverrunsIff`, `WaitOverrun`).
- The remaining permit-join time is wrong when the deadline wraps to 0, and from 2^31 ticks after
  the window has closed (`TtlCorrectIff`, `TtlGoesWrong`). The deadline is set even when the
  coprocessor refused the permit-join request (`PermitJoinIgnoresAnswer`).
- A button option describes 254 as an indefinite permit-join window; only 255 is one (`ForeverIff`).

## Model

| member | source | states |
|---|---|---|
| `MtFrame.FcsCalculate` | components/znp_transport/znp_mt_protocol.c:6-13 | the accumulator loop yields the XOR of length, command and payload bytes |
| `MtFrame.FrameEncode` | components/znp_transport/znp_mt_protocol.c:15-38 | size error with the buffer untouched, or exactly the wire image in front of the old rest of the buffer |
| `MtFrame.FrameDecode` | components/znp_transport/znp_mt_protocol.c:40-66 | status and frame for every buffer; untouched on argument and size errors, overwritten on a CRC error |
| `MtFrame.DecodeIffEncoded` | components/znp_transport/znp_mt_protocol.c:15-66 | a buffer decodes to a frame exactly when it starts with the wire image of that frame |
| `MtFrame.DecodedIsWellFormed` | components/znp_transport/znp_mt_protocol.c:47-57 | an accepted buffer begins with the image of a frame whose payload has the announced length |
| `MtFrame.AcceptedIffCancels` | components/znp_transport/znp_mt_protocol.c:59-63 | a complete candidate is accepted exactly when all bytes after SOF cancel out; otherwise a CRC error |
| `MtFrame.SingleByteCorruptionDetected` | components/znp_transport/znp_mt_protocol.c:6-66 | any change of one byte behind LEN makes the decoder report a CRC error, for every frame |
| `RxMachine.RunValid` | components/znp_transport/znp_transport.c:398-406 | the write index stays within the buffer for every stream, and every reported frame is well formed |
| `RxMachine.RunCandidate` | components/znp_transport/znp_transport.c:375-424 | one complete candidate gives one verdict, the decoder's, and leads back to hunting |
| `RxMachine.RunDoomed` | components/znp_transport/znp_transport.c:398-404 | after a LEN above 250 nothing is ever reported again |
| `RxMachine.RefinesSpecParser` | components/znp_transport/znp_transport.c:360-427 | for every stream the byte machine reports exactly what the reference parser reports |
| `RxMachine.LocateFrames` | components/znp_transport/znp_transport.c:375-425 | the frames of a parse are disjoint wire images in the stream, in order |
| `RxMachine.FramesAreSubstrings` | components/znp_transport/znp_transport.c:375-425 | the same for what the machine reports |
| `RxMachine.StreamRoundTrip` | components/znp_transport/znp_transport.c:376-424 | any frames with any SOF-free noise around them come out as exactly those frames |
| `RxMachine.Resynchronises` | components/znp_transport/znp_transport.c:376-424 | from every state that is not stuck, enough bytes of at most 250 lead back to hunting |
| `RxMachine.ResyncBound` | components/znp_transport/znp_transport.c:382-406 | 254 such bytes always suffice and 253 do not |
| `RxMachine.CanResyncIffNotDoomed` | components/znp_transport/znp_transport.c:398-406 | some stream leads back to hunting exactly when the stored length is not above 250 in a state that uses it |
| `RxMachine.ResyncThenRoundTrip` | components/znp_transport/znp_transport.c:368-426 | after any garbage that did not get the machine stuck, 254 quiet bytes and then frames deliver exactly those frames |
| `RxMachine.CorruptedFrameIsDropped` | components/znp_transport/znp_transport.c:407-416 | a frame with one damaged byte costs one error, yields no frame and leads back to hunting |
| `ZnpLink.Transport.OnByte` | components/znp_transport/znp_transport.c:375-425 | one iteration of the RX loop on the statics is the byte step on the abstract state |
| `ZnpLink.Transport.StorePayloadByte` | components/znp_transport/znp_transport.c:398-405 | the payload branch: store if there is room, move on when the length is reached |
| `ZnpLink.Transport.CheckFrame` | components/znp_transport/znp_transport.c:407-424 | the check-byte branch: error, post or drop |
| `ZnpLink.Transport.Dispatch` | components/znp_transport/znp_transport.c:435-465 | one iteration of the dispatch loop on the statics is the abstract dispatch step, nothing else changes |
| `ZnpLink.DispatchRoutes` | components/znp_transport/znp_transport.c:440-464 | by protocol numbers: responses that match the pending pair go to the response cell, indications to the AREQ queue while it has room, those of a reset (0x41, 0x80) to the reset semaphore as well, all else nowhere |
| `ZnpLink.Transport.BeginReset` | components/znp_transport/znp_transport.c:322-323 | a token from an earlier indication is dropped, nothing else changes |
| `ZnpLink.Transport.EndReset` | components/znp_transport/znp_transport.c:332-341 | success exactly when a token is there, which is taken; else one error |
| `ZnpLink.Transport.EnqueueAreq` | components/znp_transport/znp_transport.c:458-462 | append, or count an error when full |
| `ZnpLink.Transport.BeginSreq` | components/znp_transport/znp_transport.c:281-298 | encode, record the expected pair, clear the stale token; refused requests change nothing |
| `ZnpLink.Transport.EndSreq` | components/znp_transport/znp_transport.c:300-311 | answered exactly when a token is there, with the frame in the cell; else one error |
| `ZnpLink.Transport.ReceiveAreq` | components/znp_transport/znp_transport.c:346-349 | takes the oldest frame, if any |
| `ZnpLink.Transport.AwaitCoordinator` | components/zb_framework/zb_network.c:298-320 | the deadline loop with both readings of ticks that wrap: frames are dropped up to and including the first coordinator-started indication that comes while a receive still blocks |
| `ZnpLink.WaitGoesOnIff` | components/zb_framework/zb_network.c:299-301 | before the deadline the comparison lets the wait go on exactly when no wrap of the counter lies in between; from the deadline to the next wrap it ends it |
| `ZnpLink.TimeLeftExactIff` | components/zb_framework/zb_network.c:302 | the time left is right exactly when it is read not later than the deadline; else it is almost a full turn of the counter |
| `ZnpLink.LastMomentIs` | components/zb_framework/zb_network.c:302-305 | a receive blocks until the deadline, or a full turn of the counter longer when the time left is computed after it |
| `ZnpLink.OverrunsIff` | components/zb_framework/zb_network.c:301-305 | some receive may block beyond the deadline exactly when in some turn the deadline passes between the two readings |
| `ZnpLink.WaitOverrun` | components/zb_framework/zb_network.c:301-313 | two readings across the deadline, and an indication almost 2^32 ticks later is still taken |
| `ZnpLink.AwaitTakesUpToCoord` | components/zb_framework/zb_network.c:301-315 | a wait that succeeds has taken exactly the frames up to the indication |
| `ZnpLink.AwaitInTime` | components/zb_framework/zb_network.c:301-315 | before the deadline and without a wrap, the wait looks for the indication in exactly the frames that come by the deadline |
| `ZnpLink.AwaitAcrossWrap` | components/zb_framework/zb_network.c:299-301 | with a wrap still ahead of the deadline the wait fails at once and takes nothing |
| `ZnpLink.ReceiveStream` | components/znp_transport/znp_transport.c:368-426 | the RX loop over a whole stream |
| `ZnpLink.RxBytesMatchesSpecParser` | components/znp_transport/znp_transport.c:368-424 | with nobody draining it, the raw queue ends with the first 16 frames of the reference parse and the counter with rejected candidates plus the rest |
| `Correlator.MutexStep` | components/znp_transport/znp_transport.c:286-310 | every step keeps: the mutex owner is the one task inside the critical section |
| `Correlator.TaskProcess` | components/znp_transport/znp_transport.c:442-451 | a match in the dispatcher answers the request that is pending, for every task at any step |
| `Correlator.InvStep` | components/znp_transport/znp_transport.c:273-467 | the whole correlation invariant is kept by every step of every task and every timeout |
| `Correlator.ResponseMatchesRequest` | components/znp_transport/znp_transport.c:286-311 | in every run a returned response has the response type of the request's subsystem and its command id, and was dispatched after the request cleared the stale token |
| `Correlator.PendingStable` | components/znp_transport/znp_transport.c:291-310 | from the clear to the release the pending pair is the owner's, and no other task is in the critical section |
| `Correlator.ResponsesGivenOnce` | components/znp_transport/znp_transport.c:295-308 | no response is handed out twice, and they are handed out in order of arrival |
| `Correlator.MatchIsTaken` | components/znp_transport/znp_transport.c:301-308 | the limit: a waiting request takes any frame with its key that is dispatched now, however old |
| `ResetHandshake.ResetProgress` | components/znp_transport/znp_transport.c:332-455 | a reset indication in the dispatcher's hand lets the task that waits for it go on, and its reset succeeds |
| `ResetHandshake.ResetOutcomes` | components/znp_transport/znp_transport.c:332-341 | with a token only success is possible, without one only a failure that counts an error |
| `ResetHandshake.TokenStep` | components/znp_transport/znp_transport.c:455-456 | only the dispatch of a reset indication gives a token, whatever the tasks do |
| `ResetHandshake.ResetSound` | components/znp_transport/znp_transport.c:322-341 | in every run, a reset succeeds only if a reset indication was dispatched after it began |
| `LateResponse.LateResponseIsReturned` | components/znp_transport/znp_transport.c:286-311 | a run from the start, for any tasks, requests and frame: the response to a timed-out request, come before the next request with the same key was made, is returned to that one |
| `LateResponse.BytesHeard` | components/znp_transport/znp_transport.c:368-424 | in the system of tasks, a stream without rejected candidates posts exactly its frames |
| `FreshResponse.OldResponseIff` | components/znp_transport/znp_transport.c:291-311 | from the clear of the stale token: some run returns a response that had been posted before exactly when a frame with the key is in the raw queue or the dispatcher's hand |
| `OwnResponse.ResponseIsOwn` | components/znp_transport/znp_transport.c:286-311 | if besides no request with the key is unanswered, every run returns the answer to the task's own request or none |
| `OwnResponse.ForeignResponseIff` | components/znp_transport/znp_transport.c:286-311 | with an idle receiver: some run returns somebody else's answer exactly when a frame with the key is under way or a request with it is unanswered |
| `OwnResponse.DialogStep` | components/znp_transport/znp_transport.c:298-310 | every step keeps: each posted response answers one earlier request, with its key |
| `Conservation.FramesConserved` | components/znp_transport/znp_transport.c:407-465 | in every run each frame the reference parser finds occurs exactly as often in all places together, and the error counter is rejected candidates, drops and timeouts modulo 2^32 |
| `Conservation.RunOrder` | components/znp_transport/znp_transport.c:417-465 | from any state: what a run hands over, followed by what is under way, is an in-order part of what was under way followed by the AREQ frames received |
| `Conservation.ConsumedInOrder` | components/znp_transport/znp_transport.c:435-465 | consumed frames followed by the AREQ queue are an in-order part of the AREQ frames on the wire |
| `Conservation.ResetIndicationConsumedDuringStartup` | components/zb_framework/zb_network.c:298-316 | one reset indication per reset, before any other indication of a started coordinator: after a successful wait it is neither left for the READY loop nor under way |
| `NetConfig.KeyToHex` | components/zb_storage/zb_storage_config.c:21-26 | the buffer holds the 32 digits and a terminator |
| `NetConfig.HexToKey` | components/zb_storage/zb_storage_config.c:29-42 | result and, also on failure, the bytes overwritten so far |
| `NetConfig.ScanByteIff` | components/zb_storage/zb_storage_config.c:37 | a byte is read exactly when white space is followed by a digit, or by a sign and a digit |
| `NetConfig.ParseHexOf` | components/zb_storage/zb_storage_config.c:21-42 | every key survives the trip through its text, whatever the target held |
| `NetConfig.AcceptedKeys` | components/zb_storage/zb_storage_config.c:29-42 | a text is accepted exactly when it has 32 characters or more and from each even position below 32 a byte can be read |
| `NetConfig.BlanksAccepted` | components/zb_storage/zb_storage_config.c:29-42 | sixteen times a blank and a digit is accepted |
| `NetConfig.LoadSaved` | components/zb_storage/zb_storage_config.c:44-147 | load after save returns the record |
| `NetConfig.EffectiveSaved` | components/zb_framework/zb_framework.c:60-74 | what a saved configuration puts in force, for all defaults |
| `NetConfig.DefaultsWithoutFile` | components/zb_framework/zb_framework.c:55-62 | a file that is absent, does not parse or has an unreadable key leaves the defaults in force |
| `NetConfig.EffectiveFixpoint` | components/zb_framework/zb_framework.c:53-95 | saving the parameters in force and loading them again gives the same parameters, for all defaults and files |
| `NetConfig.ChangeChannelOnly` | components/zb_framework/zb_framework.c:208-216 | change-channel leaves the other parameters alone exactly when no unreadable key hides stored values that differ from the defaults |
| `NetConfig.ChangeChannelBringsIn` | components/zb_framework/zb_framework.c:208-216 | a file with an empty key: ignored before, its PAN ID in force after the change of channel |
| `NetConfig.WithChannelKeeps` | components/zb_framework/zb_framework.c:211-214 | what was read from the file stays, and only the channel is replaced |
| `NetConfig.ChangeChannelAfterSave` | components/zb_framework/zb_framework.c:208-216 | in particular for an absent file or one written by a save |
| `NvNetwork.Coprocessor.Request` | components/zb_framework/zb_network.c:17-30 | one answer is used up and becomes the error code |
| `NvNetwork.Coprocessor.ReadItem` | components/zb_framework/zb_network.c:77-103 | error code and buffer, of which only the bytes the item has are overwritten |
| `NvNetwork.Coprocessor.WriteItem` | components/zb_framework/zb_network.c:105-127 | error code and item contents, also for a lost answer |
| `NvNetwork.PutKeepsTail` | components/zb_framework/zb_network.c:105-127 | a write replaces the front of an item and nothing behind it |
| `NvNetwork.Coprocessor.CheckState` | components/zb_framework/zb_network.c:131-165 | the network check on buffers and masks |
| `NvNetwork.ScanChannel` | components/zb_framework/zb_network.c:150-156 | the loop finds the lowest channel of 11 to 26, or 0 |
| `NvNetwork.LowestChannel` | components/zb_framework/zb_network.c:150-156 | the lowest channel whose bit is set, or 0 when none is |
| `NvNetwork.Coprocessor.Form` | components/zb_framework/zb_network.c:169-216 | five writes that stop at the first failure |
| `NvNetwork.Coprocessor.Clear` | components/zb_framework/zb_framework.c:178-182 | three writes whatever the answers |
| `NvNetwork.MatchIff` | components/zb_framework/zb_network.c:131-165 | exactly when the check reports a match and when it reports an empty coprocessor, under every combination of failures |
| `NvNetwork.MatchMeansAgreement` | components/zb_framework/zb_network.c:136-163 | for nonzero PAN ID and channel, a failed read is never taken for a match |
| `NvNetwork.CheckWithoutFailures` | components/zb_framework/zb_network.c:131-165 | without failures the three results say exactly how the items relate to the wanted values |
| `NvNetwork.WriteAllEffect` | components/zb_framework/zb_network.c:174-212 | success leaves every listed item in place; in any case nothing else changes |
| `NvNetwork.FormedItemsAgree` | components/zb_framework/zb_network.c:182-199 | written items read back as the wanted PAN ID always, as the wanted channel exactly for 0 and 11 to 26 |
| `NvNetwork.FormNetworkEffect` | components/zb_framework/zb_network.c:169-216 | a successful formation puts all five items in place, carries the PAN ID and, exactly for a legal one or 0, the channel, and touches nothing else; five granted requests are enough |
| `NvNetwork.FormInstalls` | components/zb_framework/zb_network.c:174-212 | a successful formation leaves by number: 0x0087 coordinator, 0x0083 the PAN ID, 0x0084 the channel mask, 0x0063 enabled, 0x0062 the key |
| `NvNetwork.WriteAllSucceedsIff` | components/zb_framework/zb_network.c:174-212 | it succeeds exactly when each of its writes is granted |
| `NvNetwork.ClearedIsNoNetwork` | components/zb_framework/zb_framework.c:178-182 | the clearing writes leave zeros, which no later check takes for a network with a nonzero PAN ID |
| `Framework.Hub.ZnpInitialise` | components/zb_framework/zb_framework.c:100-126 | reset and ping decide, the other two requests do not |
| `Framework.KeyIsSet` | components/zb_framework/zb_framework.c:67-70 | the loop finds out whether the key is all zeros |
| `Framework.Hub.LoadConfig` | components/zb_framework/zb_framework.c:53-80 | the key loop and overrides yield the parameters in force, which become the active ones |
| `Framework.Hub.FormAndStart` | components/zb_framework/zb_framework.c:151-170 | form, start, save; the save may fail silently |
| `Framework.Hub.ReconfigureAndStart` | components/zb_framework/zb_framework.c:172-186 | clear, then form |
| `Framework.Hub.BringUpNetwork` | components/zb_framework/zb_framework.c:288-303 | the three ways from the network check to a started coordinator |
| `Framework.Hub.RunPass` | components/zb_framework/zb_framework.c:271-316 | one turn of the task's loop up to the READY loop, on the statics |
| `Framework.Hub.ProcessCommand` | components/zb_framework/zb_framework.c:189-221 | one command on the statics: deadline, stored channel, leaving READY |
| `Framework.Hub.LeaveReadyLoop` | components/zb_framework/zb_framework.c:236-240 | deadline cleared and LOST emitted |
| `Framework.Hub.SubmitCommand` | components/zb_cmd/zb_cmd.c:21-56 | accepted exactly when there is room and the channel is legal |
| `Framework.Hub.NetworkInfo` | components/zb_framework/zb_framework.c:331-381 | all fields of the answer, and PERMIT_JOIN exactly in READY with a positive remaining time |
| `Framework.FormingEffect` | components/zb_framework/zb_framework.c:151-170 | a formation keeps the parameters in force; success means all five items hold them; six granted requests are enough |
| `Framework.ReconfiguringEffect` | components/zb_framework/zb_framework.c:172-186 | the same after clearing, whichever of the clearing writes failed |
| `Framework.BringUpEffect` | components/zb_framework/zb_framework.c:128-186 | whatever fails, a bring-up that reports success ends with the parameters in the coprocessor, with all five items in place unless it agreed before |
| `Framework.PassIsSteps` | components/zb_framework/zb_framework.c:271-320 | a pass that nobody interrupts is the same as its steps in a row |
| `Framework.InvStep` | components/zb_framework/zb_framework.c:189-327 | every event, at any point of a pass, keeps what the points rely on and the READY invariant |
| `Framework.ReadyMeansAgreement` | components/zb_framework/zb_framework.c:274-320 | in every run, with configuration writes at any moment, READY implies that the coprocessor's PAN ID is the active one, and its lowest channel exactly when that is a legal one |
| `Framework.Recovers` | components/zb_framework/zb_framework.c:263-320 | from any coprocessor contents, one pass whose own requests succeed ends in READY with the parameters in the coprocessor; all five items hold afterwards exactly when it did not agree before or they all held before |
| `CommandEffects.PassServesIff` | components/zb_framework/zb_framework.c:271-320 | a pass reaches READY exactly when reset, ping and the requests that its way from the check needs are granted |
| `CommandEffects.PassInstalls` | components/zb_framework/zb_framework.c:271-320 | a pass that reaches READY and did not find the wanted network leaves its PAN ID and its key, enabled, in the coprocessor, whatever failed |
| `CommandEffects.InstalledAfterPassIff` | components/zb_framework/zb_framework.c:271-320 | after a pass whose requests succeed, PAN ID and enabled key are there exactly when the network was not found or they were there before |
| `CommandEffects.NextPassAdopts` | components/zb_framework/zb_framework.c:271-320 | a pass whose requests succeed puts the parameters in force to work: READY with PAN ID and legal channel active and in the coprocessor |
| `CommandEffects.PowerCycleResumes` | components/zb_framework/zb_framework.c:263-327 | power off and on after READY on a legal channel: a pass whose requests succeed is in READY on the same network and writes nothing |
| `Framework.KeyNeverWritten` | components/zb_framework/zb_network.c:174-212 | from power-on with empty items, if only the fourth write is refused, the second pass reaches READY and the key item is never written |
| `Framework.ResumesAfterReady` | components/zb_framework/zb_framework.c:288-303 | after a pass that reached READY a check whose reads succeed chooses to resume exactly for a legal channel, else to reconfigure; resuming writes nothing |
| `Framework.WriteDuringPass` | components/zb_framework/zb_framework.c:271-320 | a configuration stored at any point of a pass whose requests succeed asks for no reconfiguration; it is in force afterwards exactly when the task had none of its own left to save, and active exactly when it came before the check |
| `Framework.HaltedIff` | components/zb_framework/zb_framework.c:275-316 | in every run the task has halted exactly when the passes since power-on end in five that fail at reset or ping, after one that failed there or at the bring-up |
| `Framework.BringUpFailuresNeverHalt` | components/zb_framework/zb_framework.c:286-315 | a run without a failure at reset or ping never halts, however many bring-ups fail |
| `Framework.FailsForEver` | components/zb_framework/zb_framework.c:305-315 | for each number of passes there is a run in which all of them fail at the bring-up and the task goes on |
| `Framework.CommandsAndEventsInOrder` | components/zb_framework/zb_framework.c:223-259 | in every run from power-on: unbroken history, executed commands followed by queued ones are the accepted ones, and the deadline is 0 outside the READY loop |
| `Framework.EventsAlternate` | components/zb_framework/zb_framework.c:225-256 | an unbroken history has network events that are a prefix of READY, LOST, READY, ... |
| `Framework.CommandsRunWhileUp` | components/zb_framework/zb_framework.c:232-242 | in an unbroken history the last network event before a command is READY |
| `CommandEffects.CommandTaken` | components/zb_framework/zb_framework.c:232-242 | each command leaves the queue once and is logged; permit-join keeps the hub in READY, the other two end it with LOST and the deadline cleared |
| `CommandEffects.ChangeChannelEffect` | components/zb_framework/zb_framework.c:208-216 | the new channel is in force if it could be saved, else the file is as before; in both cases READY ends |
| `CommandEffects.ChangeChannelTakesEffect` | components/zb_framework/zb_framework.c:208-320 | from the command through the next pass: READY on the new channel with the old PAN ID, in the statics and in the coprocessor, and with the key there if the network had to be formed |
| `CommandEffects.PermitJoinEffect` | components/zb_framework/zb_framework.c:189-207 | the hub keeps serving; the time reported from then on is for 2^31 ticks 0 for a duration of 0, 255 for 255, and else, with a nonzero deadline word, the whole seconds left |
| `CommandEffects.ReconfigureEffect` | components/zb_framework/zb_framework.c:217-218 | READY ends; file and coprocessor are unchanged |
| `CommandEffects.ResetIndicationEffect` | components/zb_framework/zb_framework.c:249-255 | an unexpected reset indication ends READY; queue and parameters stay |
| `CommandEffects.AcceptedIff` | components/zb_cmd/zb_cmd.c:21-56 | a command is queued exactly when there is room and its channel is legal; else nothing happens |
| `CommandEffects.ParamSetAsks` | components/zb_framework/zb_framework.c:383-403 | parameters are stored, and a reconfiguration is asked for exactly when the hub is in READY on another PAN ID or channel |
| `CommandEffects.ParamSetTakesEffect` | components/zb_framework/zb_framework.c:271-403 | from the call through command and next pass: READY on the new PAN ID and channel, and with a nonzero key in the coprocessor if the network had to be formed |
| `Framework.PermitJoinIgnoresAnswer` | components/zb_framework/zb_framework.c:192-206 | the deadline and all else are the same whatever the coprocessor answers |
| `PermitJoinClock.DeadlineIsCloseTime` | components/zb_framework/zb_framework.c:196-205 | the deadline word is the closing time modulo 2^32 and never the sentinel |
| `PermitJoinClock.TtlCorrectIff` | components/zb_framework/zb_framework.c:340-354 | exactly when the reported time is the whole seconds left, at any later moment |
| `PermitJoinClock.TtlExact` | components/zb_framework/zb_framework.c:340-354 | for fewer than 2^31 ticks and a nonzero word it is right and at most the duration |
| `PermitJoinClock.TtlNeverIncreases` | components/zb_framework/zb_framework.c:340-354 | it never increases within 2^31 ticks, even for a word of 0 |
| `PermitJoinClock.ForeverIff` | components/zb_framework/zb_framework.c:198-199 | the window stays open for good, and the report is 255, exactly for a duration of 255 |
| `PermitJoinClock.ClosedByZero` | components/zb_framework/zb_framework.c:196-197 | a duration of 0 closes the window at once |
| `PermitJoinClock.TtlGoesWrong` | components/zb_framework/zb_framework.c:201-204 | two inputs for which it is wrong |
| `AttrReports.DispatchReports` | components/zb_device_mgr/zb_device_mgr.c:387-423 | the loop with its moving pointer and remaining count emits one event for each parsed record, in order |
| `AttrReports.ParseSerialise` | components/zb_device_mgr/zb_device_mgr.c:392-422 | serialised records are parsed back in front of whatever follows them |
| `AttrReports.ParsesMaximalPrefix` | components/zb_device_mgr/zb_device_mgr.c:392-422 | for every body the parsed records are exactly the maximal well-formed prefix |
| `AttrReports.AssembleWord` | components/zb_device_mgr/zb_cap.c:92-93 | the byte-assembly loop yields the little-endian number |
| `AttrReports.SummationExact` | components/zb_device_mgr/zb_cap.c:90-98 | every 48-bit summation is reported exactly |
| `AttrReports.DemandExact` | components/zb_device_mgr/zb_cap.c:99-105 | every 24-bit two's complement demand is reported exactly |
| `AttrReports.WordsExact` | components/zb_device_mgr/zb_cap.c:47-113 | every unsigned 16-bit value of eight attributes is reported exactly and in its own field |
| `AttrReports.SignedWordsExact` | components/zb_device_mgr/zb_cap.c:53-115 | every two's complement 16-bit value of three attributes is reported exactly |
| `AttrReports.FloatBitsExact` | components/zb_device_mgr/zb_cap.c:121-130 | all 32 bits of a float are passed on |
| `AttrReports.PowerFactorTranslatedIff` | components/zb_device_mgr/zb_cap.c:108-119 | the power factor reported is the one sent exactly when the value has two bytes or more, or is 0 |
| `ReportBytes.TypeSizeByNumber` | components/zb_device_mgr/zb_device_mgr.c:396-414 | the table of sizes is the numbering of the ZCL types, for the fourteen known ones and for all others |
| `ReportBytes.RecordFromBytes` | components/zb_device_mgr/zb_device_mgr.c:393-422 | a record is read from its bytes and the list goes on right behind it |
| `ReportBytes.UnknownTypeEnds` | components/zb_device_mgr/zb_device_mgr.c:413-415 | an unknown type or a record that is cut off ends the list |
| `ReportBytes.ByteValues` | components/zb_device_mgr/zb_cap.c:40-139 | one byte: on/off, level, occupancy, zone state, binary input and output |
| `ReportBytes.WordValues` | components/zb_device_mgr/zb_cap.c:47-113 | two bytes, by cluster and attribute number: the little-endian number in its own field |
| `ReportBytes.SignedWordValues` | components/zb_device_mgr/zb_cap.c:53-115 | two bytes, signed: temperature, pressure, active power |
| `ReportBytes.DemandValue` | components/zb_device_mgr/zb_cap.c:99-105 | three bytes, signed: the demand |
| `ReportBytes.FloatValue` | components/zb_device_mgr/zb_cap.c:121-130 | four bytes: the bits of a float |
| `ReportBytes.SummationValues` | components/zb_device_mgr/zb_cap.c:91-98 | six bytes: the two summations |
| `ReportBytes.RawValues` | components/zb_device_mgr/zb_cap.c:142-146 | any other cluster: attribute, type and the bytes as they came, zeros behind them |
| `ReportBytes.NotTranslated` | components/zb_device_mgr/zb_cap.c:40-141 | values that are too short and other attributes of the known clusters are reported as zeros |
| `ReportBytes.CapIdKeepsApart` | components/zb_device_mgr/include/zb_cap.h:12 | capabilities are the same exactly for the same endpoint and cluster |
| `DeviceRegistry.Registry.FindByIeee` | components/zb_device_mgr/zb_device_mgr.c:59-66 | the first active slot with the address |
| `DeviceRegistry.Registry.FindByNwk` | components/zb_device_mgr/zb_device_mgr.c:68-75 | the first active slot with the network address |
| `DeviceRegistry.Registry.FindFreeSlot` | components/zb_device_mgr/zb_device_mgr.c:77-83 | the first inactive slot |
| `DeviceRegistry.Registry.JoinDevice` | components/zb_device_mgr/zb_device_mgr.c:139-179 | slots, record and event of a join, in place |
| `DeviceRegistry.Registry.LeaveDevice` | components/zb_device_mgr/zb_device_mgr.c:181-198 | slots, record and event of a leave, in place |
| `DeviceRegistry.Registry.LearnCapability` | components/zb_device_mgr/zb_device_mgr.c:211-234 | appended unless known or full, in place |
| `DeviceRegistry.Registry.CountActive` | components/zb_device_mgr/zb_device_mgr.c:249-259 | the number of active slots |
| `DeviceRegistry.Registry.SimpleDescriptor` | components/zb_device_mgr/zb_device_mgr.c:446-492 | both cluster loops in place, with the 8-bit offset of the second |
| `DeviceRegistry.Registry.LearnClusters` | components/zb_device_mgr/zb_device_mgr.c:467-471 | one cluster loop, cut off at the end of the payload |
| `DeviceRegistry.Registry.AfMessage` | components/zb_device_mgr/zb_device_mgr.c:341-424 | an incoming AF message in place: learned capability and reported events |
| `DeviceRegistry.Registry.Restore` | components/zb_device_mgr/zb_device_mgr.c:123-135 | start-up: empty slots, then one record after the other |
| `DeviceRegistry.Registry.LoadRecord` | components/zb_device_mgr/zb_device_mgr.c:87-114 | the restore callback in place |
| `DeviceRegistry.RebuildCaps` | components/zb_device_mgr/zb_device_mgr.c:103-111 | the nested loops yield the stored capabilities cut at 64 |
| `RegistryEffects.StoredCapsAre` | components/zb_device_mgr/zb_device_mgr.c:103-111 | the stored capabilities of a record are exactly those of its endpoints and their clusters |
| `DeviceRegistry.InvStep` | components/zb_device_mgr/zb_device_mgr.c:139-234 | every operation, with or without a storage failure, keeps: slots refine the records of all devices one is sure about, 64 distinct capabilities at most |
| `DeviceRegistry.RegistryRefinesStore` | components/zb_device_mgr/zb_device_mgr.c:139-234 | after any operations and restarts with any storage failures: distinct addresses, at most 100 devices; except for devices whose last storage access failed or for which a restart had no slot, the registered devices are the stored ones with the stored network addresses; capability lists of at most 64 distinct entries |
| `DeviceRegistry.SureWhileStorageWorks` | components/zb_device_mgr/zb_device_mgr.c:139-198 | without a storage failure there is no exception: the registered devices are the stored ones, at most 100 |
| `DeviceRegistry.EventsTellRegistry` | components/zb_device_mgr/zb_device_mgr.c:139-198 | the emitted JOINED and LEFT events say exactly which devices are registered with which network addresses, except for those that a restart brought up differently |
| `DeviceRegistry.AllToldWhileStorageWorks` | components/zb_device_mgr/zb_device_mgr.c:139-198 | without a storage failure a restart brings up nothing that the emitted events do not say |
| `EventBus.NotifyQueue.Emit` | components/zb_device_mgr/zb_subscribe.c:89-96 | queued when there is room, else dropped; the caller never waits |
| `EventBus.NotifyQueue.Notify` | components/zb_device_mgr/zb_subscribe.c:31-42 | the oldest event is delivered |
| `EventBus.NothingLostIff` | components/zb_device_mgr/zb_subscribe.c:89-96 | events are delivered in order, each is delivered, waiting or lost, and none is lost exactly when no emit finds 32 waiting and no restart finds any |
| `EventBus.DeliveredIsRight` | components/zb_device_mgr/zb_subscribe.c:28-43 | a subscriber is right about each device whose last JOINED or LEFT event was queued and is not waiting |
| `EventBus.SubscriberKnowsRegistry` | components/zb_device_mgr/zb_subscribe.c:28-96 | from the registry to the subscriber, for any operations, storage failures, restarts and interleaving: what it knows about a device is how it is registered, unless a restart changed it or its last event was lost or is waiting |
| `EventBus.LeftIsLost` | components/zb_device_mgr/zb_subscribe.c:93-95 | a join, a message with 32 reports and a leave, with working storage: all that waits is delivered, and the subscriber still knows the device |
| `DeviceRegistry.RestoreRebuilds` | components/zb_storage/zb_storage_device.c:127-169 | restoring in any file order rebuilds exactly the stored addresses, without capabilities |
| `DeviceRegistry.RebootKeepsAddresses` | components/zb_device_mgr/zb_device_mgr.c:118-137 | a restart keeps the address of each device one is sure about, while at most 100 are stored |
| `DeviceRegistry.JoinRefusedIff` | components/zb_device_mgr/zb_device_mgr.c:143-151 | a join is refused exactly for an unknown device when all slots are taken, and then changes nothing |
| `RegistryEffects.JoinEffect` | components/zb_device_mgr/zb_device_mgr.c:139-179 | every other join, of a new or a known device: the announced network address is in its slot, its record and the event |
| `RegistryEffects.JoinKeepsOthers` | components/zb_device_mgr/zb_device_mgr.c:139-157 | the slots of other devices stay |
| `RegistryEffects.JoinIsHeard` | components/zb_device_mgr/zb_device_mgr.c:68-157 | after a join under an address that no other device has, messages from that address are this device's |
| `RegistryEffects.LeaveEffect` | components/zb_device_mgr/zb_device_mgr.c:181-198 | the device is not registered any more, its record is gone if it could be deleted, LEFT is emitted in any case, all else stays |
| `DeviceRegistry.NewDeviceCaps` | components/zb_device_mgr/zb_device_mgr.c:143-155 | a new device takes the first free slot with the capabilities left there, and no other slot changes |
| `DeviceRegistry.InheritsCaps` | components/zb_device_mgr/zb_device_mgr.c:139-198 | leave, then join of another device: the second one has the capabilities of the first |
| `DeviceRegistry.CapsOutliveDevice` | components/zb_device_mgr/zb_device_mgr.c:139-198 | a run from the empty registry: join, descriptor, leave, join of another device, which then has the capabilities described before |
| `DeviceRegistry.LearnAllIsFirstNew` | components/zb_device_mgr/zb_device_mgr.c:220-231 | learning one by one gives the old list and the first new occurrences, cut at 64 |
| `DeviceRegistry.DescRoundTrip` | components/zb_device_mgr/zb_device_mgr.c:463-483 | the parser recovers both cluster lists of every descriptor that fits a payload |
| `DeviceRegistry.DescribeLearns` | components/zb_device_mgr/zb_device_mgr.c:446-483 | such a descriptor gives the device its old list and the first new occurrences cut at 64, and changes no other slot |
| `RegistryEffects.DescribeIgnored` | components/zb_device_mgr/zb_device_mgr.c:453-460 | a descriptor that is too short, reports a failure or is about an unknown address changes nothing |
| `RegistryEffects.DescribeSaves` | components/zb_device_mgr/zb_device_mgr.c:485-489 | a descriptor of a known device stores its address without endpoints and causes no event |
| `RegistryEffects.ListIsCut` | components/zb_device_mgr/zb_device_mgr.c:467-482 | a cluster list has as many of the announced clusters as the payload holds with both bytes, each from its own two bytes |
| `RegistryEffects.ListsFoundIff` | components/zb_device_mgr/zb_device_mgr.c:463-483 | the parser finds both lists where they are exactly when fewer than 122 in-clusters are announced or the wrapped position shows an empty list |
| `RegistryEffects.HeaderIsLearned` | components/zb_device_mgr/zb_device_mgr.c:474-482 | a family of short payloads with 122 announced in-clusters: bytes of the header are learned as a cluster |
| `DeviceRegistry.LengthGuardExact` | components/zb_device_mgr/zb_device_mgr.c:356 | the 8-bit length guard is right exactly for lengths below 239 |
| `DeviceRegistry.ReportsRoundTrip` | components/zb_device_mgr/zb_device_mgr.c:341-423 | any well-typed records that fit a message from a known device yield exactly one typed event each, in order |
| `ReportBytes.OneRecord` | components/zb_device_mgr/zb_device_mgr.c:341-423 | from bytes to event: a record of any known type from a known device yields exactly one event, for its endpoint and cluster, with the value of its bytes |
| `ReportBytes.TwoRecords` | components/zb_device_mgr/zb_device_mgr.c:341-423 | two records yield exactly two events in order, each with the value of its own bytes |
| `ReportBytes.HumidityFromBytes` | components/zb_device_mgr/zb_device_mgr.c:341-423 | for example a humidity report, byte by byte |
| `ReportBytes.ZoneStatus` | components/zb_device_mgr/zb_device_mgr.c:376-385 | a zone status notification yields one event with the status of its first two bytes |
| `ReportBytes.OtherCommands` | components/zb_device_mgr/zb_device_mgr.c:372-387 | other commands and ZCL parts that are too short yield none |
| `ReportBytes.MessageTeaches` | components/zb_device_mgr/zb_device_mgr.c:367-369 | every complete message from a known device teaches its endpoint and cluster to that device only |
| `ReportBytes.MessageIgnored` | components/zb_device_mgr/zb_device_mgr.c:348-364 | a message that is too short or from an unknown address changes nothing |
| `Button.ButtonTask.Poll` | components/zb_button/zb_button.c:57-128 | one poll on the task's variables is the step of the machine on the wrapping counter |
| `Button.ButtonTask.PollAll` | components/zb_button/zb_button.c:54-129 | the task loop over any samples |
| `Button.WrapInvisible` | components/zb_button/zb_button.c:57-129 | from any idle state, for polls at most 2^32 minus the largest threshold apart, the wrapping machine and one on an unbounded clock go through the same states and emit the same events |
| `Button.WrapBoundTight` | components/zb_button/zb_button.c:59-83 | one tick more and a long press goes unnoticed |
| `Button.ConfirmedFromIdle` | components/zb_button/zb_button.c:62-78 | the debounce is passed exactly when some pressed stretch lasts for the window |
| `Button.NoiseEmitsNothing` | components/zb_button/zb_button.c:62-78 | from any idle state, if every pressed stretch is shorter, no event and no counted press |
| `Button.CleanLongPress` | components/zb_button/zb_button.c:69-101 | a clean long press from any waiting state: one LONG, pending presses gone, idle |
| `Button.CleanShortPress` | components/zb_button/zb_button.c:69-127 | a clean short press: counted, and reported once if nothing follows in time |
| `Button.GesturesRecognised` | components/zb_button/zb_button.c:57-129 | from any idle state, after any time without a press, the 32-bit task emits for every clean trace exactly what the presses mean |
| `Button.ShortPressesThenQuiet` | components/zb_button/zb_button.c:102-127 | from idle with none pending, k short presses, then quiet: exactly one event, DOUBLE for two and SINGLE otherwise |
| `Button.LongPressDiscards` | components/zb_button/zb_button.c:80-101 | from any idle state, short presses and then a long one: exactly one LONG, idle with nothing pending afterwards |
| `Button.PendingReportedIff` | components/zb_button/zb_button.c:110-127 | from the wait for another press, the counted presses are reported next exactly when a poll comes after the multi-press time and none before it finds the button down |
| `Button.BounceKeepsCount` | components/zb_button/zb_button.c:70-72 | a bounce while another press is awaited stops the timer and keeps the count |
| `Button.ReleaseBounce` | components/zb_button/zb_button.c:91-95 | a bounce during the release: held again from that poll on, the long-press time starts anew, no second LONG and no press is counted |

## Left out

- MtFrame.FrameDecode: needs a length byte of at most 250 in the buffer, as the destination has no room for more.
- Correlator.ResponseMatchesRequest: does not tell a late response from the awaited one when both have the same key; `OldResponseIff` and `ForeignResponseIff` say exactly when that can happen.
- OwnResponse.ForeignResponseIff: the receiver hunts when the token is cleared; `ResponseIsOwn` needs no such condition.
- ZnpLink.Transport.AwaitCoordinator: a state-change indication without payload, for which the source would read a stale byte, is not taken for a started coordinator.
- NetConfig.AcceptedKeys: of the two characters `0x` the 0 is read, as newlib does; the C standard would let the directive fail.
- NvNetwork.Coprocessor.CheckState: says nothing about the key; the check compares only PAN ID and channel.
- Framework.ReadyMeansAgreement: stored channels are below 32, as the 32-bit shift for the channel mask is undefined beyond; a configuration write together with its look at the state is one step, and so is a command.
- DeviceRegistry.Registry.AfMessage: ZCL lengths of 239 and more are excluded, as the source then reads past the payload buffer (`LengthGuardExact`).
- Button.ButtonTask.Poll: the press count does not overflow.
- Interleavings inside one dispatch iteration and lost updates of the error counter: both are one step here.
- Interleavings inside one registry operation: its mutex is not modelled.
- Parsers of TC_DEV_IND, END_DEVICE_ANNCE_IND, LEAVE_IND and ACTIVE_EP_RSP: fixed offsets that end in a join, a leave or requests.
- A request without a response buffer, the uninitialised transport and the firmware version text.
- What the coprocessor itself does to its items while starting a network.
- Subscriber table, cluster schemas and command frame builders: a subscriber is one that gets everything from the beginning, and the other two keep no state that the other parts depend on.
- JSON, protobuf and file system code: a stored configuration or device is one record, a failed write leaves it as it was, and a file name always fits its record.
- The value of a float report: it stays 32 raw bits.
- Expander, GPIO and UART drivers, task creation, logging, delays and FreeRTOS internals.
